# pytd visitors and pyi class-header checks, in Dafny

This project models two parts of pytype's stub handling and proves properties about them.

The first part is the rewrite passes over the pytd type-declaration tree in
`pytype/pytd/pytd_visitors.py`:

- `CanonicalOrderingVisitor` sorts every collection whose order does not matter.
- `CollectTypeParameters` collects type parameters, keeping the first one seen under each name.
- `ExtractSuperClasses` builds a map from each class to its parents.
- `RenameModuleVisitor` moves a module's own qualified names to a new module name.
- `PrintVisitor` turns the tree back into stub text. While it prints, it keeps:
  - a stack of enclosing class names;
  - an import table, mapping each module to the names wanted from it;
  - per-name reference counts for `typing` names;
  - the names a `typing` import would collide with.

The second part is the class-header checks in `pytype/pyi/classdef.py`:
`get_bases`, `get_keywords` and `get_decorators`.

The tree is a set of datatypes (`pytd.dfy`). Pure hooks are functions that build new nodes.
Where the source updates a visitor's fields, the visitor is a class and its hooks are methods:

- `PrintVisitor` in `printer.dfy`;
- `CollectTypeParameters` in `type_parameters.dfy`;
- `ExtractSuperClasses` in `superclasses.dfy`.

Each method's `ensures` ties its result and its new state to reference functions. Lemmas
then state what the source promises about those functions.

Some `PrintVisitor` hooks print children or nodes with a new `PrintVisitor()`. Those hooks
get the text as a parameter `render: PType -> string`. A fresh printer starts empty and is
thrown away, so for the model only its text matters. Hooks that read `self.old_node` get
the original node next to its printed children.

Parse errors are values of a `Result` datatype.

Modules:

- `Wrappers`: `Option` and `Result`.
- `Text`: joins, partitions, prefixes, the string order and sorted sets.
- `Sorting`: a stable sort by key.
- `Pytd`: the tree.
- `CanonicalOrdering`, `TypeParameters`, `SuperClasses`, `RenameModule`: the visitors named after them.
- `Imports`: the import table and `typing` counts.
- `PrintText`: the printer's pure text rules.
- `Printer`: the `PrintVisitor` class.
- `ClassDef`: the three class-header checks.

## Model

| member | source | states |
|---|---|---|
| CanonicalOrdering.VisitTypeDeclUnit | pytype/pytd/pytd_visitors.py:25-31 | the module keeps its name; each of its constants, type parameters, functions, classes and aliases is a sorted permutation of the input |
| CanonicalOrdering.VisitClass | pytype/pytd/pytd_visitors.py:33-43 | name, metaclass, parents and template are kept; methods, constants, decorators and nested classes are sorted permutations; missing slots stay missing, present slots are sorted |
| CanonicalOrdering.VisitFunction | pytype/pytd/pytd_visitors.py:45-52 | without `sort_signatures` the function is unchanged; with it only the signatures change, to a sorted permutation |
| CanonicalOrdering.VisitSignature | pytype/pytd/pytd_visitors.py:54-57 | only template and exceptions change, each to a sorted permutation |
| CanonicalOrdering.VisitUnionType | pytype/pytd/pytd_visitors.py:59-60 | the result is a union whose members are a sorted permutation of the input's |
| CanonicalOrdering.Sorted | pytype/pytd/pytd_visitors.py:25-31 | `sorted` gives a sorted permutation, and an already sorted input comes back unchanged |
| CanonicalOrdering.HooksIdempotent | pytype/pytd/pytd_visitors.py:25-60 | each ordering hook applied to its own output changes nothing more |
| Sorting.SortByIdempotent | pytype/pytd/pytd_visitors.py:25-60 | sorting a sorted sequence again gives it back |
| Sorting.SortByStable | pytype/pytd/pytd_visitors.py:25-60 | sorting is stable: the elements that share a key come out in the order they went in |
| TypeParameters.CollectTypeParameters.constructor | pytype/pytd/pytd_visitors.py:73-76 | starts with no parameters and no seen names |
| TypeParameters.CollectTypeParameters.EnterTypeParameter | pytype/pytd/pytd_visitors.py:78-81 | appends the parameter exactly when its name was not seen before, and records the name; stays `Valid`: no two parameters share a name and the seen set is exactly their names |
| TypeParameters.CollectTypeParameters.EnterAll | pytype/pytd/pytd_visitors.py:78-81 | after entering a sequence of parameters, the list has grown by exactly their first-seen parameters with new names, and `Valid` still holds |
| TypeParameters.FirstSeenNames | pytype/pytd/pytd_visitors.py:78-81 | first-seen collection has distinct names and holds exactly the names met that were not seen before |
| TypeParameters.FirstSeenIsFirst | pytype/pytd/pytd_visitors.py:78-81 | every collected parameter is the first one met under its name |
| SuperClasses.ExtractSuperClasses.constructor | pytype/pytd/pytd_visitors.py:91-93 | starts with the empty map |
| SuperClasses.ExtractSuperClasses.EnterClass | pytype/pytd/pytd_visitors.py:103-109 | the map gains, under the class's key, the keys of its parents in order, leaving out those whose key is `None`; nothing else changes |
| SuperClasses.ParentKeysSpec | pytype/pytd/pytd_visitors.py:103-109 | the parent list holds exactly the keys of the parents that have one; when all do, it lists them one for one and in order |
| SuperClasses.IdentityKeyKeepsAll | pytype/pytd/pytd_visitors.py:95-97 | with the default identity key, every parent is listed |
| RenameModule.NewRenamer | pytype/pytd/pytd_visitors.py:618-637 | an empty old module name is an error; otherwise the old prefix is the name plus a dot, and the new prefix is empty for an empty new name |
| RenameModule.MaybeNewName | pytype/pytd/pytd_visitors.py:639-656 | a name is moved to the new prefix exactly when it starts with the old prefix and the rest has no dot; every other name, the empty one included, is unchanged |
| RenameModule.RenameRoundTrip | pytype/pytd/pytd_visitors.py:639-656 | renaming from the new module back to the old one undoes a rename that changed the name |
| RenameModule.RenameWholeSegmentsOnly | pytype/pytd/pytd_visitors.py:639-656 | `foo.x` moves, while `foobar.x` and `foo.x.y` do not; an empty new name leaves the bare rest |
| RenameModule.VisitNamedType | pytype/pytd/pytd_visitors.py:658-670 | a named or class type takes its renamed name and keeps everything else |
| RenameModule.VisitConstant | pytype/pytd/pytd_visitors.py:681 | the constant takes its renamed name |
| RenameModule.VisitAlias | pytype/pytd/pytd_visitors.py:682 | the alias takes its renamed name |
| RenameModule.VisitClass | pytype/pytd/pytd_visitors.py:683 | the class takes its renamed name |
| RenameModule.VisitFunction | pytype/pytd/pytd_visitors.py:684 | the function takes its renamed name |
| RenameModule.VisitTypeParameter | pytype/pytd/pytd_visitors.py:675-679 | the scope is renamed; the name is not |
| RenameModule.VisitTypeDeclUnit | pytype/pytd/pytd_visitors.py:672-673 | the module takes the new module name |
| Imports.AddImport | pytype/pytd/pytd_visitors.py:151-159 | the module's wanted names gain the name; every other module is unchanged |
| Imports.AddImportIdempotent | pytype/pytd/pytd_visitors.py:151-159 | requiring the same import twice is the same as requiring it once |
| Imports.Bump | pytype/pytd/pytd_visitors.py:206 | one name's count changes by the given amount, a missing name counting 0; the others are unchanged |
| Imports.TypingCountsOf | pytype/pytd/pytd_visitors.py:205-212 | after a run of `_FromTyping` calls, each name's count has grown by the number of times it was referred to |
| Imports.TypingImportsOf | pytype/pytd/pytd_visitors.py:205-212 | `_FromTyping` touches only the `typing` entry; each name is imported by itself, or as a bare `import typing` when it collides |
| Imports.EffectiveNames | pytype/pytd/pytd_visitors.py:173-177 | only for `typing` are names dropped, exactly those whose count is 0; a bare import is never dropped |
| Imports.ModuleLinesSpec | pytype/pytd/pytd_visitors.py:178-184 | a module gives at most two lines; `import m` comes first exactly when it is wanted bare, and `from m import` with the sorted, comma-joined names comes last exactly when names are wanted; a module with no names gives no line |
| Imports.ImportLinesFirst | pytype/pytd/pytd_visitors.py:167-186 | modules are emitted in sorted order: the least module's lines come first, then the lines of all the others |
| Imports.BareImportLine | pytype/pytd/pytd_visitors.py:167-186 | an `import m` line is generated exactly for the modules wanted as a whole |
| Imports.ImportLinesEmpty | pytype/pytd/pytd_visitors.py:167-186 | an empty table gives no lines |
| Printer.PrintVisitor.constructor | pytype/pytd/pytd_visitors.py:121-132 | every field starts empty or false, and `multiline_args` is recorded |
| Printer.PrintVisitor.RequireImport | pytype/pytd/pytd_visitors.py:151-163 | the import table gains the name under the module |
| Printer.PrintVisitor.FromTyping | pytype/pytd/pytd_visitors.py:205-212 | the name's count grows by one; a colliding name is written `typing.`-qualified with a bare `import typing`, any other name is written and imported as itself |
| Printer.ImportStrings | pytype/pytd/pytd_visitors.py:165-186 | the loop over the sorted modules produces exactly the reference import lines |
| Printer.DropUnused | pytype/pytd/pytd_visitors.py:174-177 | the loop over the counts drops exactly the `typing` names whose count is 0 |
| Printer.ModuleImportLines | pytype/pytd/pytd_visitors.py:168-182 | one module's lines are the reference lines of its names that are still wanted |
| Printer.PrintVisitor.GenerateImportStrings | pytype/pytd/pytd_visitors.py:165-186 | the visitor's import lines are the reference lines of its current table and counts |
| Printer.PrintVisitor.EnterTypeDeclUnit | pytype/pytd/pytd_visitors.py:214-218 | records the module's name and the names of its classes, functions, constants, type parameters and aliases |
| Printer.PrintVisitor.LeaveTypeDeclUnit | pytype/pytd/pytd_visitors.py:220-222 | forgets the module name and its local names |
| Printer.PrintVisitor.VisitTypeDeclUnit | pytype/pytd/pytd_visitors.py:224-237 | a module with type parameters refers to `TypeVar` once; the text is the sections (imports, aliases, constants, sorted type variables, classes, functions) formatted as the module text |
| PrintText.FormatTypeParams | pytype/pytd/pytd_visitors.py:191-200 | the `TypeVar` lines are sorted and are a permutation of one line per type parameter |
| PrintText.ModuleText | pytype/pytd/pytd_visitors.py:231-236 | all-empty sections give the empty text; a single non-empty section is its lines joined and right-stripped |
| PrintText.ModuleTextAppend | pytype/pytd/pytd_visitors.py:231-236 | a further non-empty section follows the text so far after one blank line, as its lines joined and right-stripped |
| PrintText.ModuleTextAppendEmpty | pytype/pytd/pytd_visitors.py:231-236 | a further empty section adds nothing to the module text |
| PrintText.ModuleTextTwo | pytype/pytd/pytd_visitors.py:231-236 | two non-empty sections print as the first, a blank line, then the second |
| PrintText.SectionTexts | pytype/pytd/pytd_visitors.py:231-235 | no section text ends in whitespace, and there are no more texts than sections |
| PrintText.SectionTextsConcat | pytype/pytd/pytd_visitors.py:231-235 | sections are handled one at a time and in order: an empty section gives no text, a non-empty one gives its lines joined by newlines and right-stripped |
| PrintText.EmptySections | pytype/pytd/pytd_visitors.py:231-235 | when every section is empty there is no section text |
| Printer.PrintVisitor.VisitConstant | pytype/pytd/pytd_visitors.py:239-247 | inside a literal only `builtins.True` or `builtins.False` may occur, printed bare; elsewhere the text is `name: type` |
| Printer.ClassScopeName | pytype/pytd/pytd_visitors.py:271-274 | the pushed scope starts with the class name and equals it exactly when there is no template |
| Printer.PrintVisitor.EnterClass | pytype/pytd/pytd_visitors.py:269-277 | pushes the class name (with its template's parameter names in brackets) and adds the names of its methods and constants to the class members |
| Printer.PrintVisitor.LeaveClass | pytype/pytd/pytd_visitors.py:279-281 | clears the class members and pops the last class name |
| Printer.PrintVisitor.EnterLeaveClass | pytype/pytd/pytd_visitors.py:269-281 | entering and then leaving a class leaves the stack of class names as it was before, and no class members remembered |
| PrintText.ClassParents | pytype/pytd/pytd_visitors.py:285-291 | a sole `object` parent is dropped; other parents are kept, in order; exactly one more entry, `metaclass=X`, is appended last when there is a metaclass X, and nothing else is added |
| PrintText.ObjectParentDropped | pytype/pytd/pytd_visitors.py:285-292 | a class whose only parent is `object` has the same header as one with no parents |
| PrintText.ClassOneLine | pytype/pytd/pytd_visitors.py:302-309 | a class with no nested classes, methods, constants or slots is its decorators and a one-line header ending in ` ...` |
| PrintText.ClassBodyIndented | pytype/pytd/pytd_visitors.py:302-314 | with a body, the decorators come first, then the header, then the class body lines, which are all indented by four spaces |
| PrintText.ClassBodySpec | pytype/pytd/pytd_visitors.py:293-308 | every body line is indented, and the body has one line for the slots, one per nested-class line, one per constant and one per method line |
| PrintText.ClassBodyLayout | pytype/pytd/pytd_visitors.py:293-314 | the slots line comes first, then every nested-class line, then the constants, then every method line, each indented, at the positions that order gives |
| PrintText.ClassText | pytype/pytd/pytd_visitors.py:313-315 | the class text ends in a newline |
| PrintText.FunctionDecorators | pytype/pytd/pytd_visitors.py:320-334 | `@staticmethod` (not for `__new__`), `@classmethod` (not for `__init_subclass__`), `@property`, `@abstractmethod`, `@coroutine` and `@overload` (more than one signature) appear exactly when their conditions hold |
| PrintText.FunctionDecoratorsOrder | pytype/pytd/pytd_visitors.py:320-334 | the decorator lines come in the source's order, the kind decorator, `@abstractmethod`, `@coroutine`, then `@overload`, with none repeated |
| PrintText.FunctionText | pytype/pytd/pytd_visitors.py:317-337 | no signatures give the empty text; each signature is printed as the decorator lines, `def`, the name and the signature, and with several signatures these `def` texts follow one another on separate lines, in order, each carrying `@overload` |
| Printer.PrintVisitor.FormatContainerContents | pytype/pytd/pytd_visitors.py:339-355 | `*args`/`**kwargs` print with the container's last type parameter (or `Any`) and never as optional; the container's `typing` name and an `Any` element lose one reference |
| Printer.PrintVisitor.VisitSignature | pytype/pytd/pytd_visitors.py:357-411 | the text is the reference signature text: parameters arranged around `*args` and `**kwargs`, `NoReturn` for `nothing`, and the body; `nothing` adds one `NoReturn` reference |
| Printer.PrintVisitor.ReturnAnnotation | pytype/pytd/pytd_visitors.py:359-363 | `nothing` is written `NoReturn`, which adds one `typing` reference and its import; any other return type is kept and neither table changes |
| Printer.PrintVisitor.StarArguments | pytype/pytd/pytd_visitors.py:368-373 | `*args` and `**kwargs` are the container texts of their parameters (`*args` empty when absent), and the counts take back the container and `Any` references of both |
| Printer.SignatureSource | pytype/pytd/pytd_visitors.py:357-411 | the signature text ends with the return annotation and the body |
| Printer.SpliceStar | pytype/pytd/pytd_visitors.py:366-383 | the splicing loop gives the reference arrangement without `**kwargs` |
| Printer.ArrangedStarStar | pytype/pytd/pytd_visitors.py:381-383 | `**kwargs` goes after everything else |
| PrintText.ArrangedOrder | pytype/pytd/pytd_visitors.py:366-383 | the order is positionals, then the star entry, then keyword-only parameters, then `**kwargs` |
| PrintText.BareStar | pytype/pytd/pytd_visitors.py:373-377 | with keyword-only parameters and no `*args`, a bare `*` goes right before the first keyword-only parameter |
| PrintText.FirstKwOnly | pytype/pytd/pytd_visitors.py:375-379 | the parameters before the first keyword-only one are not keyword-only |
| Printer.Mutations | pytype/pytd/pytd_visitors.py:391-392 | there are no mutation lines exactly when no parameter has a mutated type |
| Printer.CollectMutations | pytype/pytd/pytd_visitors.py:391-392 | the loop collects the reference mutations |
| PrintText.SignatureBody | pytype/pytd/pytd_visitors.py:391-399 | the body is ` ...` exactly when there are no mutations and no exceptions; otherwise it starts with the first mutation line, or with the first `raise` line |
| Printer.SignatureBodyElided | pytype/pytd/pytd_visitors.py:386-399 | the body is ` ...` exactly when no parameter is mutated and no exception is raised |
| PrintText.SignatureText | pytype/pytd/pytd_visitors.py:401-411 | the text starts with `(` and ends with ` -> `, the return type, `:` and the body |
| Printer.PrintVisitor.VisitParameter | pytype/pytd/pytd_visitors.py:421-441 | the text is the reference parameter text; eliding `Any` takes one reference from `Any`, eliding `cls: Type[C]` takes one from `Type`, nothing else changes a count |
| PrintText.ParameterText | pytype/pytd/pytd_visitors.py:421-441 | the text starts with the name; the annotation is kept exactly when the type is not elided, and is then `name: type` plus ` = ...` if optional; an elided type leaves the name with the optional suffix |
| PrintText.ParameterExamples | pytype/pytd/pytd_visitors.py:421-441 | `x: Any = ...` prints as `x = ...`; `self` in `Foo[T]` and `cls: Type[Foo]` in `Foo` print bare; `x: int` is kept |
| Printer.PrintVisitor.VisitNamedType | pytype/pytd/pytd_visitors.py:447-472 | the text, the `typing` references and the import follow the reference rules of the name |
| Printer.NamedTypeBuiltins | pytype/pytd/pytd_visitors.py:450-451 | a `builtins` name that collides with nothing prints unqualified and needs nothing |
| Printer.NamedTypeTyping | pytype/pytd/pytd_visitors.py:452-453 | a `typing` name is exactly one `_FromTyping` reference |
| Printer.NamedTypeOther | pytype/pytd/pytd_visitors.py:454-467 | other qualified names keep their text; their module is imported exactly when it is not the printed module, a local name or the enclosing class scope |
| Printer.NamedTypeUnqualified | pytype/pytd/pytd_visitors.py:447-472 | an unqualified name prints as itself (`NoneType` as `None`) and needs nothing |
| Printer.PrintVisitor.VisitAnythingType | pytype/pytd/pytd_visitors.py:485-487 | `Any` is one `_FromTyping` reference |
| Printer.PrintVisitor.MaybeCapitalize | pytype/pytd/pytd_visitors.py:502-508 | a non-empty capitalized name is a `_FromTyping` reference; otherwise the name is kept and nothing changes |
| Printer.GenericParameters | pytype/pytd/pytd_visitors.py:510-522 | the empty tuple prints `()`; a homogeneous tuple gets a trailing `...`; for a callable only the first parameter changes, to `...`; otherwise the parameters are kept |
| Printer.GenericExamples | pytype/pytd/pytd_visitors.py:510-522 | `Tuple[()]` for the empty tuple; a heterogeneous tuple keeps its parameters; `tuple[int, ...]` for a homogeneous tuple; `Callable[..., int]` for `Callable[Any, int]`; a plain generic keeps its parameters |
| Printer.PrintVisitor.VisitGenericType | pytype/pytd/pytd_visitors.py:510-522 | the text is the capitalized base and the reference parameters; the callable rewrite takes one reference from `Any` |
| Printer.PrintVisitor.VisitCallableType | pytype/pytd/pytd_visitors.py:524-526 | the text is `Base[[args], ret]` |
| Printer.SplitLiteralList | pytype/pytd/pytd_visitors.py:564-572 | the loop gives the other members in order, followed by one merged `Literal[...]` when there are literals |
| Printer.PrintVisitor.BuildUnion | pytype/pytd/pytd_visitors.py:553-581 | the text is the reference union text; the `typing` references are the reference ones (`Optional` per `None` level, `Union` at most once) |
| Printer.PrintVisitor.VisitUnionType | pytype/pytd/pytd_visitors.py:531-534 | repeated members are dropped first, then the union is built |
| Text.Dedupe | pytype/pytd/pytd_visitors.py:543 | the result has the same members as the input, no repeats, and is no longer than the input |
| Text.DedupeOrder | pytype/pytd/pytd_visitors.py:543 | the kept members are in the order of their first occurrences in the input |
| Printer.PrintVisitor.VisitIntersectionType | pytype/pytd/pytd_visitors.py:536-539 | repeated members are dropped, keeping first occurrences, and the rest are joined by ` and `; a member repeated alone prints bare |
| PrintText.LiteralRoundTrip | pytype/pytd/pytd_visitors.py:568-570 | a literal member is `Literal[` + its content + `]` |
| PrintText.LiteralOfContent | pytype/pytd/pytd_visitors.py:568-570 | `Literal[c]` is a literal member whose content is `c`, for content without a newline |
| PrintText.NonLiterals | pytype/pytd/pytd_visitors.py:564-570 | the members that are not literals, with nothing else and no more of them |
| PrintText.NonLiteralsConcat | pytype/pytd/pytd_visitors.py:564-572 | the non-literal members of a concatenation are those of each part, concatenated, so their order and repeats are kept |
| PrintText.LiteralContentsConcat | pytype/pytd/pytd_visitors.py:564-572 | the literal contents of a concatenation are those of each part, concatenated, so their order and repeats are kept |
| PrintText.LiteralSplitOne | pytype/pytd/pytd_visitors.py:567-572 | a literal member contributes its content and no other member; any other member contributes itself and no content |
| PrintText.UnionOfOne | pytype/pytd/pytd_visitors.py:573-576 | a single member is returned as it is, with no `typing` reference |
| PrintText.NoLiterals | pytype/pytd/pytd_visitors.py:564-572 | without literals the member list is unchanged |
| PrintText.UnionOfLiterals | pytype/pytd/pytd_visitors.py:564-574 | a union of literals only is one `Literal[...]` with all the contents in order |
| PrintText.UnionPlain | pytype/pytd/pytd_visitors.py:579-581 | several members, with no literal and no `None`, print as `Union[` + the members joined by `, ` + `]` and refer to `Union` only |
| PrintText.UnionOptional | pytype/pytd/pytd_visitors.py:575-578 | `None` with one other member prints as `Optional[` + the other member + `]`, whichever comes first |
| PrintText.WithoutNone | pytype/pytd/pytd_visitors.py:577-579 | the members other than `None`, and fewer when `None` was there |
| PrintText.IntersectionText | pytype/pytd/pytd_visitors.py:583-597 | a single member is printed bare; in general the members are joined by ` and ` |
| Printer.PrintVisitor.VisitLiteral | pytype/pytd/pytd_visitors.py:607-613 | a module-level `Literal` is used as it is and changes nothing; otherwise `Literal` is one `_FromTyping` reference |
| Printer.PrintVisitor.EnterParameter | pytype/pytd/pytd_visitors.py:413-415 | parameters do not nest; the flag is set |
| Printer.PrintVisitor.LeaveParameter | pytype/pytd/pytd_visitors.py:417-419 | the flag was set and is cleared |
| Printer.PrintVisitor.EnterLiteral | pytype/pytd/pytd_visitors.py:599-601 | literals do not nest; the flag is set |
| Printer.PrintVisitor.LeaveLiteral | pytype/pytd/pytd_visitors.py:603-605 | the flag was set and is cleared |
| ClassDef.GetBases | pytype/pyi/classdef.py:14-38 | the loop's result is the reference scan of the bases |
| ClassDef.BasesFromSpec | pytype/pyi/classdef.py:14-38 | the bases are accepted exactly when every one is a type and bare `typing.NamedTuple` appears at most once; the result is each base's expansion, in order; when every base is a type the error is the duplicate bare `NamedTuple`, and when `NamedTuple` is not repeated the error is an unexpected class base |
| ClassDef.BasesExamples | pytype/pyi/classdef.py:21-32 | two bare `NamedTuple` bases fail; one next to another base passes; `Protocol[T]` becomes `Generic[T]` then `typing.Protocol`; a bare `Protocol` stays one entry |
| ClassDef.GetKeywords | pytype/pyi/classdef.py:41-57 | accepted exactly when every keyword is `metaclass` or `total`; the error names the first other keyword; on success each keyword is paired with its value (a `Pyval` in its literal form), same length and order |
| ClassDef.WithoutTypeCheckOnly | pytype/pyi/classdef.py:66 | every `type_check_only` is removed and every other decorator is kept |
| ClassDef.WithoutTypeCheckOnlyConcat | pytype/pyi/classdef.py:66 | the filter works decorator by decorator, so the kept decorators keep their order and their number of occurrences |
| ClassDef.WithoutTypeCheckOnlyOne | pytype/pyi/classdef.py:66 | a single decorator is dropped exactly when it is `type_check_only` |
| ClassDef.GetDecorators | pytype/pyi/classdef.py:60-78 | fails exactly when a kept decorator is `property`, `classmethod`, `staticmethod` or `overload`, naming those; otherwise there is one alias per kept decorator, in order, whose target is a truthy type-map entry or else the named type |

## Left out

- The traversal engine (`base_visitor`, `Node.Replace`, `.Visit`) is not part of this model. Each hook is a separate function or method, and what the traversal would hand it (printed children, the original node) is a parameter.
- A nested `PrintVisitor()` is modelled by the `render` parameter. The model does not capture that it is a fresh printer whose imports are thrown away.
- `VisitAlias`, `EnterAlias` and the `in_alias` flag are not modelled. Undoing imports by assigning a saved dict copy depends on dict aliasing.
- `VisitModule`, `VisitLateType`, `VisitStrictType`, `VisitNothingType`, `VisitTemplateItem` and `VisitTypeParameter` of the printer are not modelled. Each returns a field or a fixed text.
- `ClassTypeToNamedType` is not modelled. It is a one-line node conversion outside the listed passes.
- The merge of compatible builtins in `_FormSetTypeList` is left out, because `pep484.COMPAT_ITEMS` is not part of this model.
- `pep484.PEP484_MaybeCapitalize` is a parameter `capitalize`, because the table is not part of this model.
- `type_match`, `Pyval.to_pytd_literal` and the "truthy" test on type-map entries are parameters or tagged choices, because their code is not part of this model.
- `logging.warning` for a parameter without a type is dropped; only the returned text is kept.
- CanonicalOrdering.Sorted: Python orders whole nodes by tuple comparison, which is defined in `node.py`, not part of this model. The model sorts stably (`Sorting.SortByStable`) by a per-kind string key, so nodes with equal keys keep their input order.
- PrintText.FormatTypeParams: the model tests whether a bound exists; the source's `if t.bound` is a truthiness test (assumed true for every node).
- `_BuildUnion`'s `re.fullmatch(r"Literal\[(?P<content>.*)\]")` is modelled as: at least 9 characters, a `Literal[` prefix, a `]` suffix and no newline in between.
- PrintText.SectionTexts: `str.rstrip` is modelled for ASCII whitespace only.
- Text.SplitLines: `str.splitlines`, used for the nested classes and methods of a class body, is modelled for `\n` line breaks only.
- ClassDef.GetDecorators: the order of the names in the "unsupported class decorators" message comes from a Python set and is not modelled; the error carries the set.
- ClassDef.GetBases: the message text of the "unexpected class base" error is a rendering of the base; the model carries the base's text as given.
- Printer.PrintVisitor.VisitParameter: a `self` parameter without a type inside a class makes the source fail on `None.split`; that case is excluded by a precondition rather than modelled as an error.
- Printer.PrintVisitor.VisitSignature: the source's asserts (keyword-only parameters come last; `*args`/`**kwargs` containers are `tuple`/`dict` with parameters) are preconditions.
- Printer.PrintVisitor.LeaveClass: clearing the class members on leaving a nested class also forgets the outer class's members; this is modelled as the source does it.
- RenameModule.NewRenamer: the source asserts that neither module name ends in a dot; the model makes this a precondition instead of an assertion failure.
- Printer.PrintVisitor.LeaveClass: popping an empty class stack raises `IndexError` in the source; the model requires a non-empty stack, which `EnterClass` provides.
- SuperClasses.ExtractSuperClasses.VisitTypeDeclUnit: it returns the collected map as it is, so it has no contract of its own; `EnterClass` states what the map holds.
- Printer.PrintVisitor.VisitConstant, Printer.PrintVisitor.EnterParameter, Printer.PrintVisitor.LeaveParameter, Printer.PrintVisitor.EnterLiteral, Printer.PrintVisitor.LeaveLiteral: the source's asserts (a constant inside a literal is `builtins.True` or `builtins.False`; parameters and literals do not nest; a leave follows its enter) are preconditions instead of assertion failures.
