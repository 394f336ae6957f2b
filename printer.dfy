/** `PrintVisitor`: turns a pytd tree back into stub text. The hooks receive the already
    printed children (and, where the source reads `self.old_node`, the original node) and
    keep the printer's state: the stack of enclosing class names, the import table, the
    `typing` reference counts and the names a `typing` import would collide with. */
module Printer {
  import opened Wrappers
  import opened Text
  import opened Pytd
  import opened Imports
  import opened PrintText

  /** PEP 484 allows `None` for `NoneType`. */
  function NoneAbbrev(n: string): string
  {
    if n == "NoneType" then "None" else n
  }

  /** The scope a qualified class prefix is compared with: the innermost class name when
      it is already qualified, else all enclosing class names joined by dots. */
  function ClassPrefix(classNames: seq<string>): string
  {
    if classNames != [] && '.' in classNames[|classNames| - 1] then classNames[|classNames| - 1]
    else Join(classNames, ".")
  }

  /** `VisitNamedType`'s text: `builtins` names are shortened unless they collide, `typing`
      names go through `_FromTyping`, all others keep their full name. */
  function NamedTypeText(name: string, taken: set<string>): string
  {
    var (prefix, suffix) := RPartition(name, '.');
    NoneAbbrev(
      if prefix == "builtins" && suffix !in taken then suffix
      else if prefix == "typing" then TypingName(suffix, taken)
      else name)
  }

  /** The `typing` names `VisitNamedType` refers to. */
  function NamedTypeRefs(name: string, taken: set<string>): seq<string>
  {
    var (prefix, suffix) := RPartition(name, '.');
    if prefix == "builtins" && suffix !in taken then []
    else if prefix == "typing" then [suffix]
    else []
  }

  /** The module `VisitNamedType` requires a bare import of: a qualifying prefix that is
      not the printed module, not a local name and not the enclosing class scope. */
  function NamedTypeImport(name: string, taken: set<string>, unitName: Option<string>,
                           localNames: set<string>, classNames: seq<string>): Option<string>
  {
    var (prefix, suffix) := RPartition(name, '.');
    if prefix == "builtins" && suffix !in taken then None
    else if prefix == "typing" then None
    else if prefix != "" && Some(prefix) != unitName && prefix !in localNames && prefix != ClassPrefix(classNames)
    then Some(prefix)
    else None
  }

  /** A `builtins` name that collides with nothing prints unqualified and needs no
      import. */
  lemma {:induction false} NamedTypeBuiltins(suffix: string, taken: set<string>, unitName: Option<string>,
                                             localNames: set<string>, classNames: seq<string>)
    requires '.' !in suffix && suffix !in taken
    ensures NamedTypeText("builtins." + suffix, taken) == NoneAbbrev(suffix)
    ensures NamedTypeRefs("builtins." + suffix, taken) == []
    ensures NamedTypeImport("builtins." + suffix, taken, unitName, localNames, classNames) == None
  {
    assert "builtins." + suffix == "builtins" + ['.'] + suffix;
    RPartitionOf("builtins." + suffix, '.', "builtins", suffix);
  }

  /** A `typing` name is one `_FromTyping` reference. */
  lemma {:induction false} NamedTypeTyping(suffix: string, taken: set<string>, unitName: Option<string>,
                                           localNames: set<string>, classNames: seq<string>)
    requires '.' !in suffix
    ensures NamedTypeText("typing." + suffix, taken) == NoneAbbrev(TypingName(suffix, taken))
    ensures NamedTypeRefs("typing." + suffix, taken) == [suffix]
    ensures NamedTypeImport("typing." + suffix, taken, unitName, localNames, classNames) == None
  {
    assert "typing." + suffix == "typing" + ['.'] + suffix;
    RPartitionOf("typing." + suffix, '.', "typing", suffix);
    assert "typing" != "builtins";
  }

  /** Any other qualified name keeps its text; its module is imported exactly when it is
      not the printed module, a local name or the enclosing class scope. */
  lemma {:induction false} NamedTypeOther(prefix: string, suffix: string, taken: set<string>, unitName: Option<string>,
                                          localNames: set<string>, classNames: seq<string>)
    requires '.' !in suffix && prefix != "builtins" && prefix != "typing"
    ensures NamedTypeText(prefix + "." + suffix, taken) == NoneAbbrev(prefix + "." + suffix)
    ensures NamedTypeRefs(prefix + "." + suffix, taken) == []
    ensures NamedTypeImport(prefix + "." + suffix, taken, unitName, localNames, classNames) == Some(prefix) <==>
              prefix != "" && Some(prefix) != unitName && prefix !in localNames && prefix != ClassPrefix(classNames)
    ensures NamedTypeImport(prefix + "." + suffix, taken, unitName, localNames, classNames).None? ==>
              prefix == "" || Some(prefix) == unitName || prefix in localNames || prefix == ClassPrefix(classNames)
  {
    assert prefix + "." + suffix == prefix + ['.'] + suffix;
    RPartitionOf(prefix + "." + suffix, '.', prefix, suffix);
  }

  /** An unqualified name prints as itself and needs nothing. */
  lemma NamedTypeUnqualified(name: string, taken: set<string>, unitName: Option<string>,
                             localNames: set<string>, classNames: seq<string>)
    requires '.' !in name
    ensures NamedTypeText(name, taken) == NoneAbbrev(name)
    ensures NamedTypeRefs(name, taken) == []
    ensures NamedTypeImport(name, taken, unitName, localNames, classNames) == None
  {
  }

  /** The `typing` names `MaybeCapitalize` refers to: the capitalized form, when there is
      a non-empty one. */
  function CapitalizeRefs(base: string, capitalize: string -> Option<string>): seq<string>
  {
    var c := capitalize(base);
    if c.Some? && c.value != "" then [c.value] else []
  }

  /** `MaybeCapitalize`'s text. */
  function CapitalizedName(base: string, capitalize: string -> Option<string>, taken: set<string>): string
  {
    var c := capitalize(base);
    if c.Some? && c.value != "" then TypingName(c.value, taken) else base
  }

  /** `Callable[Any, X]` is printed as `Callable[..., X]`. */
  predicate CallableEllipsis(kind: GenericKind, originalName: Option<string>, baseText: string, params: seq<string>)
  {
    !(kind == TupleGeneric && params == []) && !(kind != TupleGeneric && baseText == "tuple")
    && originalName == Some("typing.Callable")
  }

  /** The parameter list `VisitGenericType` prints: `()` for the empty tuple, a trailing
      `...` for a homogeneous tuple, a leading `...` in place of a callable's argument type. */
  function GenericParameters(kind: GenericKind, originalName: Option<string>, baseText: string, params: seq<string>): (r: seq<string>)
    ensures |params| <= |r| <= |params| + 1
    ensures forall i :: 1 <= i < |params| ==> r[i] == params[i]
    ensures !CallableEllipsis(kind, originalName, baseText, params) && params != [] ==> r[0] == params[0]
    ensures CallableEllipsis(kind, originalName, baseText, params) ==> |r| > 0 && r[0] == "..."
    ensures kind == TupleGeneric && params == [] ==> r == ["()"]
    ensures kind != TupleGeneric && baseText == "tuple" ==> r == params + ["..."]
  {
    if kind == TupleGeneric && params == [] then ["()"]
    else if kind != TupleGeneric && baseText == "tuple" then params + ["..."]
    else if originalName == Some("typing.Callable") then ["..."] + (if params == [] then [] else params[1..])
    else params
  }

  lemma GenericExamples()
    ensures GenericParameters(TupleGeneric, Some("builtins.tuple"), "tuple", []) == ["()"]
    ensures GenericParameters(TupleGeneric, Some("builtins.tuple"), "tuple", ["int", "str"]) == ["int", "str"]
    ensures GenericParameters(PlainGeneric, Some("builtins.tuple"), "tuple", ["int"]) == ["int", "..."]
    ensures GenericParameters(PlainGeneric, Some("typing.Callable"), "Callable", ["Any", "int"]) == ["...", "int"]
    ensures GenericParameters(PlainGeneric, Some("builtins.list"), "list", ["int"]) == ["int"]
  {
    assert "Callable" != "tuple" && "list" != "tuple";
    assert ["Any", "int"][1..] == ["int"];
  }

  /** `str.capitalize` of the two container names `*args`/`**kwargs` may have. */
  function ContainerCounter(container: string): string
  {
    if container == "tuple" then "Tuple" else "Dict"
  }

  /** What `_FormatContainerContents` demands of a `*args`/`**kwargs` parameter. */
  predicate ContainerOk(p: Parameter)
  {
    p.typ.GenericType? ==>
      && TypeName(p.typ).Some?
      && RPartition(TypeName(p.typ).value, '.').1 in {"tuple", "dict"}
      && p.typ.parameters != []
  }

  /** `_FormatContainerContents`'s text: the parameter with the container's last type
      parameter (or `Any`) as its type, printed by a new printer and never optional. */
  function ContainerText(p: Parameter, render: PType -> string): string
    requires ContainerOk(p)
  {
    if p.typ.GenericType? then ParameterText(p.name, Some(render(p.typ.parameters[|p.typ.parameters| - 1])), false, [])
    else ParameterText(p.name, Some(render(AnythingType)), false, [])
  }

  /** `_FormatContainerContents`'s count changes: the container's `typing` name, and `Any`
      when the element type is `Any`, are taken back. */
  function ContainerCounts(counts: Counts, p: Parameter): Counts
    requires ContainerOk(p)
  {
    if p.typ.GenericType? then
      var c := Bump(counts, ContainerCounter(RPartition(TypeName(p.typ).value, '.').1), -1);
      if p.typ.parameters[|p.typ.parameters| - 1].AnythingType? then Bump(c, "Any", -1) else c
    else counts
  }

  function KwOnlyFlags(ps: seq<Parameter>): (r: seq<bool>)
    ensures |r| == |ps| && forall i :: 0 <= i < |ps| ==> r[i] == ps[i].kwonly
  {
    seq(|ps|, i requires 0 <= i < |ps| => ps[i].kwonly)
  }

  /** The (name, new type) of each parameter with a mutated type, in order. */
  function Mutations(ps: seq<Parameter>, render: PType -> string): (r: seq<(string, string)>)
    ensures r == [] <==> forall i :: 0 <= i < |ps| ==> ps[i].mutatedType.None?
    ensures |r| <= |ps|
  {
    if ps == [] then []
    else
      var init := Mutations(ps[..|ps| - 1], render);
      var last := ps[|ps| - 1];
      assert forall i :: 0 <= i < |ps| - 1 ==> ps[..|ps| - 1][i] == ps[i];
      if last.mutatedType.Some? then init + [(last.name, render(last.mutatedType.value))] else init
  }

  /** The body is ` ...` exactly when no parameter is mutated and nothing is raised. */
  lemma SignatureBodyElided(ps: seq<Parameter>, exceptions: seq<string>, render: PType -> string)
    ensures SignatureBody(Mutations(ps, render), exceptions) == " ..." <==>
              (forall i :: 0 <= i < |ps| ==> ps[i].mutatedType.None?) && exceptions == []
  {
  }

  /** The text `EnterClass` pushes: the name, with the template's parameter names. */
  function ClassScopeName(node: Class): (r: string)
    ensures StartsWith(r, node.name)
    ensures node.template == [] <==> r == node.name
  {
    node.name + (if node.template == [] then "" else "[" + Join(TemplateNames(node), ", ") + "]")
  }

  function TemplateNames(node: Class): (r: seq<string>)
    ensures |r| == |node.template| && forall i :: 0 <= i < |r| ==> r[i] == node.template[i].typeParam.name
  {
    seq(|node.template|, i requires 0 <= i < |node.template| => node.template[i].typeParam.name)
  }

  function MemberNames(node: Class): (r: seq<string>)
    ensures |r| == |node.methods| + |node.constants|
  {
    seq(|node.methods|, i requires 0 <= i < |node.methods| => node.methods[i].name)
    + seq(|node.constants|, i requires 0 <= i < |node.constants| => node.constants[i].name)
  }

  /** The names defined at module level. */
  function DefinitionNames(unit: TypeDeclUnit): set<string>
  {
    (set c | c in unit.classes :: c.name) + (set f | f in unit.functions :: f.name)
    + (set c | c in unit.constants :: c.name) + (set t | t in unit.typeParams :: t.name)
    + (set a | a in unit.aliases :: a.name)
  }

  /** The star-spliced parameter list of `VisitSignature`: the loop that puts `*args` (or a
      bare `*`) before the first keyword-only parameter. */
  method SpliceStar(params: seq<string>, kwonly: seq<bool>, starargs: string) returns (r: seq<string>)
    requires |kwonly| == |params|
    ensures r + [] == Arranged(params, kwonly, starargs, None)
  {
    var i := 0;
    while i < |params|
      invariant 0 <= i <= |params|
      invariant forall j :: 0 <= j < i ==> !kwonly[j]
    {
      if kwonly[i] {
        assert FirstKwOnly(kwonly) == i by { FirstKwOnlyAt(kwonly, i); }
        r := params[0..i] + ["*" + starargs] + params[i..];
        return;
      }
      i := i + 1;
    }
    FirstKwOnlyNone(kwonly);
    r := params;
    if starargs != "" {
      r := r + ["*" + starargs];
    }
  }

  lemma {:induction false} FirstKwOnlyAt(kwonly: seq<bool>, i: nat)
    requires i < |kwonly| && kwonly[i] && forall j :: 0 <= j < i ==> !kwonly[j]
    ensures FirstKwOnly(kwonly) == i
    decreases i
  {
    if i > 0 {
      FirstKwOnlyAt(kwonly[1..], i - 1);
    }
  }

  lemma {:induction false} FirstKwOnlyNone(kwonly: seq<bool>)
    requires forall j :: 0 <= j < |kwonly| ==> !kwonly[j]
    ensures FirstKwOnly(kwonly) == |kwonly|
    decreases |kwonly|
  {
    if kwonly != [] {
      FirstKwOnlyNone(kwonly[1..]);
    }
  }

  /** The loop of `_GenerateImportStrings` that drops the `typing` names whose count is
      exactly 0. */
  method DropUnused(names: set<Option<string>>, counts: Counts) returns (r: set<Option<string>>)
    ensures r == EffectiveNames("typing", names, counts)
  {
    r := names;
    var pending := counts.Keys;
    while pending != {}
      invariant pending <= counts.Keys
      invariant r == set x | x in names && !(x.Some? && x.value in counts.Keys - pending && counts[x.value] == 0)
      decreases pending
    {
      var n :| n in pending;
      if counts[n] == 0 {
        r := r - {Some(n)};
      }
      pending := pending - {n};
    }
  }

  /** The lines `_GenerateImportStrings` emits for one module. */
  method ModuleImportLines(mod: string, required: set<Option<string>>, counts: Counts) returns (lines: seq<string>)
    ensures lines == ModuleLines(mod, EffectiveNames(mod, required, counts))
  {
    var names := required;
    if mod == "typing" {
      names := DropUnused(names, counts);
    }
    lines := [];
    var rest := names;
    if None in rest {
      lines := lines + ["import " + mod];
      rest := rest - {None};
    }
    assert NamedOnly(rest) == NamedOnly(names);
    if rest != {} {
      var x :| x in rest;
      assert x.Some? && x.value in NamedOnly(names);
      var sortedNames := SortedSet(NamedOnly(rest));
      lines := lines + ["from " + mod + " import " + Join(sortedNames, ", ")];
    } else {
      assert NamedOnly(names) == {};
    }
  }

  /** The loop of `_BuildUnion` that collects the literals into one `Literal[...]`,
      placed after the other members. */
  method SplitLiteralList(ts: seq<string>) returns (r: seq<string>)
    ensures r == SplitLiterals(ts)
  {
    var literals: seq<string> := [];
    r := [];
    var i := 0;
    while i < |ts|
      invariant 0 <= i <= |ts|
      invariant literals == LiteralContents(ts[..i]) && r == NonLiterals(ts[..i])
    {
      assert ts[..i + 1][..i] == ts[..i];
      var t := ts[i];
      if IsLiteralText(t) {
        literals := literals + [t[8..|t| - 1]];
      } else {
        r := r + [t];
      }
      i := i + 1;
    }
    assert ts[..i] == ts;
    if literals != [] {
      r := r + ["Literal[" + Join(literals, ", ") + "]"];
    }
  }

  /** The loop of `VisitSignature` that collects the mutated parameters. */
  method CollectMutations(ps: seq<Parameter>, render: PType -> string) returns (r: seq<(string, string)>)
    ensures r == Mutations(ps, render)
  {
    r := [];
    var i := 0;
    while i < |ps|
      invariant 0 <= i <= |ps|
      invariant r == Mutations(ps[..i], render)
    {
      assert ps[..i + 1][..i] == ps[..i];
      var p := ps[i];
      if p.mutatedType.Some? {
        r := r + [(p.name, render(p.mutatedType.value))];
      }
      i := i + 1;
    }
    assert ps[..i] == ps;
  }

  /** The import lines of an import table and `typing` counts, module by module in
      sorted order. */
  method ImportStrings(imports: ImportTable, counts: Counts) returns (ret: seq<string>)
    ensures ret == ImportLines(imports, counts)
  {
    ret := [];
    var modules := SortedSet(imports.Keys);
    ImportLinesSorted(imports, counts);
    ghost var total := ImportLines(imports, counts);
    var rest := modules;
    while rest != []
      invariant forall j :: 0 <= j < |rest| ==> rest[j] in imports
      invariant ret + LinesFor(rest, imports, counts) == total
      decreases |rest|
    {
      var lines := ModuleImportLines(rest[0], imports[rest[0]], counts);
      ConcatAssoc(ret, lines, LinesFor(rest[1..], imports, counts));
      ret := ret + lines;
      rest := rest[1..];
    }
    assert ret + [] == ret;
  }

  lemma ConcatAssoc<T>(a: seq<T>, b: seq<T>, c: seq<T>)
    ensures (a + b) + c == a + (b + c)
  {
  }

  /** The last part of `VisitSignature`: the body of mutations and raises, and the text. */
  method FinishSignature(arranged: seq<string>, ret: string, ps: seq<Parameter>, exceptions: seq<string>,
                         render: PType -> string, multiline: bool) returns (s: string)
    ensures s == SignatureText(arranged, ret, SignatureBody(Mutations(ps, render), exceptions), multiline)
  {
    var mutations := CollectMutations(ps, render);
    s := SignatureText(arranged, ret, SignatureBody(mutations, exceptions), multiline);
  }

  /** `**kwargs` is appended to the star-spliced list. */
  lemma ArrangedStarStar(params: seq<string>, kwonly: seq<bool>, starargs: string, starstarargs: Option<string>)
    requires |kwonly| == |params|
    ensures Arranged(params, kwonly, starargs, starstarargs)
            == Arranged(params, kwonly, starargs, None) + (if starstarargs.Some? then ["**" + starstarargs.value] else [])
  {
    var head := Arranged(params, kwonly, starargs, None);
    assert head + [] == head;
  }

  /** What `VisitSignature` asserts: keyword-only parameters come last, and `*args` and
      `**kwargs` are containers `_FormatContainerContents` understands. */
  predicate SignatureOk(original: Signature, params: seq<string>)
  {
    && |params| == |original.params|
    && KwOnlyLast(KwOnlyFlags(original.params))
    && (original.starargs.Some? ==> ContainerOk(original.starargs.value))
    && (original.starstarargs.Some? ==> ContainerOk(original.starstarargs.value))
  }

  /** Reference text of a signature: parameters arranged around `*args`/`**kwargs`, the
      return annotation (`NoReturn` for `nothing`) and the body of mutations and raises. */
  function SignatureSource(original: Signature, params: seq<string>, returnType: string,
                           exceptions: seq<string>, render: PType -> string, multiline: bool): (r: string)
    requires SignatureOk(original, params)
    ensures EndsWith(r, " -> " + (if returnType == "nothing" then "NoReturn" else returnType) + ":"
                        + SignatureBody(Mutations(original.params, render), exceptions))
  {
    var starargs := if original.starargs.Some? then ContainerText(original.starargs.value, render) else "";
    var starstarargs := if original.starstarargs.Some? then Some(ContainerText(original.starstarargs.value, render)) else None;
    SignatureText(Arranged(params, KwOnlyFlags(original.params), starargs, starstarargs),
                  if returnType == "nothing" then "NoReturn" else returnType,
                  SignatureBody(Mutations(original.params, render), exceptions), multiline)
  }

  /** The count changes of `VisitSignature`: one `NoReturn` reference for `nothing`, then
      those of formatting `*args` and `**kwargs`. */
  function SignatureCounts(counts: Counts, original: Signature, returnType: string): Counts
    requires original.starargs.Some? ==> ContainerOk(original.starargs.value)
    requires original.starstarargs.Some? ==> ContainerOk(original.starstarargs.value)
  {
    StarCounts(if returnType == "nothing" then Bump(counts, "NoReturn", 1) else counts, original)
  }

  /** The count changes of formatting `*args` and then `**kwargs`. */
  function StarCounts(counts: Counts, original: Signature): Counts
    requires original.starargs.Some? ==> ContainerOk(original.starargs.value)
    requires original.starstarargs.Some? ==> ContainerOk(original.starstarargs.value)
  {
    var c := if original.starargs.Some? then ContainerCounts(counts, original.starargs.value) else counts;
    if original.starstarargs.Some? then ContainerCounts(c, original.starstarargs.value) else c
  }

  class PrintVisitor {
    var classNames: seq<string>
    var imports: ImportTable
    var typingCounts: Counts
    var localNames: set<string>
    var classMembers: set<string>
    var unitName: Option<string>
    var inParameter: bool
    var inLiteral: bool
    const multilineArgs: bool

    constructor(multilineArgs: bool)
      ensures this.multilineArgs == multilineArgs
      ensures classNames == [] && imports == map[] && typingCounts == map[]
      ensures localNames == {} && classMembers == {} && unitName == None
      ensures !inParameter && !inLiteral
    {
      this.multilineArgs := multilineArgs;
      classNames := [];
      imports := map[];
      typingCounts := map[];
      localNames := {};
      classMembers := {};
      unitName := None;
      inParameter := false;
      inLiteral := false;
    }

    /** The names a `typing` name collides with: the members of the current class and
        the module's own definitions. */
    function Taken(): set<string>
      reads this`classMembers, this`localNames
    {
      classMembers + localNames
    }

    /** `_NameCollision`. */
    predicate NameCollision(name: string)
      reads this`classMembers, this`localNames
    {
      name in Taken()
    }

    /** `_RequireImport`. */
    method RequireImport(mod: string, name: Option<string>)
      modifies this`imports
      ensures imports == AddImport(old(imports), mod, name)
    {
      imports := AddImport(imports, mod, name);
    }

    /** `_FromTyping`: counts one more reference and imports the name, or `typing` itself
        when the name collides (and then qualifies it). */
    method FromTyping(name: string) returns (s: string)
      modifies this`imports, this`typingCounts
      ensures s == TypingName(name, Taken())
      ensures typingCounts == Bump(old(typingCounts), name, 1)
      ensures imports == AddImport(old(imports), "typing", TypingImport(name, Taken()))
    {
      typingCounts := Bump(typingCounts, name, 1);
      if NameCollision(name) {
        RequireImport("typing", None);
        s := "typing." + name;
      } else {
        RequireImport("typing", Some(name));
        s := name;
      }
    }

    /** `_FromTyping` of each of `names` has the effects of the folds. */
    lemma FromTypingStep(imports0: ImportTable, counts0: Counts, name: string, rest: seq<string>)
      ensures TypingImports(imports0, [name] + rest, Taken())
              == TypingImports(AddImport(imports0, "typing", TypingImport(name, Taken())), rest, Taken())
      ensures TypingCounts(counts0, [name] + rest) == TypingCounts(Bump(counts0, name, 1), rest)
    {
      assert ([name] + rest)[1..] == rest;
    }

    /** `_GenerateImportStrings`: the import lines of the current tables. */
    method GenerateImportStrings() returns (ret: seq<string>)
      ensures ret == ImportLines(imports, typingCounts)
    {
      ret := ImportStrings(imports, typingCounts);
    }

    /** `EnterTypeDeclUnit`: remembers the module's name and its definitions. */
    method EnterTypeDeclUnit(unit: TypeDeclUnit)
      modifies this`unitName, this`localNames
      ensures unitName == Some(unit.name) && localNames == DefinitionNames(unit)
    {
      unitName := Some(unit.name);
      localNames := DefinitionNames(unit);
    }

    /** `LeaveTypeDeclUnit`. */
    method LeaveTypeDeclUnit()
      modifies this`unitName, this`localNames
      ensures unitName == None && localNames == {}
    {
      unitName := None;
      localNames := {};
    }

    /** `VisitTypeDeclUnit`: imports, aliases, constants, type variables, classes and
        functions, as sections. A module with type parameters refers to `TypeVar`. */
    method VisitTypeDeclUnit(original: TypeDeclUnit, aliases: seq<string>, constants: seq<string>,
                             classes: seq<string>, functions: seq<string>, render: PType -> string) returns (s: string)
      modifies this`imports, this`typingCounts
      ensures var refs := if original.typeParams != [] then ["TypeVar"] else [];
              imports == TypingImports(old(imports), refs, Taken()) && typingCounts == TypingCounts(old(typingCounts), refs)
      ensures s == ModuleText([ImportLines(imports, typingCounts), aliases, constants,
                               FormatTypeParams(original.typeParams, render), classes, functions])
    {
      if original.typeParams != [] {
        var _ := FromTyping("TypeVar");
        FromTypingStep(old(imports), old(typingCounts), "TypeVar", []);
      }
      var importLines := GenerateImportStrings();
      s := ModuleText([importLines, aliases, constants, FormatTypeParams(original.typeParams, render), classes, functions]);
    }

    /** `VisitConstant`: inside a literal only `builtins.True`/`builtins.False` may occur
        and print bare; elsewhere `name: type`. */
    method VisitConstant(name: string, typeText: string) returns (s: string)
      requires inLiteral ==> Partition(name, ".").0 == "builtins" && Partition(name, ".").2 in {"True", "False"}
      ensures inLiteral ==> s in {"True", "False"} && name == "builtins." + s
      ensures !inLiteral ==> s == name + ": " + typeText
    {
      if inLiteral {
        var (_, _, n) := Partition(name, ".");
        s := n;
      } else {
        s := name + ": " + typeText;
      }
    }

    /** `EnterClass`: pushes the class name (with its template) and records its members. */
    method EnterClass(node: Class)
      modifies this`classNames, this`classMembers
      ensures classNames == old(classNames) + [ClassScopeName(node)]
      ensures classMembers == old(classMembers) + (set m | m in MemberNames(node))
    {
      var n := node.name;
      if node.template != [] {
        n := n + "[" + Join(TemplateNames(node), ", ") + "]";
      }
      assert n == ClassScopeName(node);
      classNames := classNames + [n];
      var members := MemberNames(node);
      var i := 0;
      while i < |members|
        invariant 0 <= i <= |members|
        invariant classMembers == old(classMembers) + (set m | m in members[..i])
        invariant classNames == old(classNames) + [ClassScopeName(node)]
      {
        assert members[..i + 1] == members[..i] + [members[i]];
        classMembers := classMembers + {members[i]};
        i := i + 1;
      }
      assert members[..i] == members;
    }

    /** `LeaveClass`: forgets the members and pops the class name. */
    method LeaveClass()
      requires classNames != []
      modifies this`classNames, this`classMembers
      ensures classMembers == {}
      ensures classNames == old(classNames)[..|old(classNames)| - 1]
    {
      classMembers := {};
      classNames := classNames[..|classNames| - 1];
    }

    /** A class visit, `EnterClass` then `LeaveClass`, leaves the stack of class names as
        it was; the member names are forgotten. */
    method EnterLeaveClass(node: Class)
      modifies this`classNames, this`classMembers
      ensures classNames == old(classNames)
      ensures classMembers == {}
    {
      EnterClass(node);
      LeaveClass();
    }

    /** `EnterParameter`/`LeaveParameter` and `EnterLiteral`/`LeaveLiteral` do not nest. */
    method EnterParameter()
      requires !inParameter
      modifies this`inParameter
      ensures inParameter
    {
      inParameter := true;
    }

    method LeaveParameter()
      requires inParameter
      modifies this`inParameter
      ensures !inParameter
    {
      inParameter := false;
    }

    method EnterLiteral()
      requires !inLiteral
      modifies this`inLiteral
      ensures inLiteral
    {
      inLiteral := true;
    }

    method LeaveLiteral()
      requires inLiteral
      modifies this`inLiteral
      ensures !inLiteral
    {
      inLiteral := false;
    }

    /** `VisitParameter`: the text of `ParameterText`; eliding `Any` or `cls: Type[C]`
        takes back the reference counted when the type was printed. */
    method VisitParameter(name: string, typ: Option<string>, optional: bool) returns (s: string)
      requires !(typ.None? && name == "self" && classNames != [])
      modifies this`typingCounts
      ensures s == ParameterText(name, typ, optional, classNames)
      ensures typingCounts == match ParameterElision(name, typ, classNames)
                              case ElideAny => Bump(old(typingCounts), "Any", -1)
                              case ElideCls => Bump(old(typingCounts), "Type", -1)
                              case _ => old(typingCounts)
    {
      var suffix := if optional then " = ..." else "";
      if typ == Some("Any") {
        typingCounts := Bump(typingCounts, "Any", -1);
        s := name + suffix;
      } else if name == "self" && classNames != []
                && BeforeBracket(classNames[|classNames| - 1]) == BeforeBracket(typ.value) {
        s := name + suffix;
      } else if name == "cls" && classNames != [] && typ == Some("Type[" + classNames[|classNames| - 1] + "]") {
        typingCounts := Bump(typingCounts, "Type", -1);
        s := name + suffix;
      } else if typ.None? {
        s := name;
      } else {
        s := name + ": " + typ.value + suffix;
      }
    }

    /** `VisitNamedType` (also `VisitClassType`). */
    method VisitNamedType(name: string) returns (s: string)
      modifies this`imports, this`typingCounts
      ensures s == NamedTypeText(name, Taken())
      ensures typingCounts == TypingCounts(old(typingCounts), NamedTypeRefs(name, Taken()))
      ensures imports == match NamedTypeImport(name, Taken(), unitName, localNames, classNames)
                         case Some(m) => AddImport(old(imports), m, None)
                         case None => TypingImports(old(imports), NamedTypeRefs(name, Taken()), Taken())
    {
      ghost var taken := Taken();
      var (prefix, suffix) := RPartition(name, '.');
      var nodeName: string;
      if prefix == "builtins" && !NameCollision(suffix) {
        assert suffix !in taken;
        nodeName := suffix;
      } else if prefix == "typing" {
        nodeName := FromTyping(suffix);
        FromTypingStep(old(imports), old(typingCounts), suffix, []);
      } else {
        assert NamedTypeRefs(name, taken) == [];
        if prefix != "" && Some(prefix) != unitName && prefix !in localNames {
          var classPrefix: string;
          if classNames != [] && '.' in classNames[|classNames| - 1] {
            classPrefix := classNames[|classNames| - 1];
          } else {
            classPrefix := Join(classNames, ".");
          }
          assert classPrefix == ClassPrefix(classNames);
          if prefix != classPrefix {
            RequireImport(prefix, None);
          }
        }
        nodeName := name;
      }
      if nodeName == "NoneType" {
        s := "None";
      } else {
        s := nodeName;
      }
    }

    /** `VisitAnythingType`. */
    method VisitAnythingType() returns (s: string)
      modifies this`imports, this`typingCounts
      ensures s == TypingName("Any", Taken())
      ensures typingCounts == Bump(old(typingCounts), "Any", 1)
      ensures imports == AddImport(old(imports), "typing", TypingImport("Any", Taken()))
    {
      s := FromTyping("Any");
    }

    /** `MaybeCapitalize`. */
    method MaybeCapitalize(base: string, capitalize: string -> Option<string>) returns (s: string)
      modifies this`imports, this`typingCounts
      ensures s == CapitalizedName(base, capitalize, Taken())
      ensures typingCounts == TypingCounts(old(typingCounts), CapitalizeRefs(base, capitalize))
      ensures imports == TypingImports(old(imports), CapitalizeRefs(base, capitalize), Taken())
    {
      var capitalized := capitalize(base);
      if capitalized.Some? && capitalized.value != "" {
        s := FromTyping(capitalized.value);
        FromTypingStep(old(imports), old(typingCounts), capitalized.value, []);
      } else {
        s := base;
      }
    }

    /** `VisitGenericType` (also `VisitTupleType`): the printed base and parameters;
        rewriting `Callable[Any, X]` takes back the `Any` reference. */
    method VisitGenericType(original: PType, baseText: string, params: seq<string>,
                            capitalize: string -> Option<string>) returns (s: string)
      requires original.GenericType? && original.kind != CallableGeneric
      modifies this`imports, this`typingCounts
      ensures s == CapitalizedName(baseText, capitalize, Taken()) + "["
                   + Join(GenericParameters(original.kind, TypeName(original), baseText, params), ", ") + "]"
      ensures typingCounts == TypingCounts(
                if CallableEllipsis(original.kind, TypeName(original), baseText, params)
                then Bump(old(typingCounts), "Any", -1) else old(typingCounts),
                CapitalizeRefs(baseText, capitalize))
      ensures imports == TypingImports(old(imports), CapitalizeRefs(baseText, capitalize), Taken())
    {
      var parameters := params;
      if original.kind == TupleGeneric && params == [] {
        parameters := ["()"];
      } else if original.kind != TupleGeneric && baseText == "tuple" {
        parameters := parameters + ["..."];
      } else if TypeName(original) == Some("typing.Callable") {
        typingCounts := Bump(typingCounts, "Any", -1);
        parameters := ["..."] + (if parameters == [] then [] else parameters[1..]);
      }
      var base := MaybeCapitalize(baseText, capitalize);
      s := base + "[" + Join(parameters, ", ") + "]";
    }

    /** `VisitCallableType`: `Callable[[args], ret]`. */
    method VisitCallableType(baseText: string, params: seq<string>, capitalize: string -> Option<string>) returns (s: string)
      requires params != []
      modifies this`imports, this`typingCounts
      ensures s == CapitalizedName(baseText, capitalize, Taken()) + "[["
                   + Join(params[..|params| - 1], ", ") + "], " + params[|params| - 1] + "]"
      ensures typingCounts == TypingCounts(old(typingCounts), CapitalizeRefs(baseText, capitalize))
      ensures imports == TypingImports(old(imports), CapitalizeRefs(baseText, capitalize), Taken())
    {
      var base := MaybeCapitalize(baseText, capitalize);
      s := base + "[[" + Join(params[..|params| - 1], ", ") + "], " + params[|params| - 1] + "]";
    }

    /** `_BuildUnion`: the text of `UnionText`, referring to `Optional` once per level of
        `None` removal and to `Union` at most once. */
    method BuildUnion(ts: seq<string>) returns (s: string)
      modifies this`imports, this`typingCounts
      decreases |SplitLiterals(ts)|
      ensures s == UnionText(ts, TypingName("Optional", Taken()), TypingName("Union", Taken()))
      ensures typingCounts == TypingCounts(old(typingCounts), UnionRefs(ts))
      ensures imports == TypingImports(old(imports), UnionRefs(ts), Taken())
    {
      var newTypeList := SplitLiteralList(ts);
      if |newTypeList| == 1 {
        s := newTypeList[0];
      } else if "None" in newTypeList {
        var optional := FromTyping("Optional");
        var inner := BuildUnion(WithoutNone(newTypeList));
        FromTypingStep(old(imports), old(typingCounts), "Optional", UnionRefs(WithoutNone(newTypeList)));
        s := optional + "[" + inner + "]";
      } else {
        var union := FromTyping("Union");
        FromTypingStep(old(imports), old(typingCounts), "Union", []);
        s := union + "[" + Join(newTypeList, ", ") + "]";
      }
    }

    /** `VisitUnionType`: repeated members are dropped (first occurrence kept), then the
        union is built. */
    method VisitUnionType(ts: seq<string>) returns (s: string)
      modifies this`imports, this`typingCounts
      ensures s == UnionText(Dedupe(ts), TypingName("Optional", Taken()), TypingName("Union", Taken()))
      ensures typingCounts == TypingCounts(old(typingCounts), UnionRefs(Dedupe(ts)))
      ensures imports == TypingImports(old(imports), UnionRefs(Dedupe(ts)), Taken())
    {
      s := BuildUnion(Dedupe(ts));
    }

    /** `VisitIntersectionType`: repeated members are dropped (first occurrence kept),
        then `_BuildIntersection` joins them; a member repeated alone prints bare. */
    function VisitIntersectionType(ts: seq<string>): (r: string)
      ensures r == Join(Dedupe(ts), " and ")
      ensures ts != [] && (forall i :: 0 <= i < |ts| ==> ts[i] == ts[0]) ==> r == ts[0]
    {
      DedupeConstant(ts);
      IntersectionText(Dedupe(ts))
    }

    /** `VisitLiteral`: `Literal[value]`, imported from `typing` unless `Literal` is a
        module-level name. */
    method VisitLiteral(value: string) returns (s: string)
      modifies this`imports, this`typingCounts
      ensures "Literal" in localNames ==> s == "Literal[" + value + "]" && imports == old(imports) && typingCounts == old(typingCounts)
      ensures "Literal" !in localNames ==>
                && s == TypingName("Literal", Taken()) + "[" + value + "]"
                && typingCounts == Bump(old(typingCounts), "Literal", 1)
                && imports == AddImport(old(imports), "typing", TypingImport("Literal", Taken()))
    {
      var base := "Literal";
      if base !in localNames {
        base := FromTyping(base);
      }
      s := base + "[" + value + "]";
    }

    /** `_FormatContainerContents`. */
    method FormatContainerContents(p: Parameter, render: PType -> string) returns (s: string)
      requires ContainerOk(p)
      modifies this`typingCounts
      ensures s == ContainerText(p, render)
      ensures typingCounts == ContainerCounts(old(typingCounts), p)
    {
      if p.typ.GenericType? {
        var (_, containerName) := RPartition(TypeName(p.typ).value, '.');
        var counter := if containerName == "tuple" then "Tuple" else "Dict";
        typingCounts := Bump(typingCounts, counter, -1);
        var last := p.typ.parameters[|p.typ.parameters| - 1];
        if last.AnythingType? {
          typingCounts := Bump(typingCounts, "Any", -1);
        }
        s := ParameterText(p.name, Some(render(last)), false, []);
      } else {
        s := ParameterText(p.name, Some(render(AnythingType)), false, []);
      }
    }

    /** The return annotation of `VisitSignature`: `nothing` is written `NoReturn`, a
        `typing` reference. */
    method ReturnAnnotation(returnType: string) returns (ret: string)
      modifies this`imports, this`typingCounts
      ensures ret == if returnType == "nothing" then "NoReturn" else returnType
      ensures imports == if returnType == "nothing" then AddImport(old(imports), "typing", TypingImport("NoReturn", Taken()))
                         else old(imports)
      ensures typingCounts == if returnType == "nothing" then Bump(old(typingCounts), "NoReturn", 1) else old(typingCounts)
    {
      if returnType == "nothing" {
        ret := "NoReturn";
        var _ := FromTyping(ret);
      } else {
        ret := returnType;
      }
    }

    /** `*args` and `**kwargs` of `VisitSignature`, each formatted as container contents. */
    method StarArguments(original: Signature, render: PType -> string) returns (starargs: string, starstarargs: Option<string>)
      requires original.starargs.Some? ==> ContainerOk(original.starargs.value)
      requires original.starstarargs.Some? ==> ContainerOk(original.starstarargs.value)
      modifies this`typingCounts
      ensures starargs == if original.starargs.Some? then ContainerText(original.starargs.value, render) else ""
      ensures starstarargs == if original.starstarargs.Some? then Some(ContainerText(original.starstarargs.value, render)) else None
      ensures typingCounts == StarCounts(old(typingCounts), original)
    {
      starargs := "";
      if original.starargs.Some? {
        starargs := FormatContainerContents(original.starargs.value, render);
      }
      starstarargs := None;
      if original.starstarargs.Some? {
        var text := FormatContainerContents(original.starstarargs.value, render);
        starstarargs := Some(text);
      }
    }

    /** `VisitSignature`: parameters in the order positionals, `*args`, keyword-only,
        `**kwargs`; the return annotation (`NoReturn` for `nothing`); the body. */
    method VisitSignature(original: Signature, params: seq<string>, returnType: string,
                          exceptions: seq<string>, render: PType -> string) returns (s: string)
      requires SignatureOk(original, params)
      modifies this`imports, this`typingCounts
      ensures s == SignatureSource(original, params, returnType, exceptions, render, multilineArgs)
      ensures imports == if returnType == "nothing" then AddImport(old(imports), "typing", TypingImport("NoReturn", Taken()))
                         else old(imports)
      ensures typingCounts == SignatureCounts(old(typingCounts), original, returnType)
    {
      var ret := ReturnAnnotation(returnType);
      var starargs, starstarargs := StarArguments(original, render);
      var arranged := SpliceStar(params, KwOnlyFlags(original.params), starargs);
      if starstarargs.Some? {
        arranged := arranged + ["**" + starstarargs.value];
      }
      ArrangedStarStar(params, KwOnlyFlags(original.params), starargs, starstarargs);
      assert arranged == Arranged(params, KwOnlyFlags(original.params), starargs, starstarargs);
      s := FinishSignature(arranged, ret, original.params, exceptions, render, multilineArgs);
    }
  }
}
