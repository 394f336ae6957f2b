/** The printer's import bookkeeping: the table of required imports (module to the names
    wanted from it, `None` standing for a bare `import module`), the per-name reference
    counts of `typing` names, and the import lines generated from the two. */
module Imports {
  import opened Wrappers
  import opened Text

  type ImportTable = map<string, set<Option<string>>>
  type Counts = map<string, int>

  /** A count in the `defaultdict(int)`: a missing name counts 0. */
  function CountOf(counts: Counts, name: string): int
  {
    if name in counts then counts[name] else 0
  }

  /** The names required from `module`; a missing module requires none. */
  function Required(imports: ImportTable, mod: string): set<Option<string>>
  {
    if mod in imports then imports[mod] else {}
  }

  /** `imports[module].add(name)` on the `defaultdict(set)`. */
  function AddImport(imports: ImportTable, mod: string, name: Option<string>): (r: ImportTable)
    ensures r.Keys == imports.Keys + {mod}
    ensures Required(r, mod) == Required(imports, mod) + {name}
    ensures forall m :: m != mod ==> Required(r, m) == Required(imports, m)
  {
    imports[mod := Required(imports, mod) + {name}]
  }

  /** Requiring the same import twice is the same as requiring it once. */
  lemma AddImportIdempotent(imports: ImportTable, mod: string, name: Option<string>)
    ensures AddImport(AddImport(imports, mod, name), mod, name) == AddImport(imports, mod, name)
  {
    var once := AddImport(imports, mod, name);
    assert Required(once, mod) + {name} == Required(once, mod);
  }

  /** `counts[name] += delta` on the `defaultdict(int)`. */
  function Bump(counts: Counts, name: string, delta: int): (r: Counts)
    ensures r.Keys == counts.Keys + {name}
    ensures CountOf(r, name) == CountOf(counts, name) + delta
    ensures forall n :: n != name ==> CountOf(r, n) == CountOf(counts, n)
  {
    counts[name := CountOf(counts, name) + delta]
  }

  // ---------------------------------------------------------------------
  // `_FromTyping` as a state change of the two tables. `taken` is the set of names a
  // `typing` name would collide with (class members and module-level names).

  /** How a `typing` name is written: qualified when it collides with a local name. */
  function TypingName(name: string, taken: set<string>): string
  {
    if name in taken then "typing." + name else name
  }

  /** The import one `_FromTyping(name)` requires. */
  function TypingImport(name: string, taken: set<string>): Option<string>
  {
    if name in taken then None else Some(name)
  }

  /** The import table after `_FromTyping` of each of `names`, in order. */
  function TypingImports(imports: ImportTable, names: seq<string>, taken: set<string>): ImportTable
    decreases |names|
  {
    if names == [] then imports
    else TypingImports(AddImport(imports, "typing", TypingImport(names[0], taken)), names[1..], taken)
  }

  /** The counts after `_FromTyping` of each of `names`, in order. */
  function TypingCounts(counts: Counts, names: seq<string>): Counts
    decreases |names|
  {
    if names == [] then counts else TypingCounts(Bump(counts, names[0], 1), names[1..])
  }

  /** Each reference raises its name's count by one. */
  lemma {:induction false} TypingCountsOf(counts: Counts, names: seq<string>, n: string)
    ensures CountOf(TypingCounts(counts, names), n) == CountOf(counts, n) + multiset(names)[n]
    decreases |names|
  {
    if names != [] {
      TypingCountsOf(Bump(counts, names[0], 1), names[1..], n);
      assert names == [names[0]] + names[1..];
    }
  }

  /** References only ever add `typing` imports: other modules are untouched, and each
      name is imported by itself or, when it collides, through a bare `import typing`. */
  lemma {:induction false} TypingImportsOf(imports: ImportTable, names: seq<string>, taken: set<string>)
    ensures forall m :: m != "typing" ==> Required(TypingImports(imports, names, taken), m) == Required(imports, m)
    ensures Required(TypingImports(imports, names, taken), "typing")
            == Required(imports, "typing") + (set i | 0 <= i < |names| :: TypingImport(names[i], taken))
    decreases |names|
  {
    if names != [] {
      var next := AddImport(imports, "typing", TypingImport(names[0], taken));
      TypingImportsOf(next, names[1..], taken);
      var all := set i | 0 <= i < |names| :: TypingImport(names[i], taken);
      var rest := set i | 0 <= i < |names[1..]| :: TypingImport(names[1..][i], taken);
      assert all == {TypingImport(names[0], taken)} + rest by {
        forall x | x in all ensures x in {TypingImport(names[0], taken)} + rest {
          var i :| 0 <= i < |names| && TypingImport(names[i], taken) == x;
          if i > 0 { assert names[1..][i - 1] == names[i]; }
        }
        forall x | x in rest ensures x in all {
          var i :| 0 <= i < |names[1..]| && TypingImport(names[1..][i], taken) == x;
          assert names[i + 1] == names[1..][i];
        }
      }
    }
  }

  // ---------------------------------------------------------------------
  // `_GenerateImportStrings`

  /** The names still wanted from `module`: for `typing`, a name whose count is exactly 0
      (every reference to it was taken back) is dropped. */
  function EffectiveNames(mod: string, names: set<Option<string>>, counts: Counts): (r: set<Option<string>>)
    ensures mod != "typing" ==> r == names
    ensures None in r <==> None in names
    ensures forall n :: Some(n) in r <==> Some(n) in names && !(mod == "typing" && n in counts && counts[n] == 0)
  {
    if mod == "typing" then set x | x in names && !(x.Some? && x.value in counts && counts[x.value] == 0)
    else names
  }

  /** The names of the `from` import. */
  function NamedOnly(names: set<Option<string>>): (r: set<string>)
    ensures forall n :: n in r <==> Some(n) in names
  {
    set x | x in names && x.Some? :: x.value
  }

  /** The lines for one module: `import m` if wanted, then `from m import a, b` with the
      names sorted, if any. */
  ghost function ModuleLines(mod: string, names: set<Option<string>>): seq<string>
  {
    (if None in names then ["import " + mod] else [])
    + (if NamedOnly(names) == {} then [] else ["from " + mod + " import " + Join(SetToSorted(NamedOnly(names)), ", ")])
  }

  /** The lines for `modules`, one module after the other. */
  ghost function LinesFor(modules: seq<string>, imports: ImportTable, counts: Counts): seq<string>
    requires forall i :: 0 <= i < |modules| ==> modules[i] in imports
  {
    if modules == [] then []
    else ModuleLines(modules[0], EffectiveNames(modules[0], imports[modules[0]], counts)) + LinesFor(modules[1..], imports, counts)
  }

  /** Reference definition of the generated import lines: modules in sorted order. */
  ghost function ImportLines(imports: ImportTable, counts: Counts): seq<string>
  {
    SetToSortedSpec(imports.Keys);
    LinesFor(SetToSorted(imports.Keys), imports, counts)
  }

  /** The import lines are the lines of the sorted modules. */
  lemma ImportLinesSorted(imports: ImportTable, counts: Counts)
    ensures forall i :: 0 <= i < |SetToSorted(imports.Keys)| ==> SetToSorted(imports.Keys)[i] in imports
    ensures ImportLines(imports, counts) == LinesFor(SetToSorted(imports.Keys), imports, counts)
  {
    SetToSortedSpec(imports.Keys);
  }

  /** A module contributes at most two lines: `import m` first when `None` is wanted,
      `from m import ...` last when a name is, and nothing when nothing is. */
  lemma ModuleLinesSpec(mod: string, names: set<Option<string>>)
    ensures |ModuleLines(mod, names)| <= 2
    ensures None in names <==> ModuleLines(mod, names) != [] && ModuleLines(mod, names)[0] == "import " + mod
    ensures NamedOnly(names) != {} <==>
              ModuleLines(mod, names) != [] &&
              ModuleLines(mod, names)[|ModuleLines(mod, names)| - 1]
                == "from " + mod + " import " + Join(SetToSorted(NamedOnly(names)), ", ")
    ensures names == {} ==> ModuleLines(mod, names) == []
  {
    var from := "from " + mod + " import " + Join(SetToSorted(NamedOnly(names)), ", ");
    assert from[0] == 'f' && ("import " + mod)[0] == 'i';
    if names != {} && NamedOnly(names) == {} {
      var x :| x in names;
      assert x == None;
    }
  }

  lemma LinesForFrame(modules: seq<string>, imports: ImportTable, smaller: ImportTable, counts: Counts)
    requires forall i :: 0 <= i < |modules| ==> modules[i] in smaller
    requires forall m :: m in smaller ==> m in imports && imports[m] == smaller[m]
    ensures LinesFor(modules, imports, counts) == LinesFor(modules, smaller, counts)
  {
  }

  /** The first module in sorted order comes first, followed by the lines of all the
      others. */
  lemma ImportLinesFirst(imports: ImportTable, counts: Counts, m: string)
    requires IsLeast(m, imports.Keys)
    ensures ImportLines(imports, counts)
            == ModuleLines(m, EffectiveNames(m, imports[m], counts)) + ImportLines(imports - {m}, counts)
  {
    var rest := imports - {m};
    assert rest.Keys == imports.Keys - {m};
    ImportLinesSorted(imports, counts);
    ImportLinesSorted(rest, counts);
    var ms := SetToSorted(imports.Keys);
    SetToSortedCons(imports.Keys, m);
    assert ms[0] == m && ms[1..] == SetToSorted(rest.Keys);
    LinesForFrame(ms[1..], imports, rest, counts);
  }

  lemma ImportLinesEmpty(counts: Counts)
    ensures ImportLines(map[], counts) == []
  {
    var empty: ImportTable := map[];
    assert empty.Keys == {};
    assert SetToSorted(empty.Keys) == [];
  }

  lemma {:induction false} BareImportLineFor(modules: seq<string>, imports: ImportTable, counts: Counts, m: string)
    requires forall i :: 0 <= i < |modules| ==> modules[i] in imports
    ensures ("import " + m) in LinesFor(modules, imports, counts) <==> m in modules && None in imports[m]
    decreases |modules|
  {
    if modules != [] {
      var m0 := modules[0];
      var names := EffectiveNames(m0, imports[m0], counts);
      BareImportLineFor(modules[1..], imports, counts, m);
      ModuleLinesSpec(m0, names);
      var here := ModuleLines(m0, names);
      assert LinesFor(modules, imports, counts) == here + LinesFor(modules[1..], imports, counts);
      var fromLine := "from " + m0 + " import " + Join(SetToSorted(NamedOnly(names)), ", ");
      assert fromLine[0] == 'f' && ("import " + m)[0] == 'i';
      assert ("import " + m)[7..] == m && ("import " + m0)[7..] == m0;
      assert modules == [m0] + modules[1..];
      if m == m0 && None in imports[m] {
        assert here[0] == "import " + m;
      }
    }
  }

  /** A bare `import m` line is generated exactly for the modules wanted as a whole. */
  lemma BareImportLine(imports: ImportTable, counts: Counts, m: string)
    ensures ("import " + m) in ImportLines(imports, counts) <==> m in imports && None in imports[m]
  {
    SetToSortedSpec(imports.Keys);
    BareImportLineFor(SetToSorted(imports.Keys), imports, counts, m);
  }
}
