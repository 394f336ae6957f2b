/** `RenameModuleVisitor`: moves a module's own qualified names from one dotted module
    name to another. */
module RenameModule {
  import opened Wrappers
  import opened Text
  import opened Pytd

  /** The visitor after construction: the new module name and the two prefixes, each
      with its trailing dot (the new prefix is empty for an empty new name). */
  datatype Renamer = Renamer(moduleName: string, oldPrefix: string, newPrefix: string)

  predicate NoTrailingDot(s: string)
  {
    s == "" || s[|s| - 1] != '.'
  }

  /** The constructor: an empty old module name is a `ValueError`; neither name may end
      in a dot. */
  function NewRenamer(oldModuleName: string, newModuleName: string): (r: Result<Renamer, string>)
    requires oldModuleName == "" || (NoTrailingDot(oldModuleName) && NoTrailingDot(newModuleName))
    ensures r.Failure? <==> oldModuleName == ""
    ensures r.Success? ==> r.value.moduleName == newModuleName
    ensures r.Success? ==> r.value.oldPrefix == oldModuleName + "." && |r.value.oldPrefix| > 1
    ensures r.Success? ==> r.value.newPrefix == (if newModuleName == "" then "" else newModuleName + ".")
  {
    if oldModuleName == "" then Failure("old_module_name must be a non empty string.")
    else Success(Renamer(newModuleName, oldModuleName + ".", if newModuleName == "" then "" else newModuleName + "."))
  }

  /** `_MaybeNewName`: a name directly inside the old module (the old prefix followed by
      a dot-free rest) moves to the new prefix; every other name, the empty one included,
      is returned unchanged. */
  function MaybeNewName(r: Renamer, name: string): (n: string)
    requires r.oldPrefix != ""
    ensures n == (if StartsWith(name, r.oldPrefix) && '.' !in name[|r.oldPrefix|..]
                  then r.newPrefix + name[|r.oldPrefix|..] else name)
  {
    if name == "" then name
    else
      PartitionAtStart(name, r.oldPrefix);
      var (before, sep, after) := Partition(name, r.oldPrefix);
      if sep != "" && before == "" && '.' !in after then r.newPrefix + after else name
  }

  /** Renaming back undoes a rename: a name moved from `old` to `new` moves back from
      `new` to `old`. */
  lemma RenameRoundTrip(oldModuleName: string, newModuleName: string, name: string)
    requires oldModuleName != "" && newModuleName != ""
    requires NoTrailingDot(oldModuleName) && NoTrailingDot(newModuleName)
    ensures var forward := NewRenamer(oldModuleName, newModuleName).value;
            var backward := NewRenamer(newModuleName, oldModuleName).value;
            MaybeNewName(forward, name) != name ==> MaybeNewName(backward, MaybeNewName(forward, name)) == name
  {
    var forward := NewRenamer(oldModuleName, newModuleName).value;
    var backward := NewRenamer(newModuleName, oldModuleName).value;
    var moved := MaybeNewName(forward, name);
    if moved != name {
      var rest := name[|forward.oldPrefix|..];
      assert moved == backward.oldPrefix + rest;
      assert StartsWith(moved, backward.oldPrefix);
      assert moved[|backward.oldPrefix|..] == rest;
      assert name == forward.oldPrefix + rest;
    }
  }

  /** Only a whole leading segment matches: `foo.x` moves, `foobar.x` and `foo.x.y` do not. */
  lemma RenameWholeSegmentsOnly()
    ensures MaybeNewName(NewRenamer("foo", "bar").value, "foo.x") == "bar.x"
    ensures MaybeNewName(NewRenamer("foo", "bar").value, "foobar.x") == "foobar.x"
    ensures MaybeNewName(NewRenamer("foo", "bar").value, "foo.x.y") == "foo.x.y"
    ensures MaybeNewName(NewRenamer("foo", "").value, "foo.x") == "x"
  {
    assert NewRenamer("foo", "bar").value == Renamer("bar", "foo.", "bar.");
    assert NewRenamer("foo", "").value == Renamer("", "foo.", "");
    RenameDirectChild();
    RenameOtherModule();
    RenameGrandchild();
    RenameToTopLevel();
  }

  lemma RenameDirectChild()
    ensures MaybeNewName(Renamer("bar", "foo.", "bar."), "foo.x") == "bar.x"
  {
    assert StartsWith("foo.x", "foo.") && "foo.x"[4..] == "x";
  }

  lemma RenameOtherModule()
    ensures MaybeNewName(Renamer("bar", "foo.", "bar."), "foobar.x") == "foobar.x"
  {
    assert !StartsWith("foobar.x", "foo.") by { assert "foobar.x"[..4][3] == 'b' && "foo."[3] == '.'; }
  }

  lemma RenameGrandchild()
    ensures MaybeNewName(Renamer("bar", "foo.", "bar."), "foo.x.y") == "foo.x.y"
  {
    assert "foo.x.y"[4..] == "x.y" && "x.y"[1] == '.';
  }

  lemma RenameToTopLevel()
    ensures MaybeNewName(Renamer("", "foo.", ""), "foo.x") == "x"
  {
    assert StartsWith("foo.x", "foo.") && "foo.x"[4..] == "x";
  }

  // The hooks. `_ReplaceModuleName` returns the node itself when the name does not
  // change, which as a value is the node with its (unchanged) name put back.

  /** `VisitNamedType` and `VisitClassType`. */
  function VisitNamedType(r: Renamer, t: PType): (n: PType)
    requires r.oldPrefix != "" && (t.NamedType? || t.ClassType?)
    ensures n == t.(name := MaybeNewName(r, t.name))
  {
    var newName := MaybeNewName(r, t.name);
    if newName != t.name then t.(name := newName) else t
  }

  /** `VisitConstant`. */
  function VisitConstant(r: Renamer, c: Constant): (n: Constant)
    requires r.oldPrefix != ""
    ensures n == c.(name := MaybeNewName(r, c.name))
  {
    var newName := MaybeNewName(r, c.name);
    if newName != c.name then c.(name := newName) else c
  }

  /** `VisitAlias`. */
  function VisitAlias(r: Renamer, a: Alias): (n: Alias)
    requires r.oldPrefix != ""
    ensures n == a.(name := MaybeNewName(r, a.name))
  {
    var newName := MaybeNewName(r, a.name);
    if newName != a.name then a.(name := newName) else a
  }

  /** `VisitClass`. */
  function VisitClass(r: Renamer, c: Class): (n: Class)
    requires r.oldPrefix != ""
    ensures n == c.(name := MaybeNewName(r, c.name))
  {
    var newName := MaybeNewName(r, c.name);
    if newName != c.name then c.(name := newName) else c
  }

  /** `VisitFunction`. */
  function VisitFunction(r: Renamer, f: Function): (n: Function)
    requires r.oldPrefix != ""
    ensures n == f.(name := MaybeNewName(r, f.name))
  {
    var newName := MaybeNewName(r, f.name);
    if newName != f.name then f.(name := newName) else f
  }

  /** `VisitTypeParameter`: the scope is renamed, the name is not. */
  function VisitTypeParameter(r: Renamer, p: TypeParam): (n: TypeParam)
    requires r.oldPrefix != ""
    ensures n == p.(scope := MaybeNewName(r, p.scope))
  {
    var newScope := MaybeNewName(r, p.scope);
    if newScope != p.scope then p.(scope := newScope) else p
  }

  /** `VisitTypeDeclUnit`: the module takes the new name. */
  function VisitTypeDeclUnit(r: Renamer, u: TypeDeclUnit): (n: TypeDeclUnit)
    ensures n == u.(name := r.moduleName)
  {
    u.(name := r.moduleName)
  }
}
