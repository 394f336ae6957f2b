/** The string-building rules of the stub printer, as pure functions over the already
    rendered pieces of a node. */
module PrintText {
  import opened Wrappers
  import opened Text
  import opened Sorting
  import opened Pytd

  const Indent: string := "    "

  // ---------------------------------------------------------------------
  // Unions and intersections

  /** `re.fullmatch(r"Literal\[(?P<content>.*)\]", t)`; `.` matches anything but a newline. */
  predicate IsLiteralText(t: string)
  {
    |t| >= 9 && t[..8] == "Literal[" && t[|t| - 1] == ']' && '\n' !in t[8..|t| - 1]
  }

  function LiteralContent(t: string): string
    requires IsLiteralText(t)
  {
    t[8..|t| - 1]
  }

  /** A literal is its content put back between the brackets. */
  lemma LiteralRoundTrip(t: string)
    requires IsLiteralText(t)
    ensures "Literal[" + LiteralContent(t) + "]" == t
  {
    assert t == t[..8] + t[8..|t| - 1] + [t[|t| - 1]];
  }

  lemma LiteralOfContent(c: string)
    requires '\n' !in c
    ensures IsLiteralText("Literal[" + c + "]") && LiteralContent("Literal[" + c + "]") == c
  {
    var t := "Literal[" + c + "]";
    assert t[..8] == "Literal[" && t[8..|t| - 1] == c;
  }

  /** The members that are not literals, in order. */
  function NonLiterals(ts: seq<string>): (r: seq<string>)
    ensures |r| <= |ts|
    ensures forall t :: t in r <==> t in ts && !IsLiteralText(t)
  {
    if ts == [] then []
    else
      var init := NonLiterals(ts[..|ts| - 1]);
      assert ts == ts[..|ts| - 1] + [ts[|ts| - 1]];
      if IsLiteralText(ts[|ts| - 1]) then init else init + [ts[|ts| - 1]]
  }

  /** The contents of the literal members, in order. */
  function LiteralContents(ts: seq<string>): (r: seq<string>)
    ensures |r| + |NonLiterals(ts)| == |ts|
    ensures r == [] <==> forall i :: 0 <= i < |ts| ==> !IsLiteralText(ts[i])
  {
    if ts == [] then []
    else
      var init := LiteralContents(ts[..|ts| - 1]);
      assert forall i :: 0 <= i < |ts| - 1 ==> ts[..|ts| - 1][i] == ts[i];
      if IsLiteralText(ts[|ts| - 1]) then init + [LiteralContent(ts[|ts| - 1])] else init
  }

  /** Both filters work element by element, so they keep the order and the number of
      occurrences of what they keep: a literal contributes its content, any other member
      itself. */
  lemma {:induction false} NonLiteralsConcat(a: seq<string>, b: seq<string>)
    ensures NonLiterals(a + b) == NonLiterals(a) + NonLiterals(b)
    decreases |b|
  {
    if b == [] {
      assert a + b == a;
    } else {
      var init := b[..|b| - 1];
      var last := b[|b| - 1];
      assert b == init + [last];
      assert a + b == (a + init) + [last];
      NonLiteralsConcat(a, init);
      NonLiteralsSnoc(a + init, last);
      NonLiteralsSnoc(init, last);
    }
  }

  lemma NonLiteralsSnoc(ts: seq<string>, t: string)
    ensures NonLiterals(ts + [t]) == NonLiterals(ts) + (if IsLiteralText(t) then [] else [t])
  {
    var s := ts + [t];
    assert s[..|s| - 1] == ts && s[|s| - 1] == t;
  }

  lemma {:induction false} LiteralContentsConcat(a: seq<string>, b: seq<string>)
    ensures LiteralContents(a + b) == LiteralContents(a) + LiteralContents(b)
    decreases |b|
  {
    if b == [] {
      assert a + b == a;
    } else {
      var init := b[..|b| - 1];
      var last := b[|b| - 1];
      assert b == init + [last];
      assert a + b == (a + init) + [last];
      LiteralContentsConcat(a, init);
      LiteralContentsSnoc(a + init, last);
      LiteralContentsSnoc(init, last);
    }
  }

  lemma LiteralContentsSnoc(ts: seq<string>, t: string)
    ensures LiteralContents(ts + [t]) == LiteralContents(ts) + (if IsLiteralText(t) then [LiteralContent(t)] else [])
  {
    var s := ts + [t];
    assert s[..|s| - 1] == ts && s[|s| - 1] == t;
  }

  lemma LiteralSplitOne(t: string)
    ensures NonLiterals([t]) == if IsLiteralText(t) then [] else [t]
    ensures LiteralContents([t]) == if IsLiteralText(t) then [LiteralContent(t)] else []
  {
    assert [t][..0] == [];
  }

  /** The union's members after the literal split: the other members in order, then one
      literal holding all the literal contents, in order. */
  function SplitLiterals(ts: seq<string>): (r: seq<string>)
    ensures |r| <= |ts|
  {
    NonLiterals(ts) + (if LiteralContents(ts) == [] then [] else ["Literal[" + Join(LiteralContents(ts), ", ") + "]"])
  }

  /** `(t for t in ts if t != "None")`. */
  function WithoutNone(ts: seq<string>): (r: seq<string>)
    ensures "None" !in r
    ensures forall t :: t in r <==> t in ts && t != "None"
    ensures "None" in ts ==> |r| < |ts|
    ensures |r| <= |ts|
  {
    if ts == [] then []
    else if ts[0] == "None" then WithoutNone(ts[1..])
    else [ts[0]] + WithoutNone(ts[1..])
  }

  /** Reference definition of `_BuildUnion` given how `Optional` and `Union` are written:
      one member stands alone, a `None` member makes it `Optional[...]` of the others,
      anything else is `Union[...]`. */
  function UnionText(ts: seq<string>, optionalName: string, unionName: string): string
    decreases |SplitLiterals(ts)|
  {
    var nt := SplitLiterals(ts);
    if |nt| == 1 then nt[0]
    else if "None" in nt then optionalName + "[" + UnionText(WithoutNone(nt), optionalName, unionName) + "]"
    else unionName + "[" + Join(nt, ", ") + "]"
  }

  /** The `typing` names `_BuildUnion` refers to, in the order it refers to them. */
  function UnionRefs(ts: seq<string>): seq<string>
    decreases |SplitLiterals(ts)|
  {
    var nt := SplitLiterals(ts);
    if |nt| == 1 then []
    else if "None" in nt then ["Optional"] + UnionRefs(WithoutNone(nt))
    else ["Union"]
  }

  /** A single member is printed as it is, a literal included. */
  lemma UnionOfOne(t: string, optionalName: string, unionName: string)
    ensures UnionText([t], optionalName, unionName) == t
    ensures UnionRefs([t]) == []
  {
    assert [t][..0] == [];
    if IsLiteralText(t) {
      LiteralRoundTrip(t);
      assert LiteralContents([t]) == [LiteralContent(t)];
      assert NonLiterals([t]) == [];
    } else {
      assert NonLiterals([t]) == [t];
    }
  }

  lemma NoLiterals(ts: seq<string>)
    requires forall i :: 0 <= i < |ts| ==> !IsLiteralText(ts[i])
    ensures NonLiterals(ts) == ts && LiteralContents(ts) == [] && SplitLiterals(ts) == ts
  {
    NonLiteralsAll(ts);
    assert SplitLiterals(ts) == ts + [];
  }

  lemma {:induction false} NonLiteralsAll(ts: seq<string>)
    requires forall i :: 0 <= i < |ts| ==> !IsLiteralText(ts[i])
    ensures NonLiterals(ts) == ts
  {
    if ts != [] {
      var init := ts[..|ts| - 1];
      var last := ts[|ts| - 1];
      assert !IsLiteralText(last);
      assert forall i :: 0 <= i < |init| ==> init[i] == ts[i];
      NonLiteralsAll(init);
      assert ts == init + [last];
    }
  }

  lemma {:induction false} AllLiterals(ts: seq<string>)
    requires forall i :: 0 <= i < |ts| ==> IsLiteralText(ts[i])
    ensures NonLiterals(ts) == []
    ensures |LiteralContents(ts)| == |ts|
    ensures forall i :: 0 <= i < |ts| ==> LiteralContents(ts)[i] == LiteralContent(ts[i])
  {
    if ts != [] {
      var init := ts[..|ts| - 1];
      assert forall i :: 0 <= i < |init| ==> init[i] == ts[i];
      AllLiterals(init);
      assert LiteralContents(ts) == LiteralContents(init) + [LiteralContent(ts[|ts| - 1])];
    }
  }

  /** Without `None` and without literals, two or more members make a `Union`. */
  lemma UnionPlain(ts: seq<string>, optionalName: string, unionName: string)
    requires |ts| != 1
    requires forall i :: 0 <= i < |ts| ==> !IsLiteralText(ts[i]) && ts[i] != "None"
    ensures UnionText(ts, optionalName, unionName) == unionName + "[" + Join(ts, ", ") + "]"
    ensures UnionRefs(ts) == ["Union"]
  {
    NoLiterals(ts);
  }

  /** `None` next to one other non-literal member makes `Optional` of that member. */
  lemma UnionOptional(t: string, optionalName: string, unionName: string)
    requires !IsLiteralText(t) && t != "None"
    ensures UnionText(["None", t], optionalName, unionName) == optionalName + "[" + t + "]"
    ensures UnionText([t, "None"], optionalName, unionName) == optionalName + "[" + t + "]"
    ensures UnionRefs(["None", t]) == ["Optional"]
  {
    UnionNoneAnd(["None", t], t, optionalName, unionName);
    UnionNoneAnd([t, "None"], t, optionalName, unionName);
  }

  lemma UnionNoneAnd(ts: seq<string>, t: string, optionalName: string, unionName: string)
    requires !IsLiteralText(t) && t != "None"
    requires ts == ["None", t] || ts == [t, "None"]
    ensures UnionText(ts, optionalName, unionName) == optionalName + "[" + t + "]"
    ensures UnionRefs(ts) == ["Optional"]
  {
    assert !IsLiteralText("None");
    NoLiterals(ts);
    assert SplitLiterals(ts) == ts;
    assert WithoutNone(ts) == [t] by {
      if ts == ["None", t] {
        assert ts[1..] == [t] && [t][1..] == [];
      } else {
        assert ts[1..] == ["None"] && ["None"][1..] == [];
      }
    }
    UnionOfOne(t, optionalName, unionName);
  }

  /** Literal members only: their contents are merged into one literal, in order. */
  lemma UnionOfLiterals(ts: seq<string>, optionalName: string, unionName: string)
    requires ts != []
    requires forall i :: 0 <= i < |ts| ==> IsLiteralText(ts[i])
    ensures UnionText(ts, optionalName, unionName)
            == "Literal[" + Join(seq(|ts|, i requires 0 <= i < |ts| => LiteralContent(ts[i])), ", ") + "]"
  {
    AllLiterals(ts);
    assert LiteralContents(ts) == seq(|ts|, i requires 0 <= i < |ts| => LiteralContent(ts[i]));
  }

  /** `_BuildIntersection`: one member is printed bare, more are joined with `and`; the
      single-member shortcut agrees with the plain join. */
  function IntersectionText(ts: seq<string>): (r: string)
    ensures |ts| == 1 ==> r == ts[0]
    ensures r == Join(ts, " and ")
  {
    if |ts| == 1 then ts[0] else Join(ts, " and ")
  }

  // ---------------------------------------------------------------------
  // Parameters

  /** Why a parameter's annotation is left out, if it is. */
  datatype Elision = KeepAnnotation | ElideAny | ElideSelf | ElideCls | NoAnnotation

  /** Which branch of `VisitParameter` applies. A `self` parameter without a type inside a
      class is not handled by the source (it splits the missing type). */
  function ParameterElision(name: string, typ: Option<string>, classNames: seq<string>): Elision
    requires !(typ.None? && name == "self" && classNames != [])
  {
    if typ == Some("Any") then ElideAny
    else if name == "self" && classNames != []
            && BeforeBracket(classNames[|classNames| - 1]) == BeforeBracket(typ.value) then ElideSelf
    else if name == "cls" && classNames != [] && typ == Some("Type[" + classNames[|classNames| - 1] + "]") then ElideCls
    else if typ.None? then NoAnnotation
    else KeepAnnotation
  }

  function OptionalSuffix(optional: bool): string
  {
    if optional then " = ..." else ""
  }

  /** `VisitParameter`'s text: the name, the annotation unless it is elided, and ` = ...`
      for an optional parameter (except when the type is missing). */
  function ParameterText(name: string, typ: Option<string>, optional: bool, classNames: seq<string>): (r: string)
    requires !(typ.None? && name == "self" && classNames != [])
    ensures StartsWith(r, name)
    ensures ParameterElision(name, typ, classNames) == KeepAnnotation <==> StartsWith(r[|name|..], ": ")
    ensures ParameterElision(name, typ, classNames) == KeepAnnotation ==> r == name + ": " + typ.value + OptionalSuffix(optional)
    ensures ParameterElision(name, typ, classNames) != KeepAnnotation ==>
              r == name + (if typ.None? then "" else OptionalSuffix(optional))
  {
    var e := ParameterElision(name, typ, classNames);
    var r := if e == KeepAnnotation then name + ": " + typ.value + OptionalSuffix(optional)
             else if e == NoAnnotation then name
             else name + OptionalSuffix(optional);
    assert e == KeepAnnotation <==> StartsWith(r[|name|..], ": ") by {
      if e != KeepAnnotation {
        assert r[|name|..] == "" || r[|name|..] == " = ...";
        assert !StartsWith(" = ...", ": ") by { assert " = ..."[1] == '='; }
      } else {
        assert r[|name|..] == ": " + typ.value + OptionalSuffix(optional);
      }
    }
    r
  }

  /** The elision rules on examples: an `Any` parameter, `self` of a generic class and
      `cls` typed `Type[C]` print bare; other annotations are kept. */
  lemma ParameterExamples()
    ensures ParameterText("x", Some("Any"), true, []) == "x = ..."
    ensures ParameterText("self", Some("Foo"), false, ["Foo[T]"]) == "self"
    ensures ParameterText("cls", Some("Type[Foo]"), false, ["Foo"]) == "cls"
    ensures ParameterText("x", Some("int"), false, ["Foo"]) == "x: int"
  {
    ParameterSelfExample();
    ParameterClsExample();
    ParameterKeptExample();
  }

  lemma ParameterSelfExample()
    ensures ParameterText("self", Some("Foo"), false, ["Foo[T]"]) == "self"
  {
    assert "Foo" != "Any" by { assert "Foo"[0] != "Any"[0]; }
    assert BeforeBracket("Foo[T]") == "Foo" by {
      assert "Foo[T]"[3] == '[';
      assert "Foo[T]"[..3] == "Foo";
    }
    assert BeforeBracket("Foo") == "Foo";
    assert ParameterElision("self", Some("Foo"), ["Foo[T]"]) == ElideSelf;
    assert "self" + "" == "self";
  }

  lemma ParameterClsExample()
    ensures ParameterText("cls", Some("Type[Foo]"), false, ["Foo"]) == "cls"
  {
    assert "Type[Foo]" != "Any" by { assert "Type[Foo]"[0] != "Any"[0]; }
    assert "cls" != "self";
    assert "Type[" + "Foo" + "]" == "Type[Foo]";
    assert ParameterElision("cls", Some("Type[Foo]"), ["Foo"]) == ElideCls;
    assert "cls" + "" == "cls";
  }

  lemma ParameterKeptExample()
    ensures ParameterText("x", Some("int"), false, ["Foo"]) == "x: int"
  {
    assert "int" != "Any" by { assert "int"[0] != "Any"[0]; }
    assert "x" != "self" && "x" != "cls";
    assert ParameterElision("x", Some("int"), ["Foo"]) == KeepAnnotation;
    assert "x" + ": " + "int" + "" == "x: int";
  }

  // ---------------------------------------------------------------------
  // Signatures

  /** The index of the first keyword-only parameter, or the length when there is none. */
  function FirstKwOnly(kwonly: seq<bool>): (k: nat)
    ensures k <= |kwonly|
    ensures forall j :: 0 <= j < k ==> !kwonly[j]
    ensures k < |kwonly| ==> kwonly[k]
  {
    if kwonly == [] || kwonly[0] then 0 else 1 + FirstKwOnly(kwonly[1..])
  }

  /** No positional parameter follows a keyword-only one (asserted by the source). */
  predicate KwOnlyLast(kwonly: seq<bool>)
  {
    forall i, j :: 0 <= i < j < |kwonly| && kwonly[i] ==> kwonly[j]
  }

  /** Reference definition of the parameter order: positionals, `*args` (a bare `*` when
      there are keyword-only parameters but no `*args`; `starargs` is "" when there is
      none), keyword-only, `**kwargs`. */
  function Arranged(params: seq<string>, kwonly: seq<bool>, starargs: string, starstarargs: Option<string>): seq<string>
    requires |kwonly| == |params|
  {
    var k := FirstKwOnly(kwonly);
    (if k < |params| then params[..k] + ["*" + starargs] + params[k..]
     else params + (if starargs != "" then ["*" + starargs] else []))
    + (if starstarargs.Some? then ["**" + starstarargs.value] else [])
  }

  /** The arranged list in detail: the first `k` entries are the positional parameters,
      then comes the star entry when there is one, then the keyword-only parameters, and
      `**kwargs` last. */
  lemma ArrangedOrder(params: seq<string>, kwonly: seq<bool>, starargs: string, starstarargs: Option<string>)
    requires |kwonly| == |params| && KwOnlyLast(kwonly)
    ensures var r := Arranged(params, kwonly, starargs, starstarargs);
            var k := FirstKwOnly(kwonly);
            var star := k < |params| || starargs != "";
            var s := if star then 1 else 0;
            && |r| == |params| + s + (if starstarargs.Some? then 1 else 0)
            && (forall i :: 0 <= i < k ==> r[i] == params[i] && !kwonly[i])
            && (star ==> r[k] == "*" + starargs)
            && (forall i :: k <= i < |params| ==> r[i + s] == params[i] && kwonly[i])
            && (starstarargs.Some? ==> r[|r| - 1] == "**" + starstarargs.value)
  {
  }

  /** With keyword-only parameters and no `*args`, a bare `*` goes right before the first
      keyword-only parameter. */
  lemma BareStar(params: seq<string>, kwonly: seq<bool>, starstarargs: Option<string>, i: nat)
    requires |kwonly| == |params| && i < |params| && kwonly[i]
    ensures FirstKwOnly(kwonly) <= i
    ensures Arranged(params, kwonly, "", starstarargs)[FirstKwOnly(kwonly)] == "*"
  {
  }

  function MutationLine(name: string, newType: string): string
  {
    "\n" + Indent + name + " = " + newType
  }

  function RaiseLine(exc: string): string
  {
    "\n" + Indent + "raise " + exc + "()"
  }

  /** The signature's body: a line per mutated parameter, then a `raise` line per
      exception; ` ...` when there are none. */
  function SignatureBody(mutations: seq<(string, string)>, exceptions: seq<string>): (r: string)
    ensures r == " ..." <==> mutations == [] && exceptions == []
    ensures mutations != [] ==> StartsWith(r, MutationLine(mutations[0].0, mutations[0].1))
    ensures mutations == [] && exceptions != [] ==> StartsWith(r, RaiseLine(exceptions[0]))
  {
    var lines := seq(|mutations|, i requires 0 <= i < |mutations| => MutationLine(mutations[i].0, mutations[i].1))
                 + seq(|exceptions|, i requires 0 <= i < |exceptions| => RaiseLine(exceptions[i]));
    if lines == [] then " ..."
    else
      var r := Join(lines, "");
      assert StartsWith(r, lines[0]) by { JoinStartsWith(lines, ""); }
      assert lines[0][0] == '\n';
      r
  }

  lemma JoinStartsWith(xs: seq<string>, sep: string)
    requires xs != []
    ensures StartsWith(Join(xs, sep), xs[0])
  {
    if |xs| > 1 {
      var a := xs[0] + sep;
      StartsWithConcat(xs[0], sep);
      StartsWithConcat(a, Join(xs[1..], sep));
      assert (a + Join(xs[1..], sep))[..|xs[0]|] == a[..|xs[0]|];
    }
  }

  /** The signature's text after the name: the parameter list (one per line when
      `multiline`), the return annotation and the body. */
  function SignatureText(params: seq<string>, returnType: string, body: string, multiline: bool): (r: string)
    ensures StartsWith(r, "(")
    ensures EndsWith(r, " -> " + returnType + ":" + body)
  {
    var ret := " -> " + returnType;
    if multiline then
      "(" + Join(ParamLines(params), ",") + "\n)" + ret + ":" + body
    else
      "(" + Join(params, ", ") + ")" + ret + ":" + body
  }

  /** Each parameter on a line of its own, indented. */
  function ParamLines(params: seq<string>): (r: seq<string>)
    ensures |r| == |params|
  {
    seq(|params|, i requires 0 <= i < |params| => "\n" + Indent + params[i])
  }

  // ---------------------------------------------------------------------
  // Functions

  /** The decorator lines `VisitFunction` puts before each `def`. */
  function FunctionDecorators(f: Function): (r: seq<string>)
    ensures "@staticmethod" in r <==> f.kind == StaticMethod && f.name != "__new__"
    ensures "@classmethod" in r <==> f.kind == ClassMethod && f.name != "__init_subclass__"
    ensures "@property" in r <==> f.kind == Property
    ensures "@abstractmethod" in r <==> f.isAbstract
    ensures "@coroutine" in r <==> f.isCoroutine
    ensures "@overload" in r <==> |f.signatures| > 1
    ensures |r| <= 4
  {
    var kind := KindDecorator(f);
    var abstractFlag := Flag(f.isAbstract, "@abstractmethod");
    var coroutine := Flag(f.isCoroutine, "@coroutine");
    var overload := Flag(|f.signatures| > 1, "@overload");
    DecoratorsDistinct();
    kind + abstractFlag + coroutine + overload
  }

  /** The position class of a function decorator in the source's order: the kind
      decorator, `@abstractmethod`, `@coroutine`, then `@overload`. */
  function DecoratorRank(d: string): nat
  {
    if d == "@abstractmethod" then 1
    else if d == "@coroutine" then 2
    else if d == "@overload" then 3
    else 0
  }

  /** The decorator lines come in the source's order, each at most once. */
  lemma FunctionDecoratorsOrder(f: Function)
    ensures var r := FunctionDecorators(f);
            forall i, j :: 0 <= i < j < |r| ==> DecoratorRank(r[i]) < DecoratorRank(r[j])
  {
    DecoratorsDistinct();
    var kind := KindDecorator(f);
    assert RankedBelow(kind, 1);
    var withAbstract := kind + Flag(f.isAbstract, "@abstractmethod");
    RankedFlag(kind, f.isAbstract, "@abstractmethod");
    var withCoroutine := withAbstract + Flag(f.isCoroutine, "@coroutine");
    RankedFlag(withAbstract, f.isCoroutine, "@coroutine");
    RankedFlag(withCoroutine, |f.signatures| > 1, "@overload");
  }

  /** The ranks strictly increase along `s` and stay below `bound`. */
  predicate RankedBelow(s: seq<string>, bound: nat)
  {
    && (forall i, j :: 0 <= i < j < |s| ==> DecoratorRank(s[i]) < DecoratorRank(s[j]))
    && (forall i :: 0 <= i < |s| ==> DecoratorRank(s[i]) < bound)
  }

  /** Appending a decorator of a higher rank keeps the ranks increasing. */
  lemma RankedFlag(s: seq<string>, b: bool, d: string)
    requires RankedBelow(s, DecoratorRank(d))
    ensures RankedBelow(s + Flag(b, d), DecoratorRank(d) + 1)
  {
    if !b {
      assert s + Flag(b, d) == s;
    }
  }

  const KindDecorators: set<string> := {"@staticmethod", "@classmethod", "@property"}

  /** The decorator for the kind of function, if any. */
  function KindDecorator(f: Function): (r: seq<string>)
    ensures |r| <= 1
    ensures forall d :: d in r ==> d in KindDecorators
    ensures "@staticmethod" in r <==> f.kind == StaticMethod && f.name != "__new__"
    ensures "@classmethod" in r <==> f.kind == ClassMethod && f.name != "__init_subclass__"
    ensures "@property" in r <==> f.kind == Property
  {
    DecoratorsDistinct();
    if f.kind == StaticMethod && f.name != "__new__" then ["@staticmethod"]
    else if f.kind == ClassMethod && f.name != "__init_subclass__" then ["@classmethod"]
    else if f.kind == Property then ["@property"]
    else []
  }

  /** One decorator line when the flag is set. */
  function Flag(b: bool, d: string): (r: seq<string>)
    ensures r == [] || r == [d]
    ensures d in r <==> b
  {
    if b then [d] else []
  }

  lemma DecoratorsDistinct()
    ensures "@staticmethod" != "@classmethod" && "@staticmethod" != "@property"
    ensures "@classmethod" != "@property"
    ensures forall d :: d in KindDecorators ==>
              d != "@abstractmethod" && d != "@coroutine" && d != "@overload"
    ensures "@abstractmethod" != "@coroutine" && "@abstractmethod" != "@overload" && "@coroutine" != "@overload"
  {
    assert "@staticmethod"[1] == 's' && "@classmethod"[1] == 'c' && "@property"[1] == 'p';
    assert "@abstractmethod"[1] == 'a' && "@coroutine"[1] == 'c' && "@overload"[1] == 'o';
    assert "@classmethod"[2] == 'l' && "@coroutine"[2] == 'o';
  }

  function Lines(xs: seq<string>): string
  {
    if xs == [] then "" else xs[0] + "\n" + Lines(xs[1..])
  }

  /** One `def` line of a function: its decorator lines, `def`, the name and one
      rendered signature. */
  function DefLine(f: Function, sig: string): string
  {
    Lines(FunctionDecorators(f)) + "def " + f.name + sig
  }

  function DefLines(f: Function, sigs: seq<string>): (r: seq<string>)
    ensures |r| == |sigs|
    ensures forall i :: 0 <= i < |sigs| ==> r[i] == DefLine(f, sigs[i])
  {
    seq(|sigs|, i requires 0 <= i < |sigs| => DefLine(f, sigs[i]))
  }

  /** `VisitFunction`: each rendered signature, after the decorator lines and `def name`,
      one after the other on their own lines; with overloads every signature repeats the
      decorators, `@overload` among them. */
  function FunctionText(f: Function, sigs: seq<string>): (r: string)
    requires |sigs| == |f.signatures|
    ensures sigs == [] ==> r == ""
    ensures |sigs| == 1 ==> r == DefLine(f, sigs[0])
    ensures |sigs| > 1 ==> r == DefLine(f, sigs[0]) + "\n" + Join(DefLines(f, sigs[1..]), "\n")
    ensures |sigs| > 1 ==> "@overload" in FunctionDecorators(f)
  {
    var defs := DefLines(f, sigs);
    assert |sigs| > 1 ==> defs[1..] == DefLines(f, sigs[1..]);
    Join(defs, "\n")
  }

  // ---------------------------------------------------------------------
  // Classes

  /** The parents as printed: `(object,)` alone is dropped, a metaclass comes last. */
  function ClassParents(parents: seq<string>, metaclass: Option<string>): (r: seq<string>)
    ensures |r| == (if parents == ["object"] then 0 else |parents|) + (if metaclass.Some? then 1 else 0)
    ensures parents != ["object"] ==> r[..|parents|] == parents
    ensures metaclass.Some? ==> r[|r| - 1] == "metaclass=" + metaclass.value
  {
    var ps := if parents == ["object"] then [] else parents;
    var r := ps + (if metaclass.Some? then ["metaclass=" + metaclass.value] else []);
    assert r[..|ps|] == ps;
    r
  }

  function ClassHeader(name: string, parents: seq<string>, metaclass: Option<string>): string
  {
    var ps := ClassParents(parents, metaclass);
    "class " + name + (if ps == [] then "" else "(" + Join(ps, ", ") + ")") + ":"
  }

  function SlotsLine(slots: seq<string>): string
  {
    Indent + "__slots__ = [" + Join(seq(|slots|, i requires 0 <= i < |slots| => "\"" + slots[i] + "\""), ", ") + "]"
  }

  /** Every line of every text, in order: `sum((m.splitlines() for m in ms), [])`. */
  function AllLines(texts: seq<string>): seq<string>
  {
    if texts == [] then [] else SplitLines(texts[0]) + AllLines(texts[1..])
  }

  function IndentAll(lines: seq<string>): (r: seq<string>)
    ensures |r| == |lines|
    ensures forall i :: 0 <= i < |r| ==> r[i] == Indent + lines[i]
  {
    seq(|lines|, i requires 0 <= i < |lines| => Indent + lines[i])
  }

  /** The class has something to put in its body. */
  predicate HasBody(classes: seq<string>, methods: seq<string>, constants: seq<string>, slots: Option<seq<string>>)
  {
    classes != [] || methods != [] || constants != [] || slots.Some?
  }

  /** The indented body lines of a class. */
  function ClassBody(slots: Option<seq<string>>, classes: seq<string>, constants: seq<string>, methods: seq<string>): seq<string>
  {
    (if slots.Some? then [SlotsLine(slots.value)] else [])
    + IndentAll(AllLines(classes)) + IndentAll(constants) + IndentAll(AllLines(methods))
  }

  /** The lines of `VisitClass`: decorators, header, then the indented slots, nested
      classes, constants and methods; a class with no body gets ` ...` on its header. */
  function ClassLines(name: string, parents: seq<string>, metaclass: Option<string>, slots: Option<seq<string>>,
                      decorators: seq<string>, classes: seq<string>, constants: seq<string>, methods: seq<string>): seq<string>
  {
    var decoratorLines := seq(|decorators|, i requires 0 <= i < |decorators| => "@" + decorators[i]);
    var header := ClassHeader(name, parents, metaclass);
    if HasBody(classes, methods, constants, slots) then
      decoratorLines + [header] + ClassBody(slots, classes, constants, methods)
    else
      decoratorLines + [header + " ..."]
  }

  /** `VisitClass`: the lines joined, ending in a newline. */
  function ClassText(name: string, parents: seq<string>, metaclass: Option<string>, slots: Option<seq<string>>,
                     decorators: seq<string>, classes: seq<string>, constants: seq<string>, methods: seq<string>): (r: string)
    ensures EndsWith(r, "\n")
  {
    Join(ClassLines(name, parents, metaclass, slots, decorators, classes, constants, methods), "\n") + "\n"
  }

  /** A class without body prints its decorators and then one header line ending in ` ...`. */
  lemma ClassOneLine(name: string, parents: seq<string>, metaclass: Option<string>, slots: Option<seq<string>>,
                     decorators: seq<string>, classes: seq<string>, constants: seq<string>, methods: seq<string>)
    requires !HasBody(classes, methods, constants, slots)
    ensures ClassLines(name, parents, metaclass, slots, decorators, classes, constants, methods)
            == seq(|decorators|, i requires 0 <= i < |decorators| => "@" + decorators[i])
               + [ClassHeader(name, parents, metaclass) + " ..."]
  {
  }

  /** A class with a body prints its decorators, the header, and then only indented lines:
      the slots, every line of the nested classes, the constants and every line of the
      methods. */
  lemma ClassBodyIndented(name: string, parents: seq<string>, metaclass: Option<string>, slots: Option<seq<string>>,
                          decorators: seq<string>, classes: seq<string>, constants: seq<string>, methods: seq<string>)
    requires HasBody(classes, methods, constants, slots)
    ensures var lines := ClassLines(name, parents, metaclass, slots, decorators, classes, constants, methods);
            && |lines| == |decorators| + 1 + (if slots.Some? then 1 else 0)
                          + |AllLines(classes)| + |constants| + |AllLines(methods)|
            && (forall i :: 0 <= i < |decorators| ==> lines[i] == "@" + decorators[i])
            && lines[|decorators|] == ClassHeader(name, parents, metaclass)
            && (forall i :: |decorators| < i < |lines| ==> StartsWith(lines[i], Indent))
            && lines[|decorators| + 1..] == ClassBody(slots, classes, constants, methods)
  {
    var decoratorLines := seq(|decorators|, i requires 0 <= i < |decorators| => "@" + decorators[i]);
    var tail := ClassBody(slots, classes, constants, methods);
    assert ClassLines(name, parents, metaclass, slots, decorators, classes, constants, methods)
           == decoratorLines + [ClassHeader(name, parents, metaclass)] + tail;
    ClassBodySpec(slots, classes, constants, methods);
    HeaderThenIndented(decoratorLines, ClassHeader(name, parents, metaclass), tail);
    assert (decoratorLines + [ClassHeader(name, parents, metaclass)] + tail)[|decorators| + 1..] == tail;
  }

  lemma HeaderThenIndented(front: seq<string>, header: string, tail: seq<string>)
    requires AllIndented(tail)
    ensures var lines := front + [header] + tail;
            && |lines| == |front| + 1 + |tail|
            && (forall i :: 0 <= i < |front| ==> lines[i] == front[i])
            && lines[|front|] == header
            && forall i :: |front| < i < |lines| ==> StartsWith(lines[i], Indent)
  {
    var lines := front + [header] + tail;
    forall i | |front| < i < |lines| ensures StartsWith(lines[i], Indent) {
      assert lines[i] == tail[i - |front| - 1];
    }
  }

  lemma ClassBodySpec(slots: Option<seq<string>>, classes: seq<string>, constants: seq<string>, methods: seq<string>)
    ensures AllIndented(ClassBody(slots, classes, constants, methods))
    ensures |ClassBody(slots, classes, constants, methods)|
            == (if slots.Some? then 1 else 0) + |AllLines(classes)| + |constants| + |AllLines(methods)|
  {
    var s := if slots.Some? then [SlotsLine(slots.value)] else [];
    var a := IndentAll(AllLines(classes));
    var b := IndentAll(constants);
    var c := IndentAll(AllLines(methods));
    if slots.Some? {
      StartsWithConcat(Indent, SlotsLine(slots.value)[|Indent|..]);
      assert Indent + SlotsLine(slots.value)[|Indent|..] == SlotsLine(slots.value);
    }
    assert AllIndented(s);
    IndentAllIndented(AllLines(classes));
    IndentAllIndented(constants);
    IndentAllIndented(AllLines(methods));
    AllIndentedConcat(s, a);
    AllIndentedConcat(s + a, b);
    AllIndentedConcat(s + a + b, c);
  }

  /** The body is the slots line first, then every line of the nested classes, then the
      constants, then every line of the methods, each indented. */
  lemma ClassBodyLayout(slots: Option<seq<string>>, classes: seq<string>, constants: seq<string>, methods: seq<string>)
    ensures slots.Some? ==> ClassBody(slots, classes, constants, methods)[0] == SlotsLine(slots.value)
    ensures var body := ClassBody(slots, classes, constants, methods);
            var c0 := if slots.Some? then 1 else 0;
            var k0 := c0 + |AllLines(classes)|;
            var m0 := k0 + |constants|;
            && |body| == m0 + |AllLines(methods)|
            && body[c0..k0] == IndentAll(AllLines(classes))
            && body[k0..m0] == IndentAll(constants)
            && body[m0..] == IndentAll(AllLines(methods))
  {
    var s := if slots.Some? then [SlotsLine(slots.value)] else [];
    FourParts(s, IndentAll(AllLines(classes)), IndentAll(constants), IndentAll(AllLines(methods)));
  }

  /** Where each part of a four-part concatenation lands. */
  lemma FourParts(s: seq<string>, a: seq<string>, b: seq<string>, c: seq<string>)
    ensures var x := s + a + b + c;
            && |x| == |s| + |a| + |b| + |c|
            && x[..|s|] == s
            && x[|s|..|s| + |a|] == a
            && x[|s| + |a|..|s| + |a| + |b|] == b
            && x[|s| + |a| + |b|..] == c
  {
    var x := s + a + b + c;
    assert x[..|s|] == s;
    assert x[|s|..|s| + |a|] == a;
    assert x[|s| + |a|..|s| + |a| + |b|] == b;
    assert x[|s| + |a| + |b|..] == c;
  }

  /** Every line begins with the indentation. */
  predicate AllIndented(xs: seq<string>)
  {
    forall j :: 0 <= j < |xs| ==> StartsWith(xs[j], Indent)
  }

  lemma IndentAllIndented(lines: seq<string>)
    ensures AllIndented(IndentAll(lines))
  {
    forall j | 0 <= j < |lines| ensures StartsWith(IndentAll(lines)[j], Indent) {
      StartsWithConcat(Indent, lines[j]);
    }
  }

  lemma AllIndentedConcat(xs: seq<string>, ys: seq<string>)
    requires AllIndented(xs) && AllIndented(ys)
    ensures AllIndented(xs + ys)
  {
    forall j | 0 <= j < |xs + ys| ensures StartsWith((xs + ys)[j], Indent) {
      if j >= |xs| { assert (xs + ys)[j] == ys[j - |xs|]; }
    }
  }

  lemma StartsWithConcat(a: string, b: string)
    ensures StartsWith(a + b, a)
  {
    assert (a + b)[..|a|] == a;
  }

  /** `(object,)` is not printed, and neither is an empty parent list. */
  lemma ObjectParentDropped(name: string)
    ensures ClassHeader(name, ["object"], None) == "class " + name + ":"
    ensures ClassHeader(name, [], None) == "class " + name + ":"
    ensures ClassHeader(name, ["object"], Some("M")) == "class " + name + "(metaclass=M)" + ":"
  {
    assert ClassParents(["object"], None) == [];
    assert ClassParents([], None) == [];
    assert "metaclass=" + "M" == "metaclass=M";
    assert ClassParents(["object"], Some("M")) == ["metaclass=M"];
    assert Join(["metaclass=M"], ", ") == "metaclass=M";
  }

  // ---------------------------------------------------------------------
  // Modules

  /** The `TypeVar` definition of one type parameter; `render` prints a type with a new
      printer. */
  function TypeVarLine(t: TypeParam, render: PType -> string): string
  {
    var args := ["'" + t.name + "'"]
                + seq(|t.constraints|, i requires 0 <= i < |t.constraints| => render(t.constraints[i]))
                + (if t.bound.Some? then ["bound=" + render(t.bound.value)] else []);
    t.name + " = TypeVar(" + Join(args, ", ") + ")"
  }

  /** `_FormatTypeParams`: the definitions, sorted as strings. */
  function FormatTypeParams(tps: seq<TypeParam>, render: PType -> string): (r: seq<string>)
    ensures SortedBy(r, StringKey)
    ensures multiset(r) == multiset(seq(|tps|, i requires 0 <= i < |tps| => TypeVarLine(tps[i], render)))
  {
    var lines := seq(|tps|, i requires 0 <= i < |tps| => TypeVarLine(tps[i], render));
    SortBySorted(lines, StringKey);
    SortBy(lines, StringKey)
  }

  /** The sections that have content, each joined by lines and right-stripped. */
  function SectionTexts(sections: seq<seq<string>>): (r: seq<string>)
    ensures |r| <= |sections|
    ensures forall i :: 0 <= i < |r| ==> r[i] == [] || !IsSpace(r[i][|r[i]| - 1])
  {
    if sections == [] then []
    else if sections[0] == [] then SectionTexts(sections[1..])
    else
      var text := RStrip(Join(sections[0], "\n"));
      assert text == [] || !IsSpace(text[|text| - 1]);
      [text] + SectionTexts(sections[1..])
  }

  /** Sections are handled one at a time: an empty one contributes nothing, a non-empty
      one its lines joined and right-stripped, in order. */
  lemma {:induction false} SectionTextsConcat(a: seq<seq<string>>, b: seq<seq<string>>)
    ensures SectionTexts(a + b) == SectionTexts(a) + SectionTexts(b)
    ensures SectionTexts([[]]) == []
    ensures forall sec :: sec != [] ==> SectionTexts([sec]) == [RStrip(Join(sec, "\n"))]
    decreases |a|
  {
    if a == [] {
      assert a + b == b;
    } else {
      assert (a + b)[0] == a[0] && (a + b)[1..] == a[1..] + b;
      SectionTextsConcat(a[1..], b);
      if a[0] != [] {
        var t := [RStrip(Join(a[0], "\n"))];
        assert t + SectionTexts(a[1..]) + SectionTexts(b) == t + (SectionTexts(a[1..]) + SectionTexts(b));
      }
    }
    var none: seq<seq<string>> := [[]];
    assert none[1..] == [];
    forall sec: seq<string> | sec != [] ensures SectionTexts([sec]) == [RStrip(Join(sec, "\n"))] {
      assert [sec][1..] == [];
    }
  }

  /** `VisitTypeDeclUnit`'s text: the non-empty sections separated by blank lines, each
      without trailing whitespace. */
  function ModuleText(sections: seq<seq<string>>): (r: string)
    ensures (forall i :: 0 <= i < |sections| ==> sections[i] == []) ==> r == ""
    ensures |sections| == 1 && sections[0] != [] ==> r == RStrip(Join(sections[0], "\n"))
  {
    var texts := SectionTexts(sections);
    assert (forall i :: 0 <= i < |sections| ==> sections[i] == []) ==> texts == [] by {
      EmptySections(sections);
    }
    Join(texts, "\n\n")
  }

  /** A further non-empty section is separated from the text so far by one blank line. */
  lemma ModuleTextAppend(sections: seq<seq<string>>, sec: seq<string>)
    requires SectionTexts(sections) != [] && sec != []
    ensures ModuleText(sections + [sec]) == ModuleText(sections) + "\n\n" + RStrip(Join(sec, "\n"))
  {
    SectionTextsConcat(sections, [sec]);
    JoinAppend(SectionTexts(sections), RStrip(Join(sec, "\n")), "\n\n");
  }

  /** A further empty section adds nothing to the text. */
  lemma ModuleTextAppendEmpty(sections: seq<seq<string>>)
    ensures ModuleText(sections + [[]]) == ModuleText(sections)
  {
    SectionTextsConcat(sections, [[]]);
    assert SectionTexts(sections) + [] == SectionTexts(sections);
  }

  /** Two non-empty sections, as in a module with only imports and classes. */
  lemma ModuleTextTwo(a: seq<string>, b: seq<string>)
    requires a != [] && b != []
    ensures ModuleText([a, b]) == RStrip(Join(a, "\n")) + "\n\n" + RStrip(Join(b, "\n"))
  {
    SectionTextsConcat([a], [b]);
    assert [a] + [b] == [a, b];
    ModuleTextAppend([a], b);
  }

  lemma {:induction false} JoinAppend(xs: seq<string>, y: string, sep: string)
    requires xs != []
    ensures Join(xs + [y], sep) == Join(xs, sep) + sep + y
    decreases |xs|
  {
    if |xs| == 1 {
      assert (xs + [y])[1..] == [y];
    } else {
      assert (xs + [y])[0] == xs[0] && (xs + [y])[1..] == xs[1..] + [y];
      JoinAppend(xs[1..], y, sep);
    }
  }

  lemma {:induction false} EmptySections(sections: seq<seq<string>>)
    ensures (forall i :: 0 <= i < |sections| ==> sections[i] == []) ==> SectionTexts(sections) == []
    decreases |sections|
  {
    if sections != [] {
      EmptySections(sections[1..]);
      assert forall i :: 1 <= i < |sections| ==> sections[1..][i - 1] == sections[i];
    }
  }
}
