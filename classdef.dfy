/** Class-header validation in the stub parser: bases, keywords and decorators of a
    `class` statement, each either accepted (possibly rewritten) or rejected with a
    parse error. */
module ClassDef {
  import opened Wrappers
  import opened Pytd

  /** The parse errors these checks raise. */
  datatype ParseError =
    | DuplicateBareNamedTuple
    | UnexpectedClassBase(base: string)
    | UnexpectedClassKeyword(keyword: Option<string>)
    | UnsupportedClassDecorators(names: set<string>)

  // ---------------------------------------------------------------------
  // get_bases

  /** A base as the parser hands it over: a `pytd.Type`, or some other value (kept as its
      `str`). */
  datatype Base = TypeBase(t: PType) | OtherBase(text: string)

  /** The base's name is truthy and, per `type_match`, names `typing.Protocol`. */
  predicate IsProtocol(b: Base, typeMatch: (string, string) -> bool)
  {
    b.TypeBase? && TypeName(b.t).Some? && TypeName(b.t).value != ""
    && typeMatch(TypeName(b.t).value, "typing.Protocol")
  }

  /** The bare `typing.NamedTuple` base (when it is not taken for a protocol first). */
  predicate IsBareNamedTuple(b: Base, typeMatch: (string, string) -> bool)
  {
    !IsProtocol(b, typeMatch) && b == TypeBase(NamedType("typing.NamedTuple"))
  }

  /** What an accepted base contributes: `Protocol[T, ...]` stands for `Generic[T, ...]`
      followed by `Protocol`; every other base stands for itself. */
  function ExpandedBase(b: Base, typeMatch: (string, string) -> bool): seq<PType>
    requires b.TypeBase?
  {
    if IsProtocol(b, typeMatch) then
      (if b.t.GenericType? then [b.t.(baseType := NamedType("typing.Generic"))] else [])
      + [NamedType("typing.Protocol")]
    else [b.t]
  }

  /** All bases expanded, in order. */
  function ExpandedBases(bases: seq<Base>, typeMatch: (string, string) -> bool): seq<PType>
    requires forall i :: 0 <= i < |bases| ==> bases[i].TypeBase?
  {
    if bases == [] then [] else ExpandedBase(bases[0], typeMatch) + ExpandedBases(bases[1..], typeMatch)
  }

  /** How many bases are the bare `typing.NamedTuple`. */
  function NamedTupleCount(bases: seq<Base>, typeMatch: (string, string) -> bool): nat
  {
    if bases == [] then 0
    else (if IsBareNamedTuple(bases[0], typeMatch) then 1 else 0) + NamedTupleCount(bases[1..], typeMatch)
  }

  /** Reference definition of `get_bases`, scanning left to right; `seenNamedTuple` says
      whether a bare `NamedTuple` came earlier. The first offending base decides the error. */
  function BasesFrom(bases: seq<Base>, typeMatch: (string, string) -> bool, seenNamedTuple: bool)
    : Result<seq<PType>, ParseError>
    decreases |bases|
  {
    if bases == [] then Success([])
    else
      var b := bases[0];
      if IsProtocol(b, typeMatch) then Prepend(ExpandedBase(b, typeMatch), BasesFrom(bases[1..], typeMatch, seenNamedTuple))
      else if IsBareNamedTuple(b, typeMatch) then
        if seenNamedTuple then Failure(DuplicateBareNamedTuple)
        else Prepend([b.t], BasesFrom(bases[1..], typeMatch, true))
      else if b.TypeBase? then Prepend([b.t], BasesFrom(bases[1..], typeMatch, seenNamedTuple))
      else Failure(UnexpectedClassBase(b.text))
  }

  function Prepend(xs: seq<PType>, r: Result<seq<PType>, ParseError>): Result<seq<PType>, ParseError>
  {
    if r.Success? then Success(xs + r.value) else r
  }

  lemma PrependPrepend(a: seq<PType>, b: seq<PType>, r: Result<seq<PType>, ParseError>)
    ensures Prepend(a, Prepend(b, r)) == Prepend(a + b, r)
  {
    if r.Success? {
      assert a + (b + r.value) == (a + b) + r.value;
    }
  }

  /** `get_bases` succeeds exactly when every base is a type and the bare `NamedTuple`
      occurs at most once; then the result is every base expanded, in order. */
  lemma {:induction false} BasesFromSpec(bases: seq<Base>, typeMatch: (string, string) -> bool, seenNamedTuple: bool)
    ensures BasesFrom(bases, typeMatch, seenNamedTuple).Success? <==>
              (forall i :: 0 <= i < |bases| ==> bases[i].TypeBase?) &&
              NamedTupleCount(bases, typeMatch) + (if seenNamedTuple then 1 else 0) <= 1
    ensures BasesFrom(bases, typeMatch, seenNamedTuple).Success? ==>
              BasesFrom(bases, typeMatch, seenNamedTuple).value == ExpandedBases(bases, typeMatch)
    ensures BasesFrom(bases, typeMatch, seenNamedTuple).Failure? && (forall i :: 0 <= i < |bases| ==> bases[i].TypeBase?) ==>
              BasesFrom(bases, typeMatch, seenNamedTuple).error == DuplicateBareNamedTuple
    ensures BasesFrom(bases, typeMatch, seenNamedTuple).Failure? &&
            NamedTupleCount(bases, typeMatch) + (if seenNamedTuple then 1 else 0) <= 1 ==>
              BasesFrom(bases, typeMatch, seenNamedTuple).error.UnexpectedClassBase?
    decreases |bases|
  {
    if bases != [] {
      var b := bases[0];
      BasesFromSpec(bases[1..], typeMatch, seenNamedTuple);
      BasesFromSpec(bases[1..], typeMatch, true);
      assert forall i :: 1 <= i < |bases| ==> bases[i] == bases[1..][i - 1];
    }
  }

  /** `get_bases`: the loop over the bases, remembering where a bare `NamedTuple` was seen. */
  method GetBases(bases: seq<Base>, typeMatch: (string, string) -> bool) returns (r: Result<seq<PType>, ParseError>)
    ensures r == BasesFrom(bases, typeMatch, false)
  {
    var basesOut: seq<PType> := [];
    var namedTupleIndex: Option<nat> := None;
    var i := 0;
    assert bases[0..] == bases;
    assert Prepend([], BasesFrom(bases, typeMatch, false)) == BasesFrom(bases, typeMatch, false) by {
      var r := BasesFrom(bases, typeMatch, false);
      if r.Success? { assert [] + r.value == r.value; }
    }
    while i < |bases|
      invariant 0 <= i <= |bases|
      invariant BasesFrom(bases, typeMatch, false) == Prepend(basesOut, BasesFrom(bases[i..], typeMatch, namedTupleIndex.Some?))
    {
      var p := bases[i];
      assert bases[i..][1..] == bases[i + 1..] && bases[i..][0] == p;
      ghost var before := basesOut;
      if IsProtocol(p, typeMatch) {
        PrependPrepend(before, ExpandedBase(p, typeMatch), BasesFrom(bases[i + 1..], typeMatch, namedTupleIndex.Some?));
        if p.t.GenericType? {
          basesOut := basesOut + [p.t.(baseType := NamedType("typing.Generic"))];
        }
        basesOut := basesOut + [NamedType("typing.Protocol")];
        assert basesOut == before + ExpandedBase(p, typeMatch);
      } else if p.TypeBase? && p.t == NamedType("typing.NamedTuple") {
        if namedTupleIndex.Some? {
          return Failure(DuplicateBareNamedTuple);
        }
        PrependPrepend(before, [p.t], BasesFrom(bases[i + 1..], typeMatch, true));
        namedTupleIndex := Some(i);
        basesOut := basesOut + [p.t];
      } else if p.TypeBase? {
        PrependPrepend(before, [p.t], BasesFrom(bases[i + 1..], typeMatch, namedTupleIndex.Some?));
        basesOut := basesOut + [p.t];
      } else {
        return Failure(UnexpectedClassBase(p.text));
      }
      i := i + 1;
    }
    assert basesOut + [] == basesOut;
    return Success(basesOut);
  }

  // ---------------------------------------------------------------------
  // get_keywords

  /** `types.Pyval`: a literal value written in the stub. */
  datatype Pyval = Pyval(typeName: string, value: string)

  datatype KeywordValue = PyvalValue(v: Pyval) | TypeValue(t: PType)

  /** An `ast.keyword`; `arg` is `None` for `**kwargs`. */
  datatype Keyword = Keyword(arg: Option<string>, value: KeywordValue)

  predicate IsClassKeyword(arg: Option<string>)
  {
    arg == Some("metaclass") || arg == Some("total")
  }

  /** A keyword's value as a pytd type: a literal value through `to_pytd_literal`. */
  function KeywordType(v: KeywordValue, toLiteral: Pyval -> PType): PType
  {
    match v
    case PyvalValue(p) => toLiteral(p)
    case TypeValue(t) => t
  }

  /** `get_keywords`: accepts only `metaclass` and `total`, failing on the first other
      keyword, and otherwise keeps every keyword in order with its value converted. */
  method GetKeywords(keywords: seq<Keyword>, toLiteral: Pyval -> PType) returns (r: Result<seq<(string, PType)>, ParseError>)
    ensures r.Success? <==> forall i :: 0 <= i < |keywords| ==> IsClassKeyword(keywords[i].arg)
    ensures r.Failure? ==> exists i :: 0 <= i < |keywords| && !IsClassKeyword(keywords[i].arg)
                              && (forall j :: 0 <= j < i ==> IsClassKeyword(keywords[j].arg))
                              && r.error == UnexpectedClassKeyword(keywords[i].arg)
    ensures r.Success? ==>
              && |r.value| == |keywords|
              && forall i :: 0 <= i < |keywords| ==>
                   r.value[i] == (keywords[i].arg.value, KeywordType(keywords[i].value, toLiteral))
  {
    var valid: seq<(string, PType)> := [];
    var i := 0;
    while i < |keywords|
      invariant 0 <= i <= |keywords|
      invariant forall j :: 0 <= j < i ==> IsClassKeyword(keywords[j].arg)
      invariant |valid| == i
      invariant forall j :: 0 <= j < i ==> valid[j] == (keywords[j].arg.value, KeywordType(keywords[j].value, toLiteral))
    {
      var k := keywords[i];
      if !IsClassKeyword(k.arg) {
        return Failure(UnexpectedClassKeyword(k.arg));
      }
      var value := match k.value
        case PyvalValue(p) => toLiteral(p)
        case TypeValue(t) => t;
      valid := valid + [(k.arg.value, value)];
      i := i + 1;
    }
    return Success(valid);
  }

  // ---------------------------------------------------------------------
  // get_decorators

  /** Decorators that only make sense on functions and methods. */
  const NonClassDecorators: set<string> := {"property", "classmethod", "staticmethod", "overload"}

  /** The decorator list with every `type_check_only` dropped. */
  function WithoutTypeCheckOnly(ds: seq<string>): (r: seq<string>)
    ensures forall d :: d in r <==> d in ds && d != "type_check_only"
    ensures |r| <= |ds|
  {
    if ds == [] then []
    else if ds[0] == "type_check_only" then WithoutTypeCheckOnly(ds[1..])
    else [ds[0]] + WithoutTypeCheckOnly(ds[1..])
  }

  /** The filter works element by element: it keeps the order and the number of
      occurrences of every other decorator. */
  lemma {:induction false} WithoutTypeCheckOnlyConcat(a: seq<string>, b: seq<string>)
    ensures WithoutTypeCheckOnly(a + b) == WithoutTypeCheckOnly(a) + WithoutTypeCheckOnly(b)
    decreases |a|
  {
    if a == [] {
      assert a + b == b;
    } else {
      var head := a[0];
      var tail := a[1..];
      assert a == [head] + tail;
      assert a + b == [head] + (tail + b);
      WithoutTypeCheckOnlyConcat(tail, b);
      WithoutTypeCheckOnlyCons(head, tail + b);
      WithoutTypeCheckOnlyCons(head, tail);
    }
  }

  /** One decorator is dropped when it is `type_check_only` and kept otherwise. */
  lemma WithoutTypeCheckOnlyOne(d: string)
    ensures WithoutTypeCheckOnly([d]) == if d == "type_check_only" then [] else [d]
  {
    assert [d][1..] == [];
  }

  lemma WithoutTypeCheckOnlyCons(d: string, ds: seq<string>)
    ensures WithoutTypeCheckOnly([d] + ds) == (if d == "type_check_only" then [] else [d]) + WithoutTypeCheckOnly(ds)
  {
    var s := [d] + ds;
    assert s[0] == d && s[1..] == ds;
  }

  /** What a decorator stands for: its entry in the type map if that is set, else a
      reference to the name itself. */
  function DecoratorTarget(d: string, typeMap: map<string, Option<PType>>): PType
  {
    if d in typeMap && typeMap[d].Some? then typeMap[d].value else NamedType(d)
  }

  /** `get_decorators`: drops `type_check_only`, rejects function-only decorators (all of
      them are reported), and wraps each remaining name as an alias, in order. */
  function GetDecorators(decorators: seq<string>, typeMap: map<string, Option<PType>>): (r: Result<seq<Alias>, ParseError>)
    ensures r.Failure? <==> exists d :: d in decorators && d in NonClassDecorators
    ensures r.Failure? ==> r.error == UnsupportedClassDecorators(set d | d in decorators && d in NonClassDecorators)
    ensures r.Success? ==>
              var kept := WithoutTypeCheckOnly(decorators);
              |r.value| == |kept| && forall i :: 0 <= i < |kept| ==> r.value[i] == Alias(kept[i], DecoratorTarget(kept[i], typeMap))
    ensures r.Success? ==> forall a :: a in r.value ==> a.name != "type_check_only" && a.name in decorators
  {
    var kept := WithoutTypeCheckOnly(decorators);
    var unsupported := (set d | d in kept) * NonClassDecorators;
    assert unsupported == set d | d in decorators && d in NonClassDecorators by {
      assert "type_check_only" !in NonClassDecorators;
    }
    if unsupported != {} then
      assert exists d :: d in decorators && d in NonClassDecorators by {
        var d :| d in unsupported;
        assert d in decorators && d in NonClassDecorators;
      }
      Failure(UnsupportedClassDecorators(unsupported))
    else
      assert forall d :: d in decorators ==> d !in NonClassDecorators by {
        forall d | d in decorators ensures d !in NonClassDecorators {
          assert d !in unsupported;
        }
      }
      var aliases := seq(|kept|, i requires 0 <= i < |kept| =>
        Alias(kept[i], if kept[i] in typeMap && typeMap[kept[i]].Some? then typeMap[kept[i]].value else NamedType(kept[i])));
      assert forall a :: a in aliases ==> a.name in kept by {
        forall a | a in aliases ensures a.name in kept {
          var i :| 0 <= i < |aliases| && aliases[i] == a;
        }
      }
      Success(aliases)
  }

  // ---------------------------------------------------------------------
  // Examples of accepted and rejected bases.

  /** Exact matching, as `type_match` does for fully qualified names. */
  function ExactMatch(a: string, b: string): bool
  {
    a == b
  }

  lemma BasesExamples(other: PType, args: seq<PType>)
    requires TypeName(other) == Some("foo.Base")
    ensures BasesFrom([TypeBase(NamedType("typing.NamedTuple")), TypeBase(NamedType("typing.NamedTuple"))], ExactMatch, false)
            == Failure(DuplicateBareNamedTuple)
    ensures BasesFrom([TypeBase(NamedType("typing.NamedTuple")), TypeBase(other)], ExactMatch, false)
            == Success([NamedType("typing.NamedTuple"), other])
    ensures BasesFrom([TypeBase(GenericType(PlainGeneric, NamedType("typing.Protocol"), args))], ExactMatch, false)
            == Success([GenericType(PlainGeneric, NamedType("typing.Generic"), args), NamedType("typing.Protocol")])
    ensures BasesFrom([TypeBase(NamedType("typing.Protocol"))], ExactMatch, false) == Success([NamedType("typing.Protocol")])
  {
    var nt := TypeBase(NamedType("typing.NamedTuple"));
    assert !IsProtocol(nt, ExactMatch) && IsBareNamedTuple(nt, ExactMatch);
    assert [nt, nt][1..] == [nt];
    assert [nt, TypeBase(other)][1..] == [TypeBase(other)];
    assert [TypeBase(other)][1..] == [];
    assert "foo.Base" != "typing.Protocol" && "foo.Base" != "typing.NamedTuple" by {
      assert "foo.Base"[0] != "typing.Protocol"[0] && "foo.Base"[0] != "typing.NamedTuple"[0];
    }
    assert !IsProtocol(TypeBase(other), ExactMatch) && !IsBareNamedTuple(TypeBase(other), ExactMatch);
    assert [other] + [] == [other];
    assert BasesFrom([TypeBase(other)], ExactMatch, true) == Success([other]);
    assert [NamedType("typing.NamedTuple")] + [other] == [NamedType("typing.NamedTuple"), other];
    var g := TypeBase(GenericType(PlainGeneric, NamedType("typing.Protocol"), args));
    assert IsProtocol(g, ExactMatch);
    assert [g][1..] == [];
    assert ExpandedBase(g, ExactMatch) + [] == ExpandedBase(g, ExactMatch);
    assert ExpandedBase(g, ExactMatch) == [GenericType(PlainGeneric, NamedType("typing.Generic"), args), NamedType("typing.Protocol")];
    var q := TypeBase(NamedType("typing.Protocol"));
    assert IsProtocol(q, ExactMatch);
    assert [q][1..] == [];
    assert ExpandedBase(q, ExactMatch) == [NamedType("typing.Protocol")];
    assert [NamedType("typing.Protocol")] + [] == [NamedType("typing.Protocol")];
  }
}
