/** `CollectTypeParameters`: gathers the type parameters the traversal meets, keeping
    the first one seen under each name. */
module TypeParameters {
  import opened Pytd

  /** The names of `ps`, as a set. */
  function Names(ps: seq<TypeParam>): set<string>
  {
    set i | 0 <= i < |ps| :: ps[i].name
  }

  lemma NamesConcat(a: seq<TypeParam>, b: seq<TypeParam>)
    ensures Names(a + b) == Names(a) + Names(b)
  {
    forall n | n in Names(a + b) ensures n in Names(a) + Names(b) {
      var i :| 0 <= i < |a + b| && (a + b)[i].name == n;
      if i < |a| { assert a[i] == (a + b)[i]; } else { assert b[i - |a|] == (a + b)[i]; }
    }
    forall n | n in Names(a) ensures n in Names(a + b) {
      var i :| 0 <= i < |a| && a[i].name == n;
      assert (a + b)[i] == a[i];
    }
    forall n | n in Names(b) ensures n in Names(a + b) {
      var i :| 0 <= i < |b| && b[i].name == n;
      assert (a + b)[i + |a|] == b[i];
    }
  }

  lemma NamesSingleton(p: TypeParam)
    ensures Names([p]) == {p.name}
  {
    assert [p][0].name == p.name;
  }

  /** No two entries of `ps` share a name. */
  ghost predicate DistinctNames(ps: seq<TypeParam>)
  {
    forall i, j :: 0 <= i < j < |ps| ==> ps[i].name != ps[j].name
  }

  /** Reference definition: the first parameter met under each name not in `seen`,
      in the order they are met. */
  function FirstSeen(visited: seq<TypeParam>, seen: set<string>): seq<TypeParam>
    decreases |visited|
  {
    if visited == [] then []
    else if visited[0].name in seen then FirstSeen(visited[1..], seen)
    else [visited[0]] + FirstSeen(visited[1..], seen + {visited[0].name})
  }

  /** First-seen collection yields each new name exactly once, and only new names. */
  lemma {:induction false} FirstSeenNames(visited: seq<TypeParam>, seen: set<string>)
    ensures DistinctNames(FirstSeen(visited, seen))
    ensures Names(FirstSeen(visited, seen)) == Names(visited) - seen
    decreases |visited|
  {
    if visited != [] {
      var p := visited[0];
      var rest := FirstSeen(visited[1..], seen + {p.name});
      FirstSeenNames(visited[1..], seen);
      FirstSeenNames(visited[1..], seen + {p.name});
      assert visited == [p] + visited[1..];
      NamesConcat([p], visited[1..]);
      NamesSingleton(p);
      if p.name !in seen {
        var r := [p] + rest;
        NamesConcat([p], rest);
        forall i, j | 0 <= i < j < |r| ensures r[i].name != r[j].name {
          if i == 0 {
            assert r[j] == rest[j - 1];
            assert r[j].name in Names(rest);
          } else {
            assert r[i] == rest[i - 1] && r[j] == rest[j - 1];
          }
        }
      }
    }
  }

  /** Entering one parameter and then the rest. */
  lemma FirstSeenCons(p: TypeParam, rest: seq<TypeParam>, seen: set<string>)
    ensures FirstSeen([p] + rest, seen) == FirstSeen([p], seen) + FirstSeen(rest, seen + {p.name})
  {
    assert ([p] + rest)[1..] == rest;
    assert [p][1..] == [];
    if p.name in seen {
      assert seen + {p.name} == seen;
    }
  }

  /** Every collected parameter is the first one met under its name. */
  lemma {:induction false} FirstSeenIsFirst(visited: seq<TypeParam>, seen: set<string>, i: nat)
    requires i < |FirstSeen(visited, seen)|
    ensures exists k :: 0 <= k < |visited| && visited[k] == FirstSeen(visited, seen)[i]
                        && forall j :: 0 <= j < k ==> visited[j].name != visited[k].name
    decreases |visited|
  {
    var p := visited[0];
    var r := FirstSeen(visited, seen);
    if p.name in seen {
      FirstSeenIsFirst(visited[1..], seen, i);
      var k :| 0 <= k < |visited[1..]| && visited[1..][k] == r[i]
               && forall j :: 0 <= j < k ==> visited[1..][j].name != visited[1..][k].name;
      FirstSeenNames(visited[1..], seen);
      assert r[i].name !in seen by {
        assert r[i].name in Names(FirstSeen(visited[1..], seen));
      }
      assert visited[k + 1] == r[i];
      forall j | 0 <= j < k + 1 ensures visited[j].name != visited[k + 1].name {
        if j > 0 { assert visited[1..][j - 1] == visited[j]; }
      }
    } else if i == 0 {
      assert visited[0] == r[0];
    } else {
      var rest := FirstSeen(visited[1..], seen + {p.name});
      assert r[i] == rest[i - 1];
      FirstSeenIsFirst(visited[1..], seen + {p.name}, i - 1);
      var k :| 0 <= k < |visited[1..]| && visited[1..][k] == rest[i - 1]
               && forall j :: 0 <= j < k ==> visited[1..][j].name != visited[1..][k].name;
      FirstSeenNames(visited[1..], seen + {p.name});
      assert rest[i - 1].name in Names(rest);
      assert visited[k + 1] == r[i];
      forall j | 0 <= j < k + 1 ensures visited[j].name != visited[k + 1].name {
        if j > 0 { assert visited[1..][j - 1] == visited[j]; }
      }
    }
  }

  /** One step of the collecting loop. */
  lemma Step(visited: seq<TypeParam>, i: nat, before: seq<TypeParam>, seenBefore: set<string>, seen0: set<string>)
    requires i < |visited|
    requires seenBefore == seen0 + Names(visited[..i])
    ensures before + FirstSeen([visited[i]], seenBefore) + FirstSeen(visited[i + 1..], seenBefore + {visited[i].name})
            == before + FirstSeen(visited[i..], seenBefore)
    ensures seenBefore + {visited[i].name} == seen0 + Names(visited[..i + 1])
  {
    assert visited[i..] == [visited[i]] + visited[i + 1..];
    FirstSeenCons(visited[i], visited[i + 1..], seenBefore);
    assert visited[..i + 1] == visited[..i] + [visited[i]];
    NamesConcat(visited[..i], [visited[i]]);
    NamesSingleton(visited[i]);
  }

  class CollectTypeParameters {
    var seen: set<string>
    var params: seq<TypeParam>

    /** `params` holds one entry per name, and `seen` is exactly the set of those names. */
    ghost predicate Valid()
      reads this
    {
      DistinctNames(params) && seen == Names(params)
    }

    constructor()
      ensures Valid() && params == [] && seen == {}
    {
      seen := {};
      params := [];
    }

    /** `EnterTypeParameter`: append `p` unless its name was seen before. */
    method EnterTypeParameter(p: TypeParam)
      requires Valid()
      modifies this
      ensures Valid()
      ensures params == old(params) + FirstSeen([p], old(seen))
      ensures seen == old(seen) + {p.name}
    {
      if p.name !in seen {
        params := params + [p];
        seen := seen + {p.name};
        NamesConcat(old(params), [p]);
        NamesSingleton(p);
        forall i, j | 0 <= i < j < |params| ensures params[i].name != params[j].name {
          if j == |params| - 1 {
            assert params[i] == old(params)[i];
            assert params[i].name in old(Names(params));
          } else {
            assert params[i] == old(params)[i] && params[j] == old(params)[j];
          }
        }
      } else {
        assert seen + {p.name} == seen;
      }
    }

    /** The traversal entering each of `visited` in turn: `params` grows by exactly the
        first-seen parameters of `visited` whose names are new. */
    method EnterAll(visited: seq<TypeParam>)
      requires Valid()
      modifies this
      ensures Valid()
      ensures params == old(params) + FirstSeen(visited, old(seen))
      ensures seen == old(seen) + Names(visited)
    {
      ghost var params0, seen0 := params, seen;
      var i := 0;
      while i < |visited|
        invariant 0 <= i <= |visited|
        invariant Valid()
        invariant params + FirstSeen(visited[i..], seen) == params0 + FirstSeen(visited, seen0)
        invariant seen == seen0 + Names(visited[..i])
      {
        var v := visited[i];
        ghost var before, seenBefore := params, seen;
        EnterTypeParameter(v);
        Step(visited, i, before, seenBefore, seen0);
        i := i + 1;
      }
      assert visited[..i] == visited;
    }
  }
}
