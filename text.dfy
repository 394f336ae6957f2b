/** String helpers standing for the Python string operations the visitors use:
    `join`, `sorted` on strings, `partition`, `rpartition`, `split("[")[0]`,
    `splitlines` and `rstrip`. */
module Text {

  /** Python's `sep.join(xs)`. */
  function Join(xs: seq<string>, sep: string): (r: string)
    ensures xs == [] ==> r == ""
    ensures |xs| == 1 ==> r == xs[0]
    ensures |xs| > 1 ==> r == xs[0] + sep + Join(xs[1..], sep)
  {
    if xs == [] then "" else if |xs| == 1 then xs[0] else xs[0] + sep + Join(xs[1..], sep)
  }

  predicate StartsWith(s: string, prefix: string)
  {
    |prefix| <= |s| && s[..|prefix|] == prefix
  }

  predicate EndsWith(s: string, suffix: string)
  {
    |suffix| <= |s| && s[|s| - |suffix|..] == suffix
  }

  // ---------------------------------------------------------------------
  // Python's ordering of str values: lexicographic by code point.

  predicate LexLe(a: string, b: string)
  {
    a == [] || (b != [] && (a[0] < b[0] || (a[0] == b[0] && LexLe(a[1..], b[1..]))))
  }

  lemma {:induction false} LexLeReflexive(a: string)
    ensures LexLe(a, a)
  {
    if a != [] {
      LexLeReflexive(a[1..]);
    }
  }

  lemma {:induction false} LexLeTotal(a: string, b: string)
    ensures LexLe(a, b) || LexLe(b, a)
  {
    if a != [] && b != [] && a[0] == b[0] {
      LexLeTotal(a[1..], b[1..]);
    }
  }

  lemma {:induction false} LexLeTransitive(a: string, b: string, c: string)
    requires LexLe(a, b) && LexLe(b, c)
    ensures LexLe(a, c)
  {
    if a != [] && b != [] && c != [] && a[0] == b[0] && b[0] == c[0] {
      LexLeTransitive(a[1..], b[1..], c[1..]);
    }
  }

  lemma {:induction false} LexLeAntisymmetric(a: string, b: string)
    requires LexLe(a, b) && LexLe(b, a)
    ensures a == b
  {
    if a != [] && b != [] {
      LexLeAntisymmetric(a[1..], b[1..]);
      assert a == [a[0]] + a[1..];
      assert b == [b[0]] + b[1..];
    }
  }

  /** The strings of `xs` are in strictly increasing order. */
  ghost predicate StrictlySorted(xs: seq<string>)
  {
    forall i, j :: 0 <= i < j < |xs| ==> LexLe(xs[i], xs[j]) && xs[i] != xs[j]
  }

  predicate IsLeast(m: string, s: set<string>)
  {
    m in s && forall o :: o in s ==> LexLe(m, o)
  }

  lemma {:induction false} LeastExists(s: set<string>)
    requires s != {}
    ensures exists m :: IsLeast(m, s)
    decreases s
  {
    var x :| x in s;
    if s == {x} {
      LexLeReflexive(x);
      assert IsLeast(x, s);
    } else {
      LeastExists(s - {x});
      var m :| IsLeast(m, s - {x});
      if LexLe(x, m) {
        forall o | o in s ensures LexLe(x, o) {
          if o == x { LexLeReflexive(x); } else { LexLeTransitive(x, m, o); }
        }
        assert IsLeast(x, s);
      } else {
        LexLeTotal(x, m);
        assert IsLeast(m, s);
      }
    }
  }

  /** The least string of a non-empty set. */
  ghost function Least(s: set<string>): (m: string)
    requires s != {}
    ensures IsLeast(m, s)
  {
    LeastExists(s);
    var m :| IsLeast(m, s);
    m
  }

  /** `sorted(s)` for a set of strings. */
  ghost function SetToSorted(s: set<string>): seq<string>
    decreases s
  {
    if s == {} then [] else [Least(s)] + SetToSorted(s - {Least(s)})
  }

  /** The sorted sequence starts with the least element, whichever way it is found. */
  lemma SetToSortedCons(s: set<string>, m: string)
    requires IsLeast(m, s)
    ensures SetToSorted(s) == [m] + SetToSorted(s - {m})
  {
    var h := Least(s);
    LexLeAntisymmetric(h, m);
  }

  /** `sorted(s)` lists every element of `s` once, in strictly increasing order. */
  lemma {:induction false} SetToSortedSpec(s: set<string>)
    ensures |SetToSorted(s)| == |s|
    ensures forall x :: x in SetToSorted(s) <==> x in s
    ensures StrictlySorted(SetToSorted(s))
    decreases s
  {
    if s != {} {
      var m := Least(s);
      SetToSortedSpec(s - {m});
      var r := SetToSorted(s);
      forall i, j | 0 <= i < j < |r| ensures LexLe(r[i], r[j]) && r[i] != r[j] {
        if i > 0 {
          assert r[i] == SetToSorted(s - {m})[i - 1];
          assert r[j] == SetToSorted(s - {m})[j - 1];
        } else {
          assert r[j] == SetToSorted(s - {m})[j - 1];
          assert r[j] in s - {m};
        }
      }
    }
  }

  /** The loop of `sorted(s)`: repeatedly take out the least remaining element. */
  method SortedSet(s: set<string>) returns (r: seq<string>)
    ensures r == SetToSorted(s)
  {
    r := [];
    var rest := s;
    while rest != {}
      invariant r + SetToSorted(rest) == SetToSorted(s)
      decreases rest
    {
      LeastExists(rest);
      var m :| IsLeast(m, rest);
      SetToSortedCons(rest, m);
      r := r + [m];
      rest := rest - {m};
    }
  }

  // ---------------------------------------------------------------------
  // Searching.

  /** Index of the last `c` in `s`, or -1. */
  function LastIndexOf(s: string, c: char): (i: int)
    ensures -1 <= i < |s|
    ensures i == -1 <==> c !in s
    ensures 0 <= i ==> s[i] == c && c !in s[i + 1..]
  {
    if s == [] then -1
    else if s[|s| - 1] == c then |s| - 1
    else
      assert s[..|s| - 1] + [s[|s| - 1]] == s;
      LastIndexOf(s[..|s| - 1], c)
  }

  /** Python's `s.rpartition(c)`, giving the parts before and after the last `c`;
      without a `c` the head is empty and the tail is `s`. */
  function RPartition(s: string, c: char): (r: (string, string))
    ensures c in s ==> s == r.0 + [c] + r.1 && c !in r.1
    ensures c !in s ==> r == ("", s)
  {
    var i := LastIndexOf(s, c);
    if i < 0 then ("", s)
    else
      assert s == s[..i] + [c] + s[i + 1..];
      (s[..i], s[i + 1..])
  }

  /** The split at the last `c` is the only one whose tail has no `c`. */
  lemma RPartitionOf(s: string, c: char, head: string, tail: string)
    requires s == head + [c] + tail && c !in tail
    ensures RPartition(s, c) == (head, tail)
  {
    var r := RPartition(s, c);
    assert s[|head|] == c;
    var i := |r.0|;
    assert s[i] == c;
    assert r.0 == s[..i] && head == s[..i];
    assert r.1 == s[i + 1..] && tail == s[i + 1..];
  }

  /** `sep` occurs in `s` starting at index `k`. */
  predicate OccursAt(s: string, sep: string, k: int)
  {
    0 <= k && k + |sep| <= |s| && s[k..k + |sep|] == sep
  }

  /** Index of the first occurrence of `sep` in `s` at or after `from`, or -1. */
  function FindFrom(s: string, sep: string, from: nat): (i: int)
    requires from <= |s|
    ensures i == -1 || (from <= i && OccursAt(s, sep, i))
    ensures i == -1 ==> forall k :: from <= k ==> !OccursAt(s, sep, k)
    ensures 0 <= i ==> forall k :: from <= k < i ==> !OccursAt(s, sep, k)
    decreases |s| - from
  {
    if from + |sep| > |s| then -1
    else if s[from..from + |sep|] == sep then from
    else FindFrom(s, sep, from + 1)
  }

  /** Python's `s.partition(sep)` for a non-empty `sep`. */
  function Partition(s: string, sep: string): (r: (string, string, string))
    requires sep != ""
    ensures r.1 == "" ==> r == (s, "", "")
    ensures r.1 != "" ==> r.1 == sep && s == r.0 + sep + r.2
  {
    var i := FindFrom(s, sep, 0);
    if i < 0 then (s, "", "")
    else
      assert s == s[..i] + s[i..i + |sep|] + s[i + |sep|..];
      (s[..i], sep, s[i + |sep|..])
  }

  /** An empty head in `partition` means the separator starts the string. */
  lemma PartitionAtStart(s: string, sep: string)
    requires sep != ""
    ensures (Partition(s, sep).1 != "" && Partition(s, sep).0 == "") <==> StartsWith(s, sep)
    ensures StartsWith(s, sep) ==> Partition(s, sep).2 == s[|sep|..]
  {
    if StartsWith(s, sep) {
      assert s[0..|sep|] == sep;
    }
  }

  /** Python's `s.split("[")[0]`: the part before the first bracket. */
  function BeforeBracket(s: string): (r: string)
    ensures '[' !in r
    ensures StartsWith(s, r)
    ensures r == s || s[|r|] == '['
  {
    if s == [] || s[0] == '[' then ""
    else [s[0]] + BeforeBracket(s[1..])
  }

  /** Index of the first `c`, for a string that has one. */
  function IndexOf(s: string, c: char): (i: nat)
    requires c in s
    ensures i < |s| && s[i] == c && c !in s[..i]
  {
    if s[0] == c then 0 else 1 + IndexOf(s[1..], c)
  }

  /** Python's `s.splitlines()` for text whose only line break is "\n": a line
      separator at the very end does not start a further, empty line. */
  function SplitLines(s: string): (r: seq<string>)
    ensures forall k :: 0 <= k < |r| ==> '\n' !in r[k]
    ensures r == [] <==> s == []
    decreases |s|
  {
    if s == [] then []
    else if '\n' !in s then [s]
    else
      var i := IndexOf(s, '\n');
      [s[..i]] + SplitLines(s[i + 1..])
  }

  /** Whitespace in the sense of Python's `str.isspace`, restricted to ASCII. */
  predicate IsSpace(c: char)
  {
    c == ' ' || ('\t' <= c <= '\r') || ('\U{1c}' <= c <= '\U{1f}')
  }

  /** Python's `s.rstrip()`: drop trailing whitespace, and nothing else. */
  function RStrip(s: string): (r: string)
    ensures StartsWith(s, r)
    ensures r == [] || !IsSpace(r[|r| - 1])
    ensures forall k :: |r| <= k < |s| ==> IsSpace(s[k])
  {
    if s == [] || !IsSpace(s[|s| - 1]) then s
    else RStrip(s[..|s| - 1])
  }

  /** `list(collections.OrderedDict.fromkeys(s))`: every element once, at its first position. */
  function Dedupe<T(==, !new)>(s: seq<T>): (r: seq<T>)
    ensures forall x :: x in r <==> x in s
    ensures forall i, j :: 0 <= i < j < |r| ==> r[i] != r[j]
    ensures |r| <= |s|
  {
    if s == [] then []
    else
      var d := Dedupe(s[..|s| - 1]);
      assert s == s[..|s| - 1] + [s[|s| - 1]];
      if s[|s| - 1] in d then d else d + [s[|s| - 1]]
  }

  /** The position of the first occurrence of `x` in `s`. */
  function FirstIndex<T(==)>(s: seq<T>, x: T): (i: nat)
    requires x in s
    ensures i < |s| && s[i] == x && x !in s[..i]
  {
    if s[0] == x then 0
    else
      assert s == [s[0]] + s[1..];
      1 + FirstIndex(s[1..], x)
  }

  /** Appending an element does not move the first occurrence of an earlier one. */
  lemma FirstIndexAppend<T>(s: seq<T>, x: T, y: T)
    requires y in s
    ensures FirstIndex(s + [x], y) == FirstIndex(s, y)
  {
    var i := FirstIndex(s, y);
    var k := FirstIndex(s + [x], y);
    assert (s + [x])[..i] == s[..i] && (s + [x])[i] == y;
  }

  /** `Dedupe` keeps the members in the order of their first occurrences in `s`. */
  lemma {:induction false} DedupeOrder<T(!new)>(s: seq<T>)
    ensures forall i, j :: 0 <= i < j < |Dedupe(s)| ==> FirstIndex(s, Dedupe(s)[i]) < FirstIndex(s, Dedupe(s)[j])
  {
    if s != [] {
      var init := s[..|s| - 1];
      var last := s[|s| - 1];
      assert s == init + [last];
      var d := Dedupe(init);
      DedupeOrder(init);
      forall y | y in d ensures FirstIndex(s, y) == FirstIndex(init, y) {
        FirstIndexAppend(init, last, y);
      }
      if last !in d {
        assert last !in init;
        assert FirstIndex(s, last) == |s| - 1;
        assert Dedupe(s) == d + [last];
      }
    }
  }

  /** A sequence of one repeated element deduplicates to that element alone. */
  lemma DedupeConstant<T(!new)>(s: seq<T>)
    ensures s != [] && (forall i :: 0 <= i < |s| ==> s[i] == s[0]) ==> Dedupe(s) == [s[0]]
  {
    if s != [] && (forall i :: 0 <= i < |s| ==> s[i] == s[0]) {
      var d := Dedupe(s);
      assert s[0] in d;
      assert forall x :: x in d ==> x == s[0];
    }
  }
}
