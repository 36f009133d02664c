/** Sequence operations that the source takes from JavaScript's Array prototype. */
module Seqs {
  import opened Wrappers

  /** Index of the first element at or after `from` satisfying `p`. */
  function FirstIndexFrom<T>(s: seq<T>, p: T -> bool, from: nat): (r: Option<nat>)
    ensures r.Some? ==> from <= r.value < |s| && p(s[r.value])
    ensures r.Some? ==> forall j :: from <= j < r.value ==> !p(s[j])
    ensures r.None? <==> forall j :: from <= j < |s| ==> !p(s[j])
    decreases |s| - from
  {
    if from >= |s| then None
    else if p(s[from]) then Some(from)
    else FirstIndexFrom(s, p, from + 1)
  }

  /** Index of the first element satisfying `p` (`Array.prototype.findIndex`, as `None` for -1). */
  function FirstIndex<T>(s: seq<T>, p: T -> bool): (r: Option<nat>)
    ensures r.Some? ==> r.value < |s| && p(s[r.value])
    ensures r.Some? ==> forall j :: 0 <= j < r.value ==> !p(s[j])
    ensures r.None? <==> forall j :: 0 <= j < |s| ==> !p(s[j])
  {
    FirstIndexFrom(s, p, 0)
  }

  /** The first element satisfying `p` (`Array.prototype.find`). */
  function Find<T>(s: seq<T>, p: T -> bool): (r: Option<T>)
    ensures r.None? <==> forall x :: x in s ==> !p(x)
    ensures r.Some? ==> r.value in s && p(r.value)
    ensures r.Some? ==> exists i :: 0 <= i < |s| && s[i] == r.value && forall j :: 0 <= j < i ==> !p(s[j])
  {
    match FirstIndex(s, p)
    case None => None
    case Some(i) => Some(s[i])
  }

  /** `FirstIndex` is pinned down by a matching position with no match before it. */
  lemma FirstIndexIs<T>(s: seq<T>, p: T -> bool, i: nat)
    requires i < |s| && p(s[i])
    requires forall j :: 0 <= j < i ==> !p(s[j])
    ensures FirstIndex(s, p) == Some(i)
  {
    var r := FirstIndex(s, p);
    assert r.Some? by {
      assert p(s[i]);
    }
    assert !(r.value < i) && !(r.value > i) by {
      assert forall j :: 0 <= j < i ==> !p(s[j]);
    }
  }

  /** The elements satisfying `p`, in their original order (`Array.prototype.filter`). */
  function Filter<T>(s: seq<T>, p: T -> bool): (r: seq<T>)
    ensures |r| <= |s|
    ensures forall i :: 0 <= i < |r| ==> r[i] in s && p(r[i])
    ensures forall i :: 0 <= i < |s| && p(s[i]) ==> s[i] in r
  {
    if |s| == 0 then []
    else if p(s[0]) then [s[0]] + Filter(s[1..], p)
    else Filter(s[1..], p)
  }

  /** Filtering distributes over concatenation: relative order is kept. */
  lemma {:induction false} FilterAppend<T>(a: seq<T>, b: seq<T>, p: T -> bool)
    ensures Filter(a + b, p) == Filter(a, p) + Filter(b, p)
  {
    if |a| == 0 {
      assert a + b == b;
    } else {
      assert (a + b)[1..] == a[1..] + b;
      FilterAppend(a[1..], b, p);
    }
  }

  /** A filter that rejects nothing returns its input unchanged. */
  lemma {:induction false} FilterKeepsAll<T>(s: seq<T>, p: T -> bool)
    requires forall i :: 0 <= i < |s| ==> p(s[i])
    ensures Filter(s, p) == s
  {
    if |s| > 0 {
      var rest := s[1..];
      assert forall i :: 0 <= i < |rest| ==> rest[i] == s[i + 1];
      FilterKeepsAll(rest, p);
      assert p(s[0]);
      assert s == [s[0]] + rest;
    }
  }

  /** A filter that rejects everything returns the empty sequence. */
  lemma {:induction false} FilterDropsAll<T>(s: seq<T>, p: T -> bool)
    requires forall i :: 0 <= i < |s| ==> !p(s[i])
    ensures Filter(s, p) == []
  {
    if |s| > 0 {
      var rest := s[1..];
      assert forall i :: 0 <= i < |rest| ==> rest[i] == s[i + 1];
      FilterDropsAll(rest, p);
      assert !p(s[0]);
    }
  }

  /** `f` tells the elements of `s` apart: no two positions share an image. */
  predicate InjectiveOn<T, U(==)>(f: T -> U, s: seq<T>)
  {
    forall i, j :: 0 <= i < |s| && 0 <= j < |s| && f(s[i]) == f(s[j]) ==> i == j
  }

  /** Filtering keeps the elements of `s` apart under `f`. */
  lemma {:induction false} FilterInjectiveOn<T, U>(f: T -> U, s: seq<T>, p: T -> bool)
    requires InjectiveOn(f, s)
    ensures InjectiveOn(f, Filter(s, p))
  {
    if |s| > 0 {
      assert InjectiveOn(f, s[1..]) by {
        forall i, j | 0 <= i < |s| - 1 && 0 <= j < |s| - 1 && f(s[1..][i]) == f(s[1..][j])
          ensures i == j
        {
          assert f(s[i + 1]) == f(s[j + 1]);
        }
      }
      FilterInjectiveOn(f, s[1..], p);
      if p(s[0]) {
        var rest := Filter(s[1..], p);
        var r := [s[0]] + rest;
        forall k | 0 <= k < |rest|
          ensures f(rest[k]) != f(s[0])
        {
          var j :| 0 <= j < |s| - 1 && s[1..][j] == rest[k];
          assert s[j + 1] == rest[k];
        }
        forall i, j | 0 <= i < |r| && 0 <= j < |r| && f(r[i]) == f(r[j])
          ensures i == j
        {
          if i > 0 && j > 0 {
            assert r[i] == rest[i - 1] && r[j] == rest[j - 1];
          }
        }
      }
    }
  }

  /** `f` applied to every element (`Array.prototype.map`). */
  function Map<T, U>(f: T -> U, s: seq<T>): (r: seq<U>)
    ensures |r| == |s|
    ensures forall i :: 0 <= i < |s| ==> r[i] == f(s[i])
  {
    seq(|s|, i requires 0 <= i < |s| => f(s[i]))
  }

  /** Mapping distributes over concatenation. */
  lemma MapAppend<T, U>(f: T -> U, a: seq<T>, b: seq<T>)
    ensures Map(f, a + b) == Map(f, a) + Map(f, b)
  {
  }

  /** The prefix of a sequence's full length is the sequence. */
  lemma WholePrefix<T>(s: seq<T>, i: nat)
    requires i == |s|
    ensures s[..i] == s
  {
  }

  /** A non-empty sequence is its prefix followed by its last element. */
  lemma PrefixAndLast<T>(s: seq<T>)
    requires |s| > 0
    ensures s[..|s| - 1] + [s[|s| - 1]] == s
  {
  }

  /** Mapping a non-empty sequence maps its prefix and then its last element. */
  lemma MapSnoc<T, U>(f: T -> U, s: seq<T>)
    requires |s| > 0
    ensures Map(f, s) == Map(f, s[..|s| - 1]) + [f(s[|s| - 1])]
  {
  }

  /** A sequence that agrees with `a` on its positions and then holds just `e` is `a + [e]`. */
  lemma SnocFromParts<T>(a: seq<T>, b: seq<T>, e: T)
    requires |b| == |a| + 1 && b[|a|] == e
    requires forall j :: 0 <= j < |a| ==> b[j] == a[j]
    ensures b == a + [e]
  {
  }

  /** The distinct elements of `s`, each at the place it is first seen. */
  function Distinct<T(==)>(s: seq<T>): (r: seq<T>)
    ensures forall i :: 0 <= i < |r| ==> r[i] in s
    ensures forall i :: 0 <= i < |s| ==> s[i] in r
    ensures forall i, j :: 0 <= i < j < |r| ==> r[i] != r[j]
  {
    if |s| == 0 then []
    else
      var d := Distinct(s[..|s| - 1]);
      if s[|s| - 1] in d then d else d + [s[|s| - 1]]
  }

  /** Appending an element adds it to the distinct elements exactly when it is new. */
  lemma DistinctSnoc<T>(s: seq<T>, x: T)
    ensures Distinct(s + [x]) == if x in s then Distinct(s) else Distinct(s) + [x]
  {
    assert (s + [x])[..|s|] == s;
    assert x in s <==> x in Distinct(s);
  }

  /** Pushing onto the first of a list of lists leaves the others as they were. */
  lemma PushFirst<T>(slots: seq<seq<T>>, e: T)
    requires |slots| >= 1
    ensures slots[0 := slots[0] + [e]] == [slots[0] + [e]] + slots[1..]
  {
  }

  /**
   * When `a` and `b` hold the same elements as `c` and `d`, and `d` is `b`
   * with `x` added, then `a` holds the elements of `c` and `x`.
   */
  lemma ExchangeOne<T>(a: seq<T>, b: seq<T>, c: seq<T>, d: seq<T>, x: T)
    requires multiset(a) + multiset(b) == multiset(c) + multiset(d)
    requires d == b + [x]
    ensures multiset(a) == multiset(c) + multiset{x}
  {
    assert multiset(d) == multiset(b) + multiset{x};
    forall y
      ensures multiset(a)[y] == (multiset(c) + multiset{x})[y]
    {
      assert (multiset(a) + multiset(b))[y] == (multiset(c) + multiset(d))[y];
    }
  }

  /** Concatenation is associative. */
  lemma AppendAssoc<T>(a: seq<T>, b: seq<T>, c: seq<T>)
    ensures a + b + c == a + (b + c)
  {
  }

  /** `f(i, s[i])` for every position `i` of `s`, concatenated in order. */
  function FlatMap<T, U>(f: (nat, T) -> seq<U>, s: seq<T>): seq<U>
  {
    if |s| == 0 then [] else FlatMap(f, s[..|s| - 1]) + f(|s| - 1, s[|s| - 1])
  }

  /** A one-element sequence contributes its element's part. */
  lemma FlatMapSingle<T, U>(f: (nat, T) -> seq<U>, x: T)
    ensures FlatMap(f, [x]) == f(0, x)
  {
    assert [x][..0] == [];
    assert [] + f(0, x) == f(0, x);
  }

  /** One more element adds its part at the end. */
  lemma FlatMapSnoc<T, U>(f: (nat, T) -> seq<U>, s: seq<T>, x: T)
    ensures FlatMap(f, s + [x]) == FlatMap(f, s) + f(|s|, x)
  {
    assert (s + [x])[..|s|] == s;
  }

  /** The prefix of length `k + 1` adds the part of `s[k]` to the prefix of length `k`. */
  lemma FlatMapPrefix<T, U>(f: (nat, T) -> seq<U>, s: seq<T>, k: nat)
    requires k < |s|
    ensures FlatMap(f, s[..k + 1]) == FlatMap(f, s[..k]) + f(k, s[k])
  {
    assert s[..k + 1][..k] == s[..k];
  }

  /** Whatever the part of one element holds is in the whole. */
  lemma {:induction false} InFlatMap<T, U>(f: (nat, T) -> seq<U>, s: seq<T>, k: nat, y: U)
    requires k < |s| && y in f(k, s[k])
    ensures y in FlatMap(f, s)
    decreases |s|
  {
    var n := |s| - 1;
    if k < n {
      assert s[..n][k] == s[k];
      InFlatMap(f, s[..n], k, y);
    }
  }

  /** Whatever the whole holds comes from the part of one element. */
  lemma {:induction false} FlatMapMember<T, U>(f: (nat, T) -> seq<U>, s: seq<T>, y: U) returns (k: nat)
    requires y in FlatMap(f, s)
    ensures k < |s| && y in f(k, s[k])
    decreases |s|
  {
    var n := |s| - 1;
    if y in FlatMap(f, s[..n]) {
      k := FlatMapMember(f, s[..n], y);
      assert s[..n][k] == s[k];
    } else {
      k := n;
    }
  }
}
