/** Sequences as dictionaries: distinct keys, lookups by key, and what permuting the sequence leaves alone. */
module Lookups {
  import opened Wrappers

  function Keys<T, K>(xs: seq<T>, key: T -> K): set<K> {
    if xs == [] then {} else Keys(xs[..|xs| - 1], key) + {key(xs[|xs| - 1])}
  }

  /** `len({key(x) for x in xs}) == len(xs)` */
  predicate DistinctBy<T, K(==)>(xs: seq<T>, key: T -> K) {
    |Keys(xs, key)| == |xs|
  }

  ghost predicate HasKey<T, K>(xs: seq<T>, key: T -> K, k: K) {
    exists x :: x in xs && key(x) == k
  }

  lemma {:induction false} KeysMember<T, K>(xs: seq<T>, key: T -> K, k: K)
    ensures k in Keys(xs, key) <==> HasKey(xs, key, k)
  {
    if xs != [] {
      var before, last := xs[..|xs| - 1], xs[|xs| - 1];
      KeysMember(before, key, k);
      assert xs == before + [last];
      assert forall x :: x in xs <==> x in before || x == last;
    }
  }

  lemma {:induction false} KeysCount<T, K>(xs: seq<T>, key: T -> K)
    ensures |Keys(xs, key)| <= |xs|
  {
    if xs != [] {
      KeysCount(xs[..|xs| - 1], key);
    }
  }

  /** Distinct keys, seen position by position. */
  ghost predicate Apart<T, K>(xs: seq<T>, key: T -> K) {
    forall i, j :: 0 <= i < j < |xs| ==> key(xs[i]) != key(xs[j])
  }

  lemma ApartAppend<T, K>(xs: seq<T>, last: T, key: T -> K)
    ensures Apart(xs + [last], key) <==> Apart(xs, key) && !HasKey(xs, key, key(last))
  {
    var all := xs + [last];
    if Apart(all, key) {
      forall i, j | 0 <= i < j < |xs| ensures key(xs[i]) != key(xs[j]) {
        assert all[i] == xs[i] && all[j] == xs[j];
      }
      forall x | x in xs ensures key(x) != key(last) {
        var i :| 0 <= i < |xs| && xs[i] == x;
        assert all[i] == x && all[|xs|] == last;
      }
    }
    if Apart(xs, key) && !HasKey(xs, key, key(last)) {
      forall i, j | 0 <= i < j < |all| ensures key(all[i]) != key(all[j]) {
        assert all[i] == xs[i] && xs[i] in xs;
      }
    }
  }

  lemma {:induction false} DistinctPositions<T, K>(xs: seq<T>, key: T -> K)
    ensures DistinctBy(xs, key) <==> Apart(xs, key)
  {
    if xs != [] {
      var before, last := xs[..|xs| - 1], xs[|xs| - 1];
      DistinctPositions(before, key);
      KeysMember(before, key, key(last));
      KeysCount(before, key);
      ApartAppend(before, last, key);
      assert xs == before + [last];
    }
  }

  lemma SameMembers<T>(xs: seq<T>, ys: seq<T>)
    requires multiset(xs) == multiset(ys)
    ensures |xs| == |ys| && forall x :: x in xs <==> x in ys
  {
    assert |multiset(xs)| == |xs| && |multiset(ys)| == |ys|;
    forall x ensures x in xs <==> x in ys {
      assert x in multiset(xs) <==> x in multiset(ys);
    }
  }

  lemma {:induction false} KeysMove<T, K>(xs: seq<T>, ys: seq<T>, key: T -> K)
    requires forall x :: x in xs ==> x in ys
    ensures Keys(xs, key) <= Keys(ys, key)
  {
    if xs != [] {
      var last := xs[|xs| - 1];
      KeysMove(xs[..|xs| - 1], ys, key);
      assert last in ys && HasKey(ys, key, key(last));
      KeysMember(ys, key, key(last));
    }
  }

  lemma {:induction false} SameKeys<T, K>(xs: seq<T>, ys: seq<T>, key: T -> K)
    requires |xs| == |ys| && forall i :: 0 <= i < |xs| ==> key(xs[i]) == key(ys[i])
    ensures Keys(xs, key) == Keys(ys, key)
  {
    if xs != [] {
      SameKeys(xs[..|xs| - 1], ys[..|ys| - 1], key);
    }
  }

  lemma DistinctForgetsOrder<T, K>(xs: seq<T>, ys: seq<T>, key: T -> K)
    requires multiset(xs) == multiset(ys)
    ensures Keys(xs, key) == Keys(ys, key)
    ensures DistinctBy(xs, key) <==> DistinctBy(ys, key)
  {
    SameMembers(xs, ys);
    KeysMove(xs, ys, key);
    KeysMove(ys, xs, key);
  }

  /** The last element with the key, as a dictionary built from the sequence holds it. */
  function Lookup<T, K(==)>(xs: seq<T>, key: T -> K, k: K): (r: Option<T>)
    ensures r.Some? ==> r.value in xs && key(r.value) == k
    ensures r.None? ==> forall x :: x in xs ==> key(x) != k
  {
    if xs == [] then None
    else if key(xs[|xs| - 1]) == k then Some(xs[|xs| - 1])
    else Lookup(xs[..|xs| - 1], key, k)
  }

  lemma OneWithKey<T, K>(xs: seq<T>, key: T -> K, a: T, b: T)
    requires DistinctBy(xs, key) && a in xs && b in xs && key(a) == key(b)
    ensures a == b
  {
    DistinctPositions(xs, key);
    var i :| 0 <= i < |xs| && xs[i] == a;
    var j :| 0 <= j < |xs| && xs[j] == b;
  }

  lemma LookupForgetsOrder<T, K>(xs: seq<T>, ys: seq<T>, key: T -> K, k: K)
    requires multiset(xs) == multiset(ys) && DistinctBy(xs, key)
    ensures Lookup(xs, key, k) == Lookup(ys, key, k)
  {
    SameMembers(xs, ys);
    var a, b := Lookup(xs, key, k), Lookup(ys, key, k);
    if a.Some? && b.Some? {
      OneWithKey(xs, key, a.value, b.value);
    }
  }

  /** Without repetition, having the same members is being the same multiset. */
  lemma {:induction false} MembersOnce<T>(xs: seq<T>, x: T)
    requires forall i, j :: 0 <= i < j < |xs| ==> xs[i] != xs[j]
    ensures multiset(xs)[x] == if x in xs then 1 else 0
  {
    if xs != [] {
      var before, last := xs[..|xs| - 1], xs[|xs| - 1];
      MembersOnce(before, x);
      assert xs == before + [last];
      assert last !in before;
    }
  }

  lemma SameMultiset<T>(xs: seq<T>, ys: seq<T>)
    requires forall i, j :: 0 <= i < j < |xs| ==> xs[i] != xs[j]
    requires forall i, j :: 0 <= i < j < |ys| ==> ys[i] != ys[j]
    requires forall x :: x in xs <==> x in ys
    ensures multiset(xs) == multiset(ys)
  {
    forall x ensures multiset(xs)[x] == multiset(ys)[x] {
      MembersOnce(xs, x);
      MembersOnce(ys, x);
    }
  }
}
