/**
 The order Python puts on strings (code points, left to right, a proper prefix first), and the
 sorting it is used for.  `sorted` over a dictionary's keys is a function of the key *set*.
 */
module Ordering {

  predicate Less(a: string, b: string) {
    |b| > 0 && (|a| == 0 || a[0] < b[0] || (a[0] == b[0] && Less(a[1..], b[1..])))
  }

  predicate AtMost(a: string, b: string) {
    a == b || Less(a, b)
  }

  lemma {:induction false} LessIrreflexive(a: string)
    ensures !Less(a, a)
  {
    if a != [] {
      LessIrreflexive(a[1..]);
    }
  }

  lemma {:induction false} LessTransitive(a: string, b: string, c: string)
    requires Less(a, b) && Less(b, c)
    ensures Less(a, c)
  {
    if a != [] && a[0] == b[0] == c[0] {
      LessTransitive(a[1..], b[1..], c[1..]);
    }
  }

  lemma {:induction false} LessTotal(a: string, b: string)
    ensures a == b || Less(a, b) || Less(b, a)
  {
    if a != [] && b != [] && a[0] == b[0] {
      LessTotal(a[1..], b[1..]);
      assert a == [a[0]] + a[1..] && b == [b[0]] + b[1..];
    }
  }

  lemma LessAsymmetric(a: string, b: string)
    requires Less(a, b)
    ensures !Less(b, a) && a != b
  {
    if Less(b, a) {
      LessTransitive(a, b, a);
    }
    LessIrreflexive(a);
  }

  lemma AtMostTransitive(a: string, b: string, c: string)
    requires AtMost(a, b) && AtMost(b, c)
    ensures AtMost(a, c)
    ensures Less(a, b) || Less(b, c) ==> Less(a, c)
  {
    if a != b && b != c {
      LessTransitive(a, b, c);
    }
  }

  lemma AtMostAntisymmetric(a: string, b: string)
    requires AtMost(a, b) && AtMost(b, a)
    ensures a == b
  {
    if a != b {
      LessAsymmetric(a, b);
    }
  }

  /** A common prefix does not influence the order. */
  lemma {:induction false} LessAfterPrefix(p: string, a: string, b: string)
    ensures Less(p + a, p + b) <==> Less(a, b)
  {
    if p == [] {
      assert p + a == a && p + b == b;
    } else {
      assert (p + a)[1..] == p[1..] + a && (p + b)[1..] == p[1..] + b;
      LessAfterPrefix(p[1..], a, b);
    }
  }

  /** Two different prefixes of one length settle the order whatever follows. */
  lemma {:induction false} LessByPrefix(p: string, q: string, a: string, b: string)
    requires |p| == |q| && p != q
    ensures Less(p + a, q + b) <==> Less(p, q)
  {
    assert p == [p[0]] + p[1..] && q == [q[0]] + q[1..];
    if p[0] == q[0] {
      assert (p + a)[1..] == p[1..] + a && (q + b)[1..] == q[1..] + b;
      LessByPrefix(p[1..], q[1..], a, b);
    }
  }

  // ---- Rank: how many keys precede a key; the measure behind every parent walk ----

  ghost function Below(keys: set<string>, x: string): set<string> {
    set k | k in keys && Less(k, x)
  }

  lemma RankDecreases(keys: set<string>, y: string, x: string)
    requires y in keys && Less(y, x)
    ensures |Below(keys, y)| < |Below(keys, x)|
  {
    LessIrreflexive(y);
    forall k | k in Below(keys, y) ensures k in Below(keys, x) {
      LessTransitive(k, y, x);
    }
    assert y in Below(keys, x) && y !in Below(keys, y);
    StrictSubsetSmaller(Below(keys, y), Below(keys, x));
  }

  lemma StrictSubsetSmaller<T>(a: set<T>, b: set<T>)
    requires a < b
    ensures |a| < |b|
  {
    var x :| x in b && x !in a;
    assert b == (b - a - {x}) + {x} + a;
  }

  // ---- sorted(set) ----

  lemma {:induction false} LeastExists(s: set<string>)
    requires s != {}
    ensures exists m :: m in s && forall x | x in s :: AtMost(m, x)
  {
    var y :| y in s;
    var rest := s - {y};
    if rest == {} {
      assert forall x | x in s :: x in rest || x == y;
    } else {
      LeastExists(rest);
      var m :| m in rest && forall x | x in rest :: AtMost(m, x);
      LessTotal(m, y);
      var least := if AtMost(m, y) then m else y;
      forall x | x in s ensures AtMost(least, x) {
        if x != y && least == y {
          AtMostTransitive(y, m, x);
        }
      }
    }
  }

  lemma LeastUnique(s: set<string>)
    ensures forall m, n | m in s && n in s :: (forall x | x in s :: AtMost(m, x) && AtMost(n, x)) ==> m == n
  {
    forall m, n | m in s && n in s && (forall x | x in s :: AtMost(m, x) && AtMost(n, x))
      ensures m == n
    {
      AtMostAntisymmetric(m, n);
    }
  }

  function Least(s: set<string>): (m: string)
    requires s != {}
    ensures m in s && forall x | x in s :: AtMost(m, x)
  {
    LeastExists(s);
    LeastUnique(s);
    var m :| m in s && forall x | x in s :: AtMost(m, x);
    m
  }

  ghost predicate StrictlyAscending(xs: seq<string>) {
    forall i, j :: 0 <= i < j < |xs| ==> Less(xs[i], xs[j])
  }

  function SortedKeys(s: set<string>): (xs: seq<string>)
    ensures StrictlyAscending(xs)
    ensures forall x :: x in xs <==> x in s
    ensures |xs| == |s|
    decreases |s|
  {
    if s == {} then []
    else
      var m := Least(s);
      var rest := SortedKeys(s - {m});
      assert forall j :: 0 <= j < |rest| ==> rest[j] in rest;
      [m] + rest
  }

  lemma AscendingHead(xs: seq<string>, s: set<string>)
    requires xs != [] && StrictlyAscending(xs)
    requires forall x :: x in xs <==> x in s
    ensures s != {} && xs[0] == Least(s)
  {
    assert xs[0] in xs;
    var m := Least(s);
    assert m in xs;
    var i :| 0 <= i < |xs| && xs[i] == m;
    if i != 0 {
      AtMostAntisymmetric(xs[0], m);
    }
  }

  lemma AscendingTail(xs: seq<string>)
    requires xs != [] && StrictlyAscending(xs)
    ensures StrictlyAscending(xs[1..])
    ensures forall x :: x in xs[1..] <==> x in xs && x != xs[0]
  {
    forall x | x in xs[1..] ensures x in xs && x != xs[0] {
      var j :| 0 <= j < |xs[1..]| && xs[1..][j] == x;
      LessIrreflexive(x);
      assert xs[j + 1] == x;
    }
    forall x | x in xs && x != xs[0] ensures x in xs[1..] {
      var j :| 0 <= j < |xs| && xs[j] == x;
      assert xs[1..][j - 1] == x;
    }
  }

  /** A strictly ascending enumeration of a set is unique. */
  lemma {:induction false} AscendingUnique(xs: seq<string>, s: set<string>)
    requires StrictlyAscending(xs)
    requires forall x :: x in xs <==> x in s
    ensures xs == SortedKeys(s)
    decreases |xs|
  {
    if xs == [] {
      assert forall x :: x !in s;
    } else {
      AscendingHead(xs, s);
      AscendingTail(xs);
      AscendingUnique(xs[1..], s - {xs[0]});
      assert xs == [xs[0]] + xs[1..];
    }
  }
}
