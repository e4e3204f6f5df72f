/** The interpolated percentile of scoring reports: order-free, within the data, and monotone. */
module Percentiles {
  import opened Sorting

  predicate NoLarger(a: real, b: real) {
    a <= b
  }

  /** `sorted(float(value) for value in values)` */
  function Ascending(values: seq<real>): (r: seq<real>)
    ensures multiset(r) == multiset(values) && |r| == |values|
  {
    Sort(values, NoLarger)
  }

  /** Where a percentile falls among `n` ranks: between two neighbours, with a weight for the upper one. */
  datatype Spot = Spot(lower: nat, upper: nat, weight: real)

  lemma FractionOf(a: real, f: real)
    requires 0.0 <= a && 0.0 <= f <= 1.0
    ensures 0.0 <= a * f <= a
  {
    assert a * (1.0 - f) >= 0.0;
  }

  function SpotOf(n: nat, fraction: real): (s: Spot)
    requires n >= 1 && 0.0 <= fraction <= 1.0
    ensures s.lower <= s.upper < n && 0.0 <= s.weight <= 1.0
  {
    var position := (n - 1) as real * fraction;
    FractionOf((n - 1) as real, fraction);
    var lower := position.Floor;
    Spot(lower, if lower + 1 < n - 1 then lower + 1 else n - 1, position - lower as real)
  }

  function Mix(a: real, b: real, weight: real): real {
    a * (1.0 - weight) + b * weight
  }

  /** Linear interpolation between the two closest ranks. */
  function Percentile(values: seq<real>, fraction: real): real
    requires values != [] && 0.0 <= fraction <= 1.0
  {
    var ordered, s := Ascending(values), SpotOf(|values|, fraction);
    Mix(ordered[s.lower], ordered[s.upper], s.weight)
  }

  /** A weighted mean keeps the order of its parts. */
  lemma MixMonotone(a: real, b: real, c: real, d: real, w: real)
    requires a <= c && b <= d && 0.0 <= w <= 1.0
    ensures Mix(a, b, w) <= Mix(c, d, w)
  {
    assert (c - a) * (1.0 - w) >= 0.0;
    assert (d - b) * w >= 0.0;
  }

  lemma MixSame(a: real, w: real)
    ensures Mix(a, a, w) == a
  {
  }

  lemma NoLargerRanks()
    ensures Ranks(NoLarger)
  {
  }

  /** The percentile does not depend on the order of the values. */
  lemma PercentileForgetsOrder(values: seq<real>, others: seq<real>, fraction: real)
    requires values != [] && 0.0 <= fraction <= 1.0 && multiset(values) == multiset(others)
    ensures others != [] && Percentile(values, fraction) == Percentile(others, fraction)
  {
    NoLargerRanks();
    SortForgetsOrder(values, others, NoLarger);
    assert |multiset(values)| == |values| && |multiset(others)| == |others|;
  }

  lemma PercentileAtLeast(values: seq<real>, fraction: real, lo: real)
    requires values != [] && 0.0 <= fraction <= 1.0 && forall i :: 0 <= i < |values| ==> lo <= values[i]
    ensures lo <= Percentile(values, fraction)
  {
    SortKeepsMembers(values, NoLarger);
    var ordered, s := Ascending(values), SpotOf(|values|, fraction);
    assert ordered[s.lower] in ordered && ordered[s.upper] in ordered;
    MixMonotone(lo, lo, ordered[s.lower], ordered[s.upper], s.weight);
    MixSame(lo, s.weight);
  }

  /** The percentile lies between any bounds of the values. */
  lemma PercentileWithin(values: seq<real>, fraction: real, lo: real, hi: real)
    requires values != [] && 0.0 <= fraction <= 1.0
    requires forall i :: 0 <= i < |values| ==> lo <= values[i] <= hi
    ensures lo <= Percentile(values, fraction) <= hi
  {
    PercentileAtLeast(values, fraction, lo);
    SortKeepsMembers(values, NoLarger);
    var ordered, s := Ascending(values), SpotOf(|values|, fraction);
    assert ordered[s.lower] in ordered && ordered[s.upper] in ordered;
    MixMonotone(ordered[s.lower], ordered[s.upper], hi, hi, s.weight);
    MixSame(hi, s.weight);
  }

  // ---- order statistics are monotone ----

  ghost predicate Pointwise(xs: seq<real>, ys: seq<real>) {
    |xs| == |ys| && forall i :: 0 <= i < |xs| ==> xs[i] <= ys[i]
  }

  lemma PointwiseCons(x: real, xs: seq<real>, y: real, ys: seq<real>)
    requires x <= y && Pointwise(xs, ys)
    ensures Pointwise([x] + xs, [y] + ys)
  {
  }

  lemma InsertBefore(x: real, xs: seq<real>)
    requires xs != [] && x <= xs[0]
    ensures Insert(x, xs, NoLarger) == [x] + xs
  {
  }

  lemma InsertAfter(x: real, xs: seq<real>)
    requires xs != [] && x > xs[0]
    ensures Insert(x, xs, NoLarger) == [xs[0]] + Insert(x, xs[1..], NoLarger)
  {
  }

  lemma InsertFirst(xs: seq<real>)
    requires Ordered(xs, NoLarger) && xs != []
    ensures Insert(xs[0], xs[1..], NoLarger) == xs
  {
    assert xs == [xs[0]] + xs[1..];
  }

  lemma Tails(xs: seq<real>, ys: seq<real>)
    requires Ordered(xs, NoLarger) && Ordered(ys, NoLarger) && Pointwise(xs, ys) && xs != []
    ensures Ordered(xs[1..], NoLarger) && Ordered(ys[1..], NoLarger) && Pointwise(xs[1..], ys[1..]) && xs[0] <= ys[0]
  {
  }

  /** Inserting a smaller value into smaller ordered values stays smaller at every rank. */
  lemma {:induction false} InsertMonotone(x: real, xs: seq<real>, y: real, ys: seq<real>)
    requires Ordered(xs, NoLarger) && Ordered(ys, NoLarger) && x <= y && Pointwise(xs, ys)
    ensures Pointwise(Insert(x, xs, NoLarger), Insert(y, ys, NoLarger))
    decreases |xs|
  {
    if xs != [] {
      var xt, yt := xs[1..], ys[1..];
      Tails(xs, ys);
      if x <= xs[0] {
        InsertBefore(x, xs);
        if y <= ys[0] {
          InsertBefore(y, ys);
          PointwiseCons(x, xs, y, ys);
        } else {
          InsertAfter(y, ys);
          InsertMonotone(xs[0], xt, y, yt);
          InsertFirst(xs);
          PointwiseCons(x, xs, ys[0], Insert(y, yt, NoLarger));
        }
      } else {
        InsertAfter(x, xs);
        if y <= ys[0] {
          InsertBefore(y, ys);
          InsertMonotone(x, xt, ys[0], yt);
          InsertFirst(ys);
          PointwiseCons(xs[0], Insert(x, xt, NoLarger), y, ys);
        } else {
          InsertAfter(y, ys);
          InsertMonotone(x, xt, y, yt);
          PointwiseCons(xs[0], Insert(x, xt, NoLarger), ys[0], Insert(y, yt, NoLarger));
        }
      }
    }
  }

  lemma {:induction false} SortMonotone(xs: seq<real>, ys: seq<real>)
    requires Pointwise(xs, ys)
    ensures Pointwise(Ascending(xs), Ascending(ys))
  {
    if xs != [] {
      SortMonotone(xs[1..], ys[1..]);
      NoLargerRanks();
      SortOrdered(xs[1..], NoLarger);
      SortOrdered(ys[1..], NoLarger);
      InsertMonotone(xs[0], Ascending(xs[1..]), ys[0], Ascending(ys[1..]));
    }
  }

  /** If no value grows, the percentile does not grow. */
  lemma PercentileMonotone(xs: seq<real>, ys: seq<real>, fraction: real)
    requires xs != [] && Pointwise(xs, ys) && 0.0 <= fraction <= 1.0
    ensures Percentile(xs, fraction) <= Percentile(ys, fraction)
  {
    SortMonotone(xs, ys);
    var a, b, s := Ascending(xs), Ascending(ys), SpotOf(|xs|, fraction);
    MixMonotone(a[s.lower], a[s.upper], b[s.lower], b[s.upper], s.weight);
  }

  // ---- which values a percentile lies between ----

  function Count(xs: seq<real>, p: real -> bool): nat {
    if xs == [] then 0 else (if p(xs[0]) then 1 else 0) + Count(xs[1..], p)
  }

  /** At most `k` values are smaller than `x`, and more than `k` are no larger: it has rank `k`, counting from zero. */
  predicate HasRank(xs: seq<real>, k: nat, x: real) {
    x in xs && Count(xs, v => v < x) <= k < Count(xs, v => v <= x)
  }

  lemma {:induction false} CountInsert(x: real, xs: seq<real>, p: real -> bool)
    ensures Count(Insert(x, xs, NoLarger), p) == (if p(x) then 1 else 0) + Count(xs, p)
  {
    if xs != [] && !NoLarger(x, xs[0]) {
      CountInsert(x, xs[1..], p);
    }
  }

  lemma {:induction false} CountSorted(xs: seq<real>, p: real -> bool)
    ensures Count(Ascending(xs), p) == Count(xs, p)
  {
    if xs != [] {
      CountSorted(xs[1..], p);
      CountInsert(xs[0], Ascending(xs[1..]), p);
    }
  }

  lemma {:induction false} CountUpTo(xs: seq<real>, k: nat, p: real -> bool)
    requires k <= |xs|
    ensures (forall i :: k <= i < |xs| ==> !p(xs[i])) ==> Count(xs, p) <= k
    ensures (forall i :: 0 <= i < k ==> p(xs[i])) ==> Count(xs, p) >= k
  {
    if xs != [] {
      var rest := xs[1..];
      if k > 0 {
        CountUpTo(rest, k - 1, p);
        assert forall i :: 0 <= i < |rest| ==> rest[i] == xs[i + 1];
      } else {
        CountUpTo(rest, 0, p);
        assert forall i :: 0 <= i < |rest| ==> rest[i] == xs[i + 1];
      }
    }
  }

  lemma InOrder(ordered: seq<real>, k: nat)
    requires Ordered(ordered, NoLarger) && k < |ordered|
    ensures forall i :: 0 <= i <= k ==> ordered[i] <= ordered[k]
    ensures forall i :: k <= i < |ordered| ==> ordered[k] <= ordered[i]
  {
    forall i | 0 <= i < k ensures ordered[i] <= ordered[k] {
      assert NoLarger(ordered[i], ordered[k]);
    }
    forall i | k < i < |ordered| ensures ordered[k] <= ordered[i] {
      assert NoLarger(ordered[k], ordered[i]);
    }
  }

  lemma RankOfSorted(values: seq<real>, k: nat)
    requires k < |values|
    ensures HasRank(values, k, Ascending(values)[k])
  {
    var ordered := Ascending(values);
    var x := ordered[k];
    NoLargerRanks();
    SortOrdered(values, NoLarger);
    SortKeepsMembers(values, NoLarger);
    InOrder(ordered, k);
    CountUpTo(ordered, k, v => v < x);
    CountUpTo(ordered, k + 1, v => v <= x);
    CountSorted(values, v => v < x);
    CountSorted(values, v => v <= x);
  }

  /** Where the percentile of `n` values falls, counting ranks from zero. */
  function Position(n: nat, fraction: real): real {
    (n - 1) as real * fraction
  }

  /** `p` lies between the values of rank `k` and the next, as far along as `position` is past `k`. */
  ghost predicate LiesBetween(values: seq<real>, position: real, k: nat, a: real, b: real, p: real) {
    && HasRank(values, k, a) && HasRank(values, if k + 1 < |values| then k + 1 else k, b)
    && k as real <= position < k as real + 1.0 && p == a + (position - k as real) * (b - a)
  }

  lemma MixIsStep(a: real, b: real, w: real)
    ensures Mix(a, b, w) == a + w * (b - a)
  {
  }

  lemma SpotMeaning(n: nat, fraction: real)
    requires n >= 1 && 0.0 <= fraction <= 1.0
    ensures var s := SpotOf(n, fraction);
            && s.lower as real <= Position(n, fraction) < s.lower as real + 1.0
            && s.weight == Position(n, fraction) - s.lower as real
            && s.upper == if s.lower + 1 < n then s.lower + 1 else s.lower
  {
    FractionOf((n - 1) as real, fraction);
  }

  lemma SpotLiesBetween(values: seq<real>, ordered: seq<real>, s: Spot, position: real)
    requires s.lower < |ordered| && s.upper < |ordered|
    requires HasRank(values, s.lower, ordered[s.lower]) && HasRank(values, s.upper, ordered[s.upper])
    requires s.lower as real <= position < s.lower as real + 1.0 && s.weight == position - s.lower as real
    requires s.upper == if s.lower + 1 < |values| then s.lower + 1 else s.lower
    ensures LiesBetween(
              values, position, s.lower, ordered[s.lower], ordered[s.upper], Mix(ordered[s.lower], ordered[s.upper], s.weight))
  {
    MixIsStep(ordered[s.lower], ordered[s.upper], s.weight);
  }

  lemma PercentileAtSpot(values: seq<real>, fraction: real, s: Spot)
    requires values != [] && 0.0 <= fraction <= 1.0 && s == SpotOf(|values|, fraction)
    ensures Percentile(values, fraction) == Mix(Ascending(values)[s.lower], Ascending(values)[s.upper], s.weight)
  {
  }

  /** Which values a percentile lies between, and where, by counting. */
  lemma PercentileMeaning(values: seq<real>, fraction: real) returns (k: nat, a: real, b: real)
    requires values != [] && 0.0 <= fraction <= 1.0
    ensures LiesBetween(values, Position(|values|, fraction), k, a, b, Percentile(values, fraction))
  {
    var ordered, s := Ascending(values), SpotOf(|values|, fraction);
    k, a, b := s.lower, ordered[s.lower], ordered[s.upper];
    RankOfSorted(values, s.lower);
    RankOfSorted(values, s.upper);
    SpotMeaning(|values|, fraction);
    SpotLiesBetween(values, ordered, s, Position(|values|, fraction));
    PercentileAtSpot(values, fraction, s);
  }
}
