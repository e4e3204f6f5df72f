/** Exact agreement of two reviewers and Cohen's kappa over the relevance grades 0 to 3. */
module Agreement {
  import opened RealBounds
  import opened Wrappers

  const GRADES: seq<int> := [0, 1, 2, 3]

  type GradePair = (int, int)

  ghost predicate Graded(grades: seq<GradePair>) {
    forall i :: 0 <= i < |grades| ==> grades[i].0 in GRADES && grades[i].1 in GRADES
  }

  function Count<T>(xs: seq<T>, p: T -> bool): (n: nat)
    ensures n <= |xs|
  {
    if xs == [] then 0
    else Count(xs[..|xs| - 1], p) + (if p(xs[|xs| - 1]) then 1 else 0)
  }

  function FirstIs(g: int): GradePair -> bool {
    (x: GradePair) => x.0 == g
  }

  function SecondIs(g: int): GradePair -> bool {
    (x: GradePair) => x.1 == g
  }

  function Both(a: int, b: int): GradePair -> bool {
    (x: GradePair) => x.0 == a && x.1 == b
  }

  function Same(): GradePair -> bool {
    (x: GradePair) => x.0 == x.1
  }

  function Any(): GradePair -> bool {
    (x: GradePair) => true
  }

  /** The counters of the two reviewers and the cells of their confusion matrix. */
  function First(grades: seq<GradePair>, g: int): nat {
    Count(grades, FirstIs(g))
  }

  function Second(grades: seq<GradePair>, g: int): nat {
    Count(grades, SecondIs(g))
  }

  function Cell(grades: seq<GradePair>, a: int, b: int): nat {
    Count(grades, Both(a, b))
  }

  function Agreements(grades: seq<GradePair>): nat {
    Count(grades, Same())
  }

  function Sum(gs: seq<int>, f: int -> int): int {
    if gs == [] then 0 else Sum(gs[..|gs| - 1], f) + f(gs[|gs| - 1])
  }

  function SumReal(gs: seq<int>, f: int -> real): real {
    if gs == [] then 0.0 else SumReal(gs[..|gs| - 1], f) + f(gs[|gs| - 1])
  }

  datatype Metrics = Metrics(
    judgments: int, agreements: int, disagreements: int, observed: real, expected: real, kappa: Option<real>)

  datatype AgreementError = EmptyGroup

  /** The share of judgments that would agree on one grade by chance. */
  function Chance(first: int, second: int, n: int): real
    requires n > 0
  {
    (first as real / n as real) * (second as real / n as real)
  }

  function Chances(grades: seq<GradePair>): int -> real
    requires grades != []
  {
    g => Chance(First(grades, g), Second(grades, g), |grades|)
  }

  function MetricsFrom(n: int, a: int, expected: real): Metrics
    requires n > 0
  {
    var observed := a as real / n as real;
    Metrics(n, a, n - a, observed, expected,
            if expected == 1.0 then None else Some((observed - expected) / (1.0 - expected)))
  }

  /** `_agreement_metrics` */
  function Measure(grades: seq<GradePair>): Result<Metrics, AgreementError> {
    if grades == [] then Failure(EmptyGroup)
    else Success(MetricsFrom(|grades|, Agreements(grades), SumReal(GRADES, Chances(grades))))
  }

  predicate Near(a: real, b: real) {
    -0.000000000001 <= a - b <= 0.000000000001
  }

  /** The field bounds and the checks of the metrics' constructor. */
  predicate ValidMetrics(m: Metrics) {
    && m.judgments >= 1 && m.agreements >= 0 && m.disagreements >= 0 && m.agreements + m.disagreements == m.judgments
    && 0.0 <= m.observed <= 1.0 && 0.0 <= m.expected <= 1.0
    && (m.kappa.Some? ==> -1.0 <= m.kappa.value <= 1.0)
    && Near(m.observed, m.agreements as real / m.judgments as real)
    && (if m.expected == 1.0 then m.kappa.None?
        else m.kappa.Some? && Near(m.kappa.value, (m.observed - m.expected) / (1.0 - m.expected)))
  }

  // ---- counting ----

  lemma {:induction false} CountSplits(grades: seq<GradePair>, p: GradePair -> bool, q: GradePair -> bool, both: GradePair -> bool)
    requires forall x: GradePair :: both(x) <==> p(x) && q(x)
    ensures Count(grades, p) + Count(grades, q) <= |grades| + Count(grades, both)
    ensures Count(grades, both) <= Count(grades, p) && Count(grades, both) <= Count(grades, q)
  {
    if grades != [] {
      CountSplits(grades[..|grades| - 1], p, q, both);
    }
  }

  function Bit(b: bool): int {
    if b then 1 else 0
  }

  /** Classes `c(0)` to `c(3)` cover the pairs satisfying `p`, without overlap. */
  lemma {:induction false} CountClasses(grades: seq<GradePair>, p: GradePair -> bool, c: int -> GradePair -> bool)
    requires forall i :: 0 <= i < |grades| ==>
               Bit(p(grades[i])) == Bit(c(0)(grades[i])) + Bit(c(1)(grades[i])) + Bit(c(2)(grades[i])) + Bit(c(3)(grades[i]))
    ensures Count(grades, p) == Count(grades, c(0)) + Count(grades, c(1)) + Count(grades, c(2)) + Count(grades, c(3))
  {
    if grades != [] {
      var before := grades[..|grades| - 1];
      assert forall i :: 0 <= i < |before| ==> before[i] == grades[i];
      CountClasses(before, p, c);
    }
  }

  lemma {:induction false} CountAll(grades: seq<GradePair>, p: GradePair -> bool)
    ensures Count(grades, p) == |grades| <==> forall i :: 0 <= i < |grades| ==> p(grades[i])
  {
    if grades != [] {
      var before := grades[..|grades| - 1];
      CountAll(before, p);
      assert forall i :: 0 <= i < |before| ==> before[i] == grades[i];
    }
  }

  lemma SumOfFour(f: int -> int)
    ensures Sum(GRADES, f) == f(0) + f(1) + f(2) + f(3)
  {
    assert GRADES[..3] == [0, 1, 2] && [0, 1, 2][..2] == [0, 1] && [0, 1][..1] == [0] && [0][..0] == [];
  }

  lemma RowSum(grades: seq<GradePair>, g: int)
    requires Graded(grades) && g in GRADES
    ensures First(grades, g) == Sum(GRADES, h => Cell(grades, g, h))
  {
    CountClasses(grades, FirstIs(g), h => Both(g, h));
    SumOfFour(h => Cell(grades, g, h));
  }

  lemma ColumnSum(grades: seq<GradePair>, g: int)
    requires Graded(grades) && g in GRADES
    ensures Second(grades, g) == Sum(GRADES, h => Cell(grades, h, g))
  {
    CountClasses(grades, SecondIs(g), h => Both(h, g));
    SumOfFour(h => Cell(grades, h, g));
  }

  lemma DiagonalSum(grades: seq<GradePair>)
    requires Graded(grades)
    ensures Agreements(grades) == Sum(GRADES, h => Cell(grades, h, h))
  {
    CountClasses(grades, Same(), h => Both(h, h));
    SumOfFour(h => Cell(grades, h, h));
  }

  lemma FirstTotal(grades: seq<GradePair>)
    requires Graded(grades)
    ensures |grades| == Sum(GRADES, h => First(grades, h))
  {
    CountClasses(grades, Any(), FirstIs);
    CountAll(grades, Any());
    SumOfFour(h => First(grades, h));
  }

  lemma SecondTotal(grades: seq<GradePair>)
    requires Graded(grades)
    ensures |grades| == Sum(GRADES, h => Second(grades, h))
  {
    CountClasses(grades, Any(), SecondIs);
    CountAll(grades, Any());
    SumOfFour(h => Second(grades, h));
  }

  /**
   The confusion matrix reproduces the measured agreement: rows and columns sum to the counters the
   expected agreement is computed from, the diagonal to the agreements, and everything to the judgments.
   */
  lemma ConfusionMarginals(grades: seq<GradePair>, g: int)
    requires Graded(grades) && g in GRADES
    ensures First(grades, g) == Sum(GRADES, h => Cell(grades, g, h))
    ensures Second(grades, g) == Sum(GRADES, h => Cell(grades, h, g))
    ensures Agreements(grades) == Sum(GRADES, h => Cell(grades, h, h))
    ensures |grades| == Sum(GRADES, h => First(grades, h)) == Sum(GRADES, h => Second(grades, h))
  {
    RowSum(grades, g);
    ColumnSum(grades, g);
    DiagonalSum(grades);
    FirstTotal(grades);
    SecondTotal(grades);
  }

  // ---- the bound behind kappa ----

  lemma MulMonotone(x: int, y: int, z: int)
    requires 0 <= x && y <= z
    ensures x * y <= x * z
  {
  }

  lemma SquareOfSum(f: int, s: int)
    ensures 4 * (f * s) <= (f + s) * (f + s)
  {
    assert (f - s) * (f - s) >= 0;
  }

  lemma GradeBound(f: int, s: int, a: int, n: int)
    requires 0 <= a <= f <= n && a <= s <= n && f + s <= n + a
    ensures 4 * (f * s) <= (f + s) * n + 2 * (n * a)
  {
    var p := f + s;
    SquareOfSum(f, s);
    MulMonotone(p, p, n + a);
    MulMonotone(a, p, 2 * n);
    assert p * (n + a) == p * n + p * a;
    assert a * (2 * n) == 2 * (n * a);
  }

  /** The part of the expected agreement that grade `g` contributes, over the square of the judgments. */
  function Product(grades: seq<GradePair>): int -> int {
    g => First(grades, g) * Second(grades, g)
  }

  lemma ProductBound(grades: seq<GradePair>, g: int)
    ensures 4 * Product(grades)(g) <= (First(grades, g) + Second(grades, g)) * |grades| + 2 * (|grades| * Cell(grades, g, g))
  {
    CountSplits(grades, FirstIs(g), SecondIs(g), Both(g, g));
    GradeBound(First(grades, g), Second(grades, g), Cell(grades, g, g), |grades|);
  }

  lemma Distribute(a: int, b: int, n: int)
    ensures (a + b) * n == a * n + b * n && n * (a + b) == n * a + n * b
  {
  }

  ghost predicate Bounded(p: int -> int, f: int -> int, s: int -> int, c: int -> int, n: int, g: int) {
    4 * p(g) <= (f(g) + s(g)) * n + 2 * (n * c(g))
  }

  lemma {:induction false} SumBound(gs: seq<int>, p: int -> int, f: int -> int, s: int -> int, c: int -> int, n: int)
    requires forall i :: 0 <= i < |gs| ==> Bounded(p, f, s, c, n, gs[i])
    ensures 4 * Sum(gs, p) <= (Sum(gs, f) + Sum(gs, s)) * n + 2 * (n * Sum(gs, c))
  {
    if gs != [] {
      var before, g := gs[..|gs| - 1], gs[|gs| - 1];
      SumBound(before, p, f, s, c, n);
      assert Bounded(p, f, s, c, n, gs[|gs| - 1]);
      Distribute(Sum(before, f) + Sum(before, s), f(g) + s(g), n);
      Distribute(Sum(before, c), c(g), n);
    }
  }

  /** Twice the expected agreement is at most one plus the observed agreement, in whole numbers. */
  lemma ProductsBound(grades: seq<GradePair>)
    requires Graded(grades)
    ensures 2 * Sum(GRADES, Product(grades)) <= |grades| * |grades| + |grades| * Agreements(grades)
  {
    var f, s, c := h => First(grades, h), h => Second(grades, h), h => Cell(grades, h, h);
    forall i | 0 <= i < |GRADES| ensures Bounded(Product(grades), f, s, c, |grades|, GRADES[i]) {
      ProductBound(grades, GRADES[i]);
    }
    SumBound(GRADES, Product(grades), f, s, c, |grades|);
    ConfusionMarginals(grades, GRADES[0]);
    Halve(Sum(GRADES, Product(grades)), |grades|, |grades| * Agreements(grades));
  }

  lemma Halve(p: int, n: int, na: int)
    requires 4 * p <= (n + n) * n + 2 * na
    ensures 2 * p <= n * n + na
  {
    Distribute(n, n, n);
  }

  lemma FullProduct(f: int, s: int, n: int)
    requires 0 <= f <= n && 0 <= s <= n
    ensures 0 <= f * s <= f * n
    ensures f * s == f * n ==> f == 0 || s == n
  {
    assert f * (n - s) >= 0;
    assert f > 0 && s < n ==> f * (n - s) > 0;
  }

  lemma {:induction false} SumFull(gs: seq<int>, p: int -> int, f: int -> int, s: int -> int, n: int)
    requires forall i :: 0 <= i < |gs| ==> 0 <= f(gs[i]) <= n && 0 <= s(gs[i]) <= n && p(gs[i]) == f(gs[i]) * s(gs[i])
    ensures 0 <= Sum(gs, p) <= Sum(gs, f) * n
    ensures Sum(gs, p) == Sum(gs, f) * n ==> forall i :: 0 <= i < |gs| ==> f(gs[i]) == 0 || s(gs[i]) == n
  {
    if gs != [] {
      var before, g := gs[..|gs| - 1], gs[|gs| - 1];
      SumFull(before, p, f, s, n);
      FullProduct(f(g), s(g), n);
      Distribute(Sum(before, f), f(g), n);
      assert forall i :: 0 <= i < |before| ==> before[i] == gs[i];
    }
  }

  /** Both reviewers gave the grade `g` every time. */
  ghost predicate Constant(grades: seq<GradePair>, g: int) {
    g in GRADES && forall i :: 0 <= i < |grades| ==> grades[i] == (g, g)
  }

  lemma ConstantCounts(grades: seq<GradePair>, g: int)
    requires g in GRADES
    ensures Constant(grades, g) <==> First(grades, g) == |grades| && Second(grades, g) == |grades|
  {
    CountAll(grades, FirstIs(g));
    CountAll(grades, SecondIs(g));
  }

  /** A grade some pair has first, and which therefore must be all there is when the products are full. */
  lemma FullImpliesConstant(grades: seq<GradePair>, g: int)
    requires Graded(grades) && grades != [] && g == grades[0].0
    requires forall i :: 0 <= i < |GRADES| ==> First(grades, GRADES[i]) == 0 || Second(grades, GRADES[i]) == |grades|
    ensures Constant(grades, g)
  {
    var h := grades[0].1;
    SomeFirst(grades);
    var i :| 0 <= i < |GRADES| && GRADES[i] == g;
    assert Second(grades, g) == |grades|;
    CountAll(grades, SecondIs(g));
    forall j | 0 <= j < |grades| ensures grades[j].0 == g {
      var k :| 0 <= k < |GRADES| && GRADES[k] == grades[j].0;
      SomeFirstAt(grades, j);
      CountAll(grades, SecondIs(grades[j].0));
      assert SecondIs(grades[j].0)(grades[0]) && SecondIs(g)(grades[0]);
    }
    assert forall j :: 0 <= j < |grades| ==> SecondIs(g)(grades[j]);
  }

  lemma SomeFirst(grades: seq<GradePair>)
    requires grades != []
    ensures First(grades, grades[0].0) > 0
  {
    SomeFirstAt(grades, 0);
  }

  lemma {:induction false} SomeFirstAt(grades: seq<GradePair>, j: nat)
    requires j < |grades|
    ensures First(grades, grades[j].0) > 0
  {
    if j < |grades| - 1 {
      SomeFirstAt(grades[..|grades| - 1], j);
    }
  }

  lemma ConstantIsFull(grades: seq<GradePair>, g: int)
    requires Graded(grades) && Constant(grades, g)
    ensures Sum(GRADES, Product(grades)) == |grades| * |grades|
  {
    ConstantCounts(grades, g);
    SumOfFour(Product(grades));
    FirstTotal(grades);
    SecondTotal(grades);
    SumOfFour(h => First(grades, h));
    SumOfFour(h => Second(grades, h));
  }

  /** The products reach the square exactly when one grade was given throughout. */
  lemma ProductsFull(grades: seq<GradePair>)
    requires Graded(grades) && grades != []
    ensures 0 <= Sum(GRADES, Product(grades)) <= |grades| * |grades|
    ensures Sum(GRADES, Product(grades)) == |grades| * |grades| <==> exists g :: Constant(grades, g)
  {
    var f, s := h => First(grades, h), h => Second(grades, h);
    SumFull(GRADES, Product(grades), f, s, |grades|);
    FirstTotal(grades);
    if Sum(GRADES, Product(grades)) == |grades| * |grades| {
      forall i | 0 <= i < |GRADES| ensures First(grades, GRADES[i]) == 0 || Second(grades, GRADES[i]) == |grades| {
        assert f(GRADES[i]) == 0 || s(GRADES[i]) == |grades|;
      }
      FullImpliesConstant(grades, grades[0].0);
    }
    if g :| Constant(grades, g) {
      ConstantIsFull(grades, g);
    }
  }

  // ---- the metrics ----

  lemma ChanceScaled(f: int, s: int, n: int)
    requires n > 0
    ensures Chance(f, s, n) * Square(n) == (f * s) as real
  {
    var x, y, m := f as real / n as real, s as real / n as real, n as real;
    assert x * m == f as real && y * m == s as real;
    assert x * y * (m * m) == (x * m) * (y * m);
    assert (f * s) as real == f as real * s as real;
  }

  function Square(n: int): real {
    n as real * n as real
  }

  lemma DistributeScaled(a: real, b: real, m: real, p: int, q: int)
    requires a * m == p as real && b * m == q as real
    ensures (a + b) * m == (p + q) as real
  {
  }

  /** `x` is the fraction `p` over `m`. */
  function FractionOver(m: real): (real, int) -> bool {
    (x: real, p: int) => x * m == p as real
  }

  ghost predicate Adds(rel: (real, int) -> bool, a: real, p: int, b: real, q: int) {
    rel(a, p) && rel(b, q) ==> rel(a + b, p + q)
  }

  ghost predicate Additive(rel: (real, int) -> bool) {
    rel(0.0, 0) && forall a, p, b, q :: Adds(rel, a, p, b, q)
  }

  lemma FractionsAdd(m: real)
    ensures Additive(FractionOver(m))
  {
    forall a, p, b, q ensures Adds(FractionOver(m), a, p, b, q) {
      if a * m == p as real && b * m == q as real {
        DistributeScaled(a, b, m, p, q);
      }
    }
  }

  /** What relates the terms relates the sums. */
  lemma {:induction false} SumsRelated(gs: seq<int>, x: int -> real, p: int -> int, rel: (real, int) -> bool)
    requires Additive(rel) && forall i :: 0 <= i < |gs| ==> rel(x(gs[i]), p(gs[i]))
    ensures rel(SumReal(gs, x), Sum(gs, p))
  {
    if gs != [] {
      var before, g := gs[..|gs| - 1], gs[|gs| - 1];
      SumsRelated(before, x, p, rel);
      assert Adds(rel, SumReal(before, x), Sum(before, p), x(g), p(g));
    }
  }

  lemma ChanceIsFraction(grades: seq<GradePair>, g: int)
    requires grades != []
    ensures FractionOver(Square(|grades|))(Chances(grades)(g), Product(grades)(g))
  {
    ChanceScaled(First(grades, g), Second(grades, g), |grades|);
  }

  /** Expected agreement is a whole number over the square of the judgments. */
  lemma ExpectedScaled(grades: seq<GradePair>)
    requires grades != []
    ensures FractionOver(Square(|grades|))(SumReal(GRADES, Chances(grades)), Sum(GRADES, Product(grades)))
  {
    FractionsAdd(Square(|grades|));
    forall i | 0 <= i < |GRADES| ensures FractionOver(Square(|grades|))(Chances(grades)(GRADES[i]), Product(grades)(GRADES[i])) {
      ChanceIsFraction(grades, GRADES[i]);
    }
    SumsRelated(GRADES, Chances(grades), Product(grades), FractionOver(Square(|grades|)));
  }

  lemma ScaledBounds(n: int, a: int, p: int, e: real)
    requires n > 0 && 0 <= p <= n * n && 2 * p <= n * n + n * a && e * (n as real * n as real) == p as real
    ensures 0.0 <= e <= 1.0 && (e == 1.0 <==> p == n * n)
    ensures 2.0 * e <= 1.0 + a as real / n as real
  {
    var m, o := n as real * n as real, a as real / n as real;
    assert (n * n) as real == m && m > 0.0;
    assert o * n as real == a as real;
    assert (n * a) as real == n as real * a as real == o * m;
    SignOfFactor(e, m);
    assert (1.0 - e) * m == (n * n - p) as real;
    SignOfFactor(1.0 - e, m);
    assert (1.0 + o - 2.0 * e) * m == (n * n + n * a - 2 * p) as real;
    SignOfFactor(1.0 + o - 2.0 * e, m);
  }

  lemma FractionBounds(n: int, a: int, p: int, e: real)
    requires n > 0 && 0 <= p <= n * n && 2 * p <= n * n + n * a && FractionOver(Square(n))(e, p)
    ensures 0.0 <= e <= 1.0 && (e == 1.0 <==> p == n * n)
    ensures 2.0 * e <= 1.0 + a as real / n as real
  {
    ScaledBounds(n, a, p, e);
  }

  lemma RateOfCount(a: int, n: int)
    requires n > 0 && 0 <= a <= n
    ensures 0.0 <= a as real / n as real <= 1.0
  {
    QuotientBounds(a as real, n as real, 0.0);
    QuotientBounds(a as real, n as real, 1.0);
  }

  lemma KappaBounds(o: real, e: real)
    requires o <= 1.0 && e < 1.0 && 2.0 * e <= 1.0 + o
    ensures -1.0 <= (o - e) / (1.0 - e) <= 1.0
  {
    QuotientBounds(o - e, 1.0 - e, -1.0);
    QuotientBounds(o - e, 1.0 - e, 1.0);
  }

  /** What makes metrics valid: the two bounds on the expected agreement. */
  lemma MetricsFromValid(n: int, a: int, p: int, e: real)
    requires n > 0 && 0 <= a <= n
    requires 0 <= p <= n * n && 2 * p <= n * n + n * a && FractionOver(Square(n))(e, p)
    ensures ValidMetrics(MetricsFrom(n, a, e)) && (MetricsFrom(n, a, e).kappa.None? <==> p == n * n)
  {
    FractionBounds(n, a, p, e);
    RateOfCount(a, n);
    if e != 1.0 {
      KappaBounds(a as real / n as real, e);
    }
  }

  /**
   For every non-empty list of graded pairs the metrics pass their constructor's checks: in particular
   kappa lies between -1 and 1, and it is undefined exactly when both reviewers gave one and the same
   grade throughout.
   */
  lemma MetricsValid(grades: seq<GradePair>)
    requires Graded(grades)
    ensures Measure(grades).Success? <==> grades != []
    ensures Measure(grades).Success? ==>
              && ValidMetrics(Measure(grades).value)
              && (Measure(grades).value.kappa.None? <==> exists g :: Constant(grades, g))
  {
    if grades != [] {
      ProductsBound(grades);
      ProductsFull(grades);
      ExpectedScaled(grades);
      MetricsFromValid(|grades|, Agreements(grades), Sum(GRADES, Product(grades)), SumReal(GRADES, Chances(grades)));
    }
  }
}
