/** What an agreement report counts: every figure in it as a number of judgments with some property. */
module AgreementMeaning {
  import opened Agreement
  import opened AgreementReport
  import opened AgreementReportLaws
  import opened Lookups
  import opened Ordering
  import opened RealBounds
  import opened Sorting

  /** The positions of the judgments with this property. */
  function Where(rows: seq<Row>, p: Row -> bool): set<nat> {
    set i: nat | i < |rows| && p(rows[i])
  }

  function HowMany(rows: seq<Row>, chosen: Row -> bool, p: GradePair -> bool): nat {
    |Where(rows, (r: Row) => chosen(r) && p(r.grades))|
  }

  /** How often the two reviewers would give the grade to the same judgment by chance, over the square of the judgments. */
  function ByChance(rows: seq<Row>, chosen: Row -> bool, g: int): nat {
    HowMany(rows, chosen, (x: GradePair) => x.0 == g) * HowMany(rows, chosen, (x: GradePair) => x.1 == g)
  }

  function AllByChance(rows: seq<Row>, chosen: Row -> bool): nat {
    ByChance(rows, chosen, 0) + ByChance(rows, chosen, 1) + ByChance(rows, chosen, 2) + ByChance(rows, chosen, 3)
  }

  /** `x` is the share `p` of `n` times `n`. */
  predicate IsShareOfSquare(x: real, n: nat, p: nat) {
    x * (n as real * n as real) == p as real
  }

  /** The metrics are those of the chosen judgments: counts, observed and expected agreement, and kappa. */
  ghost predicate MetricsOn(m: Metrics, rows: seq<Row>, chosen: Row -> bool) {
    var n := |Where(rows, chosen)|;
    && n > 0 && m.judgments == n
    && m.agreements == HowMany(rows, chosen, (x: GradePair) => x.0 == x.1) && m.disagreements == n - m.agreements
    && m.observed == m.agreements as real / n as real
    && IsShareOfSquare(m.expected, n, AllByChance(rows, chosen))
    && (m.kappa.None? <==> m.expected == 1.0)
    && (m.kappa.Some? ==> m.kappa.value == (m.observed - m.expected) / (1.0 - m.expected))
  }

  /** One group of metrics for every value that some judgment has, over just those judgments. */
  ghost predicate GroupedOn(measured: Measured, rows: seq<Row>, has: (Row, string) -> bool) {
    && (forall k :: k in measured <==> exists r :: r in rows && has(r, k))
    && forall k :: k in measured ==> MetricsOn(measured[k], rows, (r: Row) => has(r, k))
  }

  // ---- counting is counting positions ----

  lemma WhereAppend(rows: seq<Row>, r: Row, p: Row -> bool)
    ensures |Where(rows + [r], p)| == |Where(rows, p)| + if p(r) then 1 else 0
  {
    assert Where(rows + [r], p) == Where(rows, p) + if p(r) then {|rows|} else {};
  }

  lemma {:induction false} CountIsSize(rows: seq<Row>, p: Row -> bool)
    ensures Count(rows, p) == |Where(rows, p)|
  {
    if rows == [] {
      assert Where(rows, p) == {};
    } else {
      var n := |rows| - 1;
      CountIsSize(rows[..n], p);
      WhereAppend(rows[..n], rows[n], p);
      assert rows == rows[..n] + [rows[n]];
    }
  }

  lemma AmongIsSize(grades: seq<GradePair>, rows: seq<Row>, chosen: Row -> bool, p: GradePair -> bool)
    requires GradesAmong(grades, rows, chosen)
    ensures Count(grades, p) == HowMany(rows, chosen, p)
  {
    CountIsSize(rows, Among(chosen, p));
    assert Where(rows, Among(chosen, p)) == Where(rows, (r: Row) => chosen(r) && p(r.grades));
  }

  lemma GroupSize(grades: seq<GradePair>, rows: seq<Row>, chosen: Row -> bool)
    requires GradesAmong(grades, rows, chosen)
    ensures |grades| == |Where(rows, chosen)|
  {
    CountAny(grades);
    AmongIsSize(grades, rows, chosen, Any());
    assert Where(rows, (r: Row) => chosen(r) && Any()(r.grades)) == Where(rows, chosen);
  }

  lemma ProductIsByChance(grades: seq<GradePair>, rows: seq<Row>, chosen: Row -> bool, g: int)
    requires GradesAmong(grades, rows, chosen)
    ensures Product(grades)(g) == ByChance(rows, chosen, g)
  {
    AmongIsSize(grades, rows, chosen, FirstIs(g));
    AmongIsSize(grades, rows, chosen, SecondIs(g));
    assert Where(rows, (r: Row) => chosen(r) && FirstIs(g)(r.grades))
        == Where(rows, (r: Row) => chosen(r) && ((x: GradePair) => x.0 == g)(r.grades));
    assert Where(rows, (r: Row) => chosen(r) && SecondIs(g)(r.grades))
        == Where(rows, (r: Row) => chosen(r) && ((x: GradePair) => x.1 == g)(r.grades));
  }

  lemma AgreementsCounted(grades: seq<GradePair>, rows: seq<Row>, chosen: Row -> bool)
    requires GradesAmong(grades, rows, chosen)
    ensures Agreements(grades) == HowMany(rows, chosen, (x: GradePair) => x.0 == x.1)
  {
    AmongIsSize(grades, rows, chosen, Same());
    assert Where(rows, (r: Row) => chosen(r) && Same()(r.grades))
        == Where(rows, (r: Row) => chosen(r) && ((x: GradePair) => x.0 == x.1)(r.grades));
  }

  lemma FractionIsShare(x: real, n: nat, p: nat)
    requires FractionOver(Square(n))(x, p)
    ensures IsShareOfSquare(x, n, p)
  {
  }

  lemma ProductsCounted(grades: seq<GradePair>, rows: seq<Row>, chosen: Row -> bool)
    requires GradesAmong(grades, rows, chosen)
    ensures Sum(GRADES, Product(grades)) == AllByChance(rows, chosen)
  {
    SumOfFour(Product(grades));
    ProductIsByChance(grades, rows, chosen, 0);
    ProductIsByChance(grades, rows, chosen, 1);
    ProductIsByChance(grades, rows, chosen, 2);
    ProductIsByChance(grades, rows, chosen, 3);
  }

  lemma ExpectedCounted(grades: seq<GradePair>, rows: seq<Row>, chosen: Row -> bool)
    requires GradesAmong(grades, rows, chosen) && grades != []
    ensures IsShareOfSquare(MetricsOf(grades).expected, |grades|, AllByChance(rows, chosen))
  {
    ExpectedScaled(grades);
    ProductsCounted(grades, rows, chosen);
    FractionIsShare(MetricsOf(grades).expected, |grades|, AllByChance(rows, chosen));
  }

  lemma MetricsMeaning(grades: seq<GradePair>, rows: seq<Row>, chosen: Row -> bool)
    requires GradesAmong(grades, rows, chosen) && grades != []
    ensures MetricsOn(MetricsOf(grades), rows, chosen)
  {
    GroupSize(grades, rows, chosen);
    AgreementsCounted(grades, rows, chosen);
    ExpectedCounted(grades, rows, chosen);
  }

  // ---- groups ----

  lemma {:induction false} CountSame(rows: seq<Row>, p: Row -> bool, q: Row -> bool)
    requires forall r :: p(r) <==> q(r)
    ensures Count(rows, p) == Count(rows, q)
  {
    if rows != [] {
      CountSame(rows[..|rows| - 1], p, q);
    }
  }

  /** The same choice of judgments, said otherwise. */
  lemma AmongSame(grades: seq<GradePair>, rows: seq<Row>, chosen: Row -> bool, same: Row -> bool)
    requires GradesAmong(grades, rows, chosen) && forall r :: chosen(r) <==> same(r)
    ensures GradesAmong(grades, rows, same)
  {
    forall p: GradePair -> bool ensures Count(grades, p) == Count(rows, Among(same, p)) {
      CountSame(rows, Among(chosen, p), Among(same, p));
    }
  }

  lemma GroupMeaning(groups: Groups, rows: seq<Row>, k: string, chosen: Row -> bool)
    requires SoundGroups(groups) && GradesAmong(Group(groups, k), rows, chosen)
    ensures k in groups <==> exists r :: r in rows && chosen(r)
    ensures k in groups ==> MetricsOn(MeasureAll(groups)[k], rows, chosen)
  {
    GroupSize(Group(groups, k), rows, chosen);
    if r :| r in rows && chosen(r) {
      var i :| 0 <= i < |rows| && rows[i] == r;
      assert i in Where(rows, chosen);
    }
    if k in groups {
      MetricsMeaning(groups[k], rows, chosen);
      var i :| i in Where(rows, chosen);
      assert rows[i] in rows;
    }
  }

  lemma KeyedMeaning(rows: seq<Row>, key: Row -> string, has: (Row, string) -> bool)
    requires Graded(GradesOf(rows)) && forall r, k :: has(r, k) <==> key(r) == k
    ensures SoundGroups(GroupBy(rows, key)) && GroupedOn(MeasureAll(GroupBy(rows, key)), rows, has)
  {
    GroupsPartition(rows, key);
    var groups := GroupBy(rows, key);
    forall k
      ensures k in groups <==> exists r :: r in rows && has(r, k)
      ensures k in groups ==> MetricsOn(MeasureAll(groups)[k], rows, (r: Row) => has(r, k))
    {
      GroupsHold(rows, key, k);
      AmongSame(Group(groups, k), rows, Keyed(key, k), (r: Row) => has(r, k));
      GroupMeaning(groups, rows, k, (r: Row) => has(r, k));
    }
  }

  lemma SlicedMeaning(rows: seq<Row>, has: (Row, string) -> bool)
    requires Graded(GradesOf(rows)) && SlicesDistinct(rows) && forall r, k :: has(r, k) <==> k in r.slices
    ensures SoundGroups(BySlice(rows)) && GroupedOn(MeasureAll(BySlice(rows)), rows, has)
  {
    SlicesSound(rows);
    var groups := BySlice(rows);
    forall k
      ensures k in groups <==> exists r :: r in rows && has(r, k)
      ensures k in groups ==> MetricsOn(MeasureAll(groups)[k], rows, (r: Row) => has(r, k))
    {
      SlicesHold(rows, k);
      AmongSame(Group(groups, k), rows, Sliced(k), (r: Row) => has(r, k));
      GroupMeaning(groups, rows, k, (r: Row) => has(r, k));
    }
  }

  // ---- the whole report ----

  predicate CellCounts(m: Matrix, rows: seq<Row>, a: int, b: int) {
    a in m && b in m[a] && m[a][b] == HowMany(rows, Everything(), Pair(a, b))
  }

  /** Every pair of grades with the number of judgments that have it. */
  ghost predicate MatrixCountsPairs(m: Matrix, rows: seq<Row>) {
    forall a, b :: 0 <= a <= 3 && 0 <= b <= 3 ==> CellCounts(m, rows, a, b)
  }

  /** The judgments the reviewers disagree on, by query and document. */
  ghost predicate ListsDisagreements(ds: seq<Row>, rows: seq<Row>) {
    && (forall d :: d in ds <==> d in rows && d.grades.0 != d.grades.1)
    && forall i, j :: 0 <= i < j < |ds| ==>
         Less(ds[i].query, ds[j].query) || (ds[i].query == ds[j].query && Less(ds[i].document, ds[j].document))
  }

  function Pair(a: int, b: int): GradePair -> bool {
    (x: GradePair) => x == (a, b)
  }

  lemma CellMeaning(rows: seq<Row>, a: int, b: int)
    requires 0 <= a <= 3 && 0 <= b <= 3
    ensures CellCounts(MatrixOf(GradesOf(rows)), rows, a, b)
  {
    assert GRADES[a] == a && GRADES[b] == b;
    OverallHolds(rows);
    AmongIsSize(GradesOf(rows), rows, Everything(), Both(a, b));
    assert Where(rows, (r: Row) => Everything()(r) && Both(a, b)(r.grades))
        == Where(rows, (r: Row) => Everything()(r) && Pair(a, b)(r.grades));
  }

  lemma MatrixMeaning(rows: seq<Row>)
    ensures MatrixCountsPairs(MatrixOf(GradesOf(rows)), rows)
  {
    forall a, b | 0 <= a <= 3 && 0 <= b <= 3 ensures CellCounts(MatrixOf(GradesOf(rows)), rows, a, b) {
      CellMeaning(rows, a, b);
    }
  }

  lemma DisagreementsMeaning(rows: seq<Row>)
    requires Apart(rows, RowKey)
    ensures ListsDisagreements(Sort(Disagreements(rows), ByRowKey), rows)
  {
    var ds, sorted := Disagreements(rows), Sort(Disagreements(rows), ByRowKey);
    DisagreementRows(rows);
    SortKeepsMembers(ds, ByRowKey);
    RowKeyRanks();
    SortOrdered(ds, ByRowKey);
    DisagreementsApart(rows);
    DistinctPositions(ds, RowKey);
    DistinctForgetsOrder(ds, sorted, RowKey);
    DistinctPositions(sorted, RowKey);
    forall i, j | 0 <= i < j < |sorted|
      ensures Less(sorted[i].query, sorted[j].query)
              || (sorted[i].query == sorted[j].query && Less(sorted[i].document, sorted[j].document))
    {
      assert ByRowKey(sorted[i], sorted[j]) && RowKey(sorted[i]) != RowKey(sorted[j]);
    }
  }

  lemma {:induction false} DisagreementsApart(rows: seq<Row>)
    requires Apart(rows, RowKey)
    ensures Apart(Disagreements(rows), RowKey)
  {
    if rows != [] {
      var before, last := rows[..|rows| - 1], rows[|rows| - 1];
      assert rows == before + [last];
      ApartAppend(before, last, RowKey);
      DisagreementsApart(before);
      DisagreementRows(before);
      ApartAppend(Disagreements(before), last, RowKey);
    }
  }

  lemma OverallMeaning(rows: seq<Row>)
    requires rows != []
    ensures MetricsOn(MetricsOf(GradesOf(rows)), rows, (r: Row) => true)
  {
    OverallHolds(rows);
    AmongSame(GradesOf(rows), rows, Everything(), (r: Row) => true);
    MetricsMeaning(GradesOf(rows), rows, (r: Row) => true);
  }

  /** Every figure of a report: overall, by query, by slice, by source, the matrix, and the disagreements listed. */
  lemma ReportMeaning(rows: seq<Row>)
    requires Judged(rows)
    ensures var r := Assembled(rows);
            && MetricsOn(r.overall, rows, (x: Row) => true)
            && GroupedOn(r.queries, rows, (x: Row, k: string) => x.query == k)
            && GroupedOn(r.slices, rows, (x: Row, k: string) => k in x.slices)
            && GroupedOn(r.sources, rows, (x: Row, k: string) => x.source == k)
            && MatrixCountsPairs(r.matrix, rows) && ListsDisagreements(r.disagreements, rows)
  {
    OverallMeaning(rows);
    KeyedMeaning(rows, QueryOf, (x: Row, k: string) => x.query == k);
    KeyedMeaning(rows, SourceOf, (x: Row, k: string) => x.source == k);
    SlicedMeaning(rows, (x: Row, k: string) => k in x.slices);
    MatrixMeaning(rows);
    DisagreementsMeaning(rows);
  }
}
