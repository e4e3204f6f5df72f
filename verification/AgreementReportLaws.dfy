/** The agreement report as a whole: it passes its validator, and the order of judgments does not matter to it. */
module AgreementReportLaws {
  import opened Agreement
  import opened AgreementReport
  import opened Lookups
  import opened Ordering
  import opened Sorting

  // ---- counting forgets order ----

  lemma {:induction false} CountWithout<T>(xs: seq<T>, i: nat, p: T -> bool)
    requires i < |xs|
    ensures Count(xs, p) == Count(xs[..i] + xs[i + 1..], p) + Bit(p(xs[i]))
  {
    var n := |xs| - 1;
    if i == n {
      assert xs[..i] + xs[i + 1..] == xs[..n];
    } else {
      var rest := xs[..i] + xs[i + 1..];
      CountWithout(xs[..n], i, p);
      assert rest[..|rest| - 1] == xs[..n][..i] + xs[..n][i + 1..];
      assert rest[|rest| - 1] == xs[n];
    }
  }

  lemma MultisetWithout<T>(xs: seq<T>, i: nat)
    requires i < |xs|
    ensures multiset(xs[..i] + xs[i + 1..]) == multiset(xs) - multiset{xs[i]}
  {
    assert xs == xs[..i] + [xs[i]] + xs[i + 1..];
  }

  lemma {:induction false} CountForgetsOrder<T>(xs: seq<T>, ys: seq<T>, p: T -> bool)
    requires multiset(xs) == multiset(ys)
    ensures Count(xs, p) == Count(ys, p)
    decreases |xs|
  {
    SameMembers(xs, ys);
    if xs != [] {
      var n := |xs| - 1;
      assert xs[n] in ys;
      var i :| 0 <= i < |ys| && ys[i] == xs[n];
      MultisetWithout(ys, i);
      MultisetWithout(xs, n);
      assert xs[..n] + xs[n + 1..] == xs[..n];
      CountForgetsOrder(xs[..n], ys[..i] + ys[i + 1..], p);
      CountWithout(ys, i, p);
    }
  }

  // ---- metrics depend on counts only ----

  ghost predicate SameCounts(a: seq<GradePair>, b: seq<GradePair>) {
    && |a| == |b| && Agreements(a) == Agreements(b)
    && forall g :: First(a, g) == First(b, g) && Second(a, g) == Second(b, g)
  }

  lemma {:induction false} SumsAlike(gs: seq<int>, f: int -> real, h: int -> real)
    requires forall i :: 0 <= i < |gs| ==> f(gs[i]) == h(gs[i])
    ensures SumReal(gs, f) == SumReal(gs, h)
  {
    if gs != [] {
      SumsAlike(gs[..|gs| - 1], f, h);
    }
  }

  lemma MeasuredAlike(a: seq<GradePair>, b: seq<GradePair>)
    requires SameCounts(a, b)
    ensures Measure(a) == Measure(b)
  {
    if a != [] {
      SumsAlike(GRADES, Chances(a), Chances(b));
    }
  }

  /** Rows whose grades satisfy `p`, among those that are selected. */
  function Among(chosen: Row -> bool, p: GradePair -> bool): Row -> bool {
    (r: Row) => chosen(r) && p(r.grades)
  }

  /** `grades` are the grades of the selected rows, in some order. */
  ghost predicate GradesAmong(grades: seq<GradePair>, rows: seq<Row>, chosen: Row -> bool) {
    forall p: GradePair -> bool :: Count(grades, p) == Count(rows, Among(chosen, p))
  }

  lemma {:induction false} CountAny(grades: seq<GradePair>)
    ensures Count(grades, Any()) == |grades|
  {
    CountAll(grades, Any());
  }

  /** Grades of the same rows, permuted, have the same metrics. */
  lemma PermutedMetrics(a: seq<GradePair>, b: seq<GradePair>, rows: seq<Row>, others: seq<Row>, chosen: Row -> bool)
    requires multiset(rows) == multiset(others) && GradesAmong(a, rows, chosen) && GradesAmong(b, others, chosen)
    ensures Measure(a) == Measure(b) && |a| == |b|
  {
    forall p: GradePair -> bool ensures Count(a, p) == Count(b, p) {
      CountForgetsOrder(rows, others, Among(chosen, p));
    }
    CountAny(a);
    CountAny(b);
    MeasuredAlike(a, b);
  }

  // ---- what the groups hold ----

  function Group(groups: Groups, k: string): seq<GradePair> {
    if k in groups then groups[k] else []
  }

  function Everything(): Row -> bool {
    (r: Row) => true
  }

  function Keyed(key: Row -> string, k: string): Row -> bool {
    (r: Row) => key(r) == k
  }

  function Sliced(k: string): Row -> bool {
    (r: Row) => k in r.slices
  }

  /** No row names a slice twice. */
  ghost predicate SlicesDistinct(rows: seq<Row>) {
    forall r, i, j :: r in rows && 0 <= i < j < |r.slices| ==> r.slices[i] != r.slices[j]
  }

  lemma CountNext<T>(xs: seq<T>, x: T, p: T -> bool)
    ensures Count(xs + [x], p) == Count(xs, p) + Bit(p(x))
  {
    assert (xs + [x])[..|xs|] == xs;
  }

  lemma {:induction false} OverallCount(rows: seq<Row>, p: GradePair -> bool)
    ensures Count(GradesOf(rows), p) == Count(rows, Among(Everything(), p))
  {
    if rows != [] {
      OverallCount(rows[..|rows| - 1], p);
      GradesPrefix(rows);
    }
  }

  lemma {:induction false} KeyedCount(rows: seq<Row>, key: Row -> string, k: string, p: GradePair -> bool)
    ensures Count(Group(GroupBy(rows, key), k), p) == Count(rows, Among(Keyed(key, k), p))
  {
    if rows != [] {
      var before, last := rows[..|rows| - 1], rows[|rows| - 1];
      KeyedCount(before, key, k, p);
      CountNext(Group(GroupBy(before, key), k), last.grades, p);
    }
  }

  lemma {:induction false} AddToEachCount(groups: Groups, keys: seq<string>, x: GradePair, k: string, p: GradePair -> bool)
    requires forall i, j :: 0 <= i < j < |keys| ==> keys[i] != keys[j]
    ensures Count(Group(AddToEach(groups, keys, x), k), p) == Count(Group(groups, k), p) + Bit(k in keys && p(x))
  {
    if keys != [] {
      var before, last := keys[..|keys| - 1], keys[|keys| - 1];
      AddToEachCount(groups, before, x, k, p);
      assert keys == before + [last];
      CountNext(Group(AddToEach(groups, before, x), k), x, p);
    }
  }

  lemma {:induction false} SlicedCount(rows: seq<Row>, k: string, p: GradePair -> bool)
    requires SlicesDistinct(rows)
    ensures Count(Group(BySlice(rows), k), p) == Count(rows, Among(Sliced(k), p))
  {
    if rows != [] {
      var before, last := rows[..|rows| - 1], rows[|rows| - 1];
      SlicedCount(before, k, p);
      assert last in rows;
      AddToEachCount(BySlice(before), last.slices, last.grades, k, p);
    }
  }

  lemma GroupsHold(rows: seq<Row>, key: Row -> string, k: string)
    ensures GradesAmong(Group(GroupBy(rows, key), k), rows, Keyed(key, k))
  {
    forall p: GradePair -> bool ensures Count(Group(GroupBy(rows, key), k), p) == Count(rows, Among(Keyed(key, k), p)) {
      KeyedCount(rows, key, k, p);
    }
  }

  lemma SlicesHold(rows: seq<Row>, k: string)
    requires SlicesDistinct(rows)
    ensures GradesAmong(Group(BySlice(rows), k), rows, Sliced(k))
  {
    forall p: GradePair -> bool ensures Count(Group(BySlice(rows), k), p) == Count(rows, Among(Sliced(k), p)) {
      SlicedCount(rows, k, p);
    }
  }

  lemma OverallHolds(rows: seq<Row>)
    ensures GradesAmong(GradesOf(rows), rows, Everything())
  {
    forall p: GradePair -> bool ensures Count(GradesOf(rows), p) == Count(rows, Among(Everything(), p)) {
      OverallCount(rows, p);
    }
  }

  lemma {:induction false} AddToEachSound(groups: Groups, keys: seq<string>, x: GradePair)
    requires SoundGroups(groups) && x.0 in GRADES && x.1 in GRADES
    ensures SoundGroups(AddToEach(groups, keys, x))
  {
    if keys != [] {
      AddToEachSound(groups, keys[..|keys| - 1], x);
      AddToSound(AddToEach(groups, keys[..|keys| - 1], x), keys[|keys| - 1], x);
    }
  }

  /** Every slice has a group with valid metrics, just as every query and source has. */
  lemma {:induction false} SlicesSound(rows: seq<Row>)
    requires Graded(GradesOf(rows))
    ensures SoundGroups(BySlice(rows))
  {
    if rows != [] {
      GradedPrefix(rows);
      SlicesSound(rows[..|rows| - 1]);
      AddToEachSound(BySlice(rows[..|rows| - 1]), rows[|rows| - 1].slices, rows[|rows| - 1].grades);
    }
  }

  // ---- the report ----

  type Measured = map<string, Metrics>

  type Matrix = map<int, map<int, int>>

  datatype Report = Report(
    overall: Metrics, queries: Measured, slices: Measured, sources: Measured, matrix: Matrix, disagreements: seq<Row>)

  function MetricsOf(grades: seq<GradePair>): Metrics
    requires grades != []
  {
    Measure(grades).value
  }

  function MeasureAll(groups: Groups): Measured
    requires forall k :: k in groups ==> groups[k] != []
  {
    map k | k in groups :: MetricsOf(groups[k])
  }

  /** `_agreement_confusion` */
  function MatrixOf(grades: seq<GradePair>): Matrix {
    map a | a in GRADES :: MatrixRow(grades, a)
  }

  function MatrixRow(grades: seq<GradePair>, a: int): map<int, int> {
    map b | b in GRADES :: Cell(grades, a, b)
  }

  predicate ByRowKey(a: Row, b: Row) {
    Less(a.query, b.query) || (a.query == b.query && AtMost(a.document, b.document))
  }

  /** The judgments compared: some, all graded, none of a candidate twice, each in its query's distinct slices. */
  ghost predicate Judged(rows: seq<Row>) {
    rows != [] && Graded(GradesOf(rows)) && Apart(rows, RowKey) && SlicesDistinct(rows)
  }

  lemma GroupsSound(rows: seq<Row>)
    requires Graded(GradesOf(rows))
    ensures SoundGroups(GroupBy(rows, QueryOf)) && SoundGroups(GroupBy(rows, SourceOf)) && SoundGroups(BySlice(rows))
  {
    GroupsPartition(rows, QueryOf);
    GroupsPartition(rows, SourceOf);
    SlicesSound(rows);
  }

  ghost function Assembled(rows: seq<Row>): Report
    requires Judged(rows)
  {
    GroupsSound(rows);
    Report(MetricsOf(GradesOf(rows)), MeasureAll(GroupBy(rows, QueryOf)), MeasureAll(BySlice(rows)),
           MeasureAll(GroupBy(rows, SourceOf)), MatrixOf(GradesOf(rows)), Sort(Disagreements(rows), ByRowKey))
  }

  /** `compare_independent_retrieval_reviews`, from the rows on. */
  method AssembleReport(rows: seq<Row>) returns (r: Report)
    requires Judged(rows)
    ensures r == Assembled(rows)
  {
    GroupsSound(rows);
    var byQuery, bySlice, bySource, disagreements := Collect(rows);
    r := Report(MetricsOf(GradesOf(rows)), MeasureAll(byQuery), MeasureAll(bySlice), MeasureAll(bySource),
                MatrixOf(GradesOf(rows)), Sort(disagreements, ByRowKey));
  }

  // ---- the order of judgments does not matter ----

  lemma GroupsAlike(a: Groups, b: Groups)
    requires SoundGroups(a) && SoundGroups(b)
    requires forall k :: |Group(a, k)| == |Group(b, k)| && Measure(Group(a, k)) == Measure(Group(b, k))
    ensures MeasureAll(a) == MeasureAll(b)
  {
    forall k ensures k in a <==> k in b {
      assert |Group(a, k)| == |Group(b, k)|;
    }
    forall k | k in a ensures MeasureAll(a)[k] == MeasureAll(b)[k] {
      assert Measure(Group(a, k)) == Measure(Group(b, k));
    }
  }

  lemma KeyedAlike(rows: seq<Row>, others: seq<Row>, key: Row -> string)
    requires multiset(rows) == multiset(others) && SoundGroups(GroupBy(rows, key)) && SoundGroups(GroupBy(others, key))
    ensures MeasureAll(GroupBy(rows, key)) == MeasureAll(GroupBy(others, key))
  {
    var a, b := GroupBy(rows, key), GroupBy(others, key);
    forall k ensures |Group(a, k)| == |Group(b, k)| && Measure(Group(a, k)) == Measure(Group(b, k)) {
      GroupsHold(rows, key, k);
      GroupsHold(others, key, k);
      PermutedMetrics(Group(a, k), Group(b, k), rows, others, Keyed(key, k));
    }
    GroupsAlike(a, b);
  }

  lemma SlicedAlike(rows: seq<Row>, others: seq<Row>)
    requires multiset(rows) == multiset(others) && SlicesDistinct(rows) && SlicesDistinct(others)
    requires SoundGroups(BySlice(rows)) && SoundGroups(BySlice(others))
    ensures MeasureAll(BySlice(rows)) == MeasureAll(BySlice(others))
  {
    var a, b := BySlice(rows), BySlice(others);
    forall k ensures |Group(a, k)| == |Group(b, k)| && Measure(Group(a, k)) == Measure(Group(b, k)) {
      SlicesHold(rows, k);
      SlicesHold(others, k);
      PermutedMetrics(Group(a, k), Group(b, k), rows, others, Sliced(k));
    }
    GroupsAlike(a, b);
  }

  lemma CellAlike(rows: seq<Row>, others: seq<Row>, a: int, b: int)
    requires multiset(rows) == multiset(others)
    ensures Cell(GradesOf(rows), a, b) == Cell(GradesOf(others), a, b)
  {
    OverallCount(rows, Both(a, b));
    OverallCount(others, Both(a, b));
    CountForgetsOrder(rows, others, Among(Everything(), Both(a, b)));
  }

  lemma MatrixRowAlike(rows: seq<Row>, others: seq<Row>, a: int)
    requires multiset(rows) == multiset(others)
    ensures MatrixRow(GradesOf(rows), a) == MatrixRow(GradesOf(others), a)
  {
    forall b ensures Cell(GradesOf(rows), a, b) == Cell(GradesOf(others), a, b) {
      CellAlike(rows, others, a, b);
    }
  }

  lemma MatrixAlike(rows: seq<Row>, others: seq<Row>)
    requires multiset(rows) == multiset(others)
    ensures MatrixOf(GradesOf(rows)) == MatrixOf(GradesOf(others))
  {
    forall a ensures MatrixRow(GradesOf(rows), a) == MatrixRow(GradesOf(others), a) {
      MatrixRowAlike(rows, others, a);
    }
  }

  lemma {:induction false} DisagreementMultiset(rows: seq<Row>, x: Row)
    ensures multiset(Disagreements(rows))[x] == if x.grades.0 != x.grades.1 then multiset(rows)[x] else 0
  {
    if rows != [] {
      var before, last := rows[..|rows| - 1], rows[|rows| - 1];
      DisagreementMultiset(before, x);
      assert rows == before + [last];
    }
  }

  lemma RowKeyRanks()
    ensures Ranks(ByRowKey)
  {
    forall a: Row, b: Row ensures ByRowKey(a, b) || ByRowKey(b, a) {
      LessTotal(a.query, b.query);
      LessTotal(a.document, b.document);
    }
    forall a: Row, b: Row, c: Row | ByRowKey(a, b) && ByRowKey(b, c) ensures ByRowKey(a, c) {
      AtMostTransitive(a.query, b.query, c.query);
      LessIrreflexive(b.query);
      if a.query == b.query == c.query {
        AtMostTransitive(a.document, b.document, c.document);
      }
    }
  }

  lemma SameRowKey(a: Row, b: Row)
    requires ByRowKey(a, b) && ByRowKey(b, a)
    ensures RowKey(a) == RowKey(b)
  {
    if Less(a.query, b.query) {
      LessAsymmetric(a.query, b.query);
    } else {
      LessIrreflexive(a.query);
      AtMostAntisymmetric(a.document, b.document);
    }
  }

  lemma {:induction false} DisagreementRows(rows: seq<Row>)
    ensures forall x :: x in Disagreements(rows) <==> x in rows && x.grades.0 != x.grades.1
  {
    forall x ensures x in Disagreements(rows) <==> x in rows && x.grades.0 != x.grades.1 {
      DisagreementMultiset(rows, x);
      assert x in Disagreements(rows) <==> x in multiset(Disagreements(rows));
      assert x in rows <==> x in multiset(rows);
    }
  }

  lemma DisagreementsAlike(rows: seq<Row>, others: seq<Row>)
    requires multiset(rows) == multiset(others) && Apart(rows, RowKey)
    ensures Sort(Disagreements(rows), ByRowKey) == Sort(Disagreements(others), ByRowKey)
  {
    var a, b := Disagreements(rows), Disagreements(others);
    forall x ensures multiset(a)[x] == multiset(b)[x] {
      DisagreementMultiset(rows, x);
      DisagreementMultiset(others, x);
    }
    assert multiset(a) == multiset(b);
    RowKeyRanks();
    DisagreementRows(rows);
    DistinctPositions(rows, RowKey);
    forall x, y | x in a && y in a && ByRowKey(x, y) && ByRowKey(y, x) ensures x == y {
      SameRowKey(x, y);
      OneWithKey(rows, RowKey, x, y);
    }
    SortForgetsOrder(a, b, ByRowKey);
  }

  /** The judgments in any order give the same report: metrics of every group, matrix and listed disagreements. */
  lemma ReportForgetsOrder(rows: seq<Row>, others: seq<Row>)
    requires Judged(rows) && Judged(others) && multiset(rows) == multiset(others)
    ensures Assembled(rows) == Assembled(others)
  {
    GroupsSound(rows);
    GroupsSound(others);
    OverallHolds(rows);
    OverallHolds(others);
    PermutedMetrics(GradesOf(rows), GradesOf(others), rows, others, Everything());
    KeyedAlike(rows, others, QueryOf);
    KeyedAlike(rows, others, SourceOf);
    SlicedAlike(rows, others);
    MatrixAlike(rows, others);
    DisagreementsAlike(rows, others);
  }

  // ---- the report is valid ----

  /** A cell of the matrix, zero where there is none. */
  function CellOf(m: Matrix, a: int, b: int): int {
    if a in m && b in m[a] then m[a][b] else 0
  }

  function FirstCounts(m: Matrix): int -> int {
    a => Sum(GRADES, b => CellOf(m, a, b))
  }

  function SecondCounts(m: Matrix): int -> int {
    b => Sum(GRADES, a => CellOf(m, a, b))
  }

  function MatrixChances(m: Matrix, n: int): int -> real
    requires n > 0
  {
    g => Chance(FirstCounts(m)(g), SecondCounts(m)(g), n)
  }

  /** Every grade against every grade, nothing negative. */
  ghost predicate MatrixComplete(m: Matrix) {
    && (forall a :: a in m <==> a in GRADES)
    && forall a :: a in m ==> (forall b :: b in m[a] <==> b in GRADES) && forall b :: b in m[a] ==> m[a][b] >= 0
  }

  /** The matrix covers the judgments, its diagonal the agreements, and its marginals give the expected agreement. */
  ghost predicate MatrixConsistent(m: Matrix, overall: Metrics) {
    var n := Sum(GRADES, FirstCounts(m));
    && n == overall.judgments && Sum(GRADES, g => CellOf(m, g, g)) == overall.agreements
    && n > 0 && Near(SumReal(GRADES, MatrixChances(m, n)), overall.expected)
  }

  predicate ValidAll(measured: Measured) {
    forall k :: k in measured ==> ValidMetrics(measured[k])
  }

  /** The judgment counts of all groups together. */
  function JudgmentsIn(keys: seq<string>, measured: Measured): int
    requires forall k | k in keys :: k in measured
  {
    if keys == [] then 0
    else
      assert keys[|keys| - 1] in keys;
      JudgmentsIn(keys[..|keys| - 1], measured) + measured[keys[|keys| - 1]].judgments
  }

  ghost predicate DisagreementsListed(r: Report) {
    && Ordered(r.disagreements, ByRowKey) && Apart(r.disagreements, RowKey)
    && |r.disagreements| == r.overall.disagreements
    && (forall d :: d in r.disagreements ==> d.grades.0 != d.grades.1)
    && (forall a, b :: a in GRADES && b in GRADES && a != b ==>
          CellOf(r.matrix, a, b) == Count(r.disagreements, Among(Everything(), Both(a, b))))
  }

  /** The checks of the constructors of the report, its metrics and its disagreements. */
  ghost predicate ValidReport(r: Report) {
    && ValidMetrics(r.overall) && ValidAll(r.queries) && ValidAll(r.slices) && ValidAll(r.sources)
    && MatrixComplete(r.matrix) && MatrixConsistent(r.matrix, r.overall) && DisagreementsListed(r)
    && JudgmentsIn(SortedKeys(r.queries.Keys), r.queries) == r.overall.judgments
    && JudgmentsIn(SortedKeys(r.sources.Keys), r.sources) == r.overall.judgments
    && forall k :: k in r.slices ==> r.slices[k].judgments <= r.overall.judgments
  }

  lemma {:induction false} SumsEqual(gs: seq<int>, f: int -> int, h: int -> int)
    requires forall i :: 0 <= i < |gs| ==> f(gs[i]) == h(gs[i])
    ensures Sum(gs, f) == Sum(gs, h)
  {
    if gs != [] {
      SumsEqual(gs[..|gs| - 1], f, h);
    }
  }

  lemma CellsOfMatrix(grades: seq<GradePair>, a: int, b: int)
    requires a in GRADES && b in GRADES
    ensures CellOf(MatrixOf(grades), a, b) == Cell(grades, a, b)
  {
  }

  lemma MatrixCounts(grades: seq<GradePair>, g: int)
    requires Graded(grades) && g in GRADES
    ensures FirstCounts(MatrixOf(grades))(g) == First(grades, g) && SecondCounts(MatrixOf(grades))(g) == Second(grades, g)
  {
    var m := MatrixOf(grades);
    forall i | 0 <= i < |GRADES| ensures CellOf(m, g, GRADES[i]) == Cell(grades, g, GRADES[i])
                                         && CellOf(m, GRADES[i], g) == Cell(grades, GRADES[i], g) {
      CellsOfMatrix(grades, g, GRADES[i]);
      CellsOfMatrix(grades, GRADES[i], g);
    }
    SumsEqual(GRADES, b => CellOf(m, g, b), b => Cell(grades, g, b));
    SumsEqual(GRADES, a => CellOf(m, a, g), a => Cell(grades, a, g));
    ConfusionMarginals(grades, g);
  }

  lemma DiagonalOfMatrix(grades: seq<GradePair>)
    requires Graded(grades)
    ensures Sum(GRADES, g => CellOf(MatrixOf(grades), g, g)) == Agreements(grades)
  {
    var m := MatrixOf(grades);
    forall i | 0 <= i < |GRADES| ensures CellOf(m, GRADES[i], GRADES[i]) == Cell(grades, GRADES[i], GRADES[i]) {
      CellsOfMatrix(grades, GRADES[i], GRADES[i]);
    }
    SumsEqual(GRADES, g => CellOf(m, g, g), g => Cell(grades, g, g));
    ConfusionMarginals(grades, GRADES[0]);
  }

  lemma MatrixTotal(grades: seq<GradePair>)
    requires Graded(grades)
    ensures Sum(GRADES, FirstCounts(MatrixOf(grades))) == |grades|
  {
    forall i | 0 <= i < |GRADES| ensures FirstCounts(MatrixOf(grades))(GRADES[i]) == First(grades, GRADES[i]) {
      MatrixCounts(grades, GRADES[i]);
    }
    SumsEqual(GRADES, FirstCounts(MatrixOf(grades)), g => First(grades, g));
    ConfusionMarginals(grades, GRADES[0]);
  }

  lemma MatrixExpected(grades: seq<GradePair>)
    requires Graded(grades) && grades != []
    ensures SumReal(GRADES, MatrixChances(MatrixOf(grades), |grades|)) == SumReal(GRADES, Chances(grades))
  {
    var m := MatrixOf(grades);
    forall i | 0 <= i < |GRADES|
      ensures FirstCounts(m)(GRADES[i]) == First(grades, GRADES[i]) && SecondCounts(m)(GRADES[i]) == Second(grades, GRADES[i])
    {
      MatrixCounts(grades, GRADES[i]);
    }
    SumsAlike(GRADES, MatrixChances(m, |grades|), Chances(grades));
  }

  lemma MatrixIsComplete(grades: seq<GradePair>)
    ensures MatrixComplete(MatrixOf(grades))
  {
  }

  lemma MatrixAgrees(grades: seq<GradePair>, overall: Metrics)
    requires Graded(grades) && grades != [] && overall.judgments == |grades| && overall.agreements == Agreements(grades)
    requires overall.expected == SumReal(GRADES, Chances(grades))
    ensures MatrixConsistent(MatrixOf(grades), overall)
  {
    MatrixTotal(grades);
    DiagonalOfMatrix(grades);
    MatrixExpected(grades);
    NearItself(overall.expected);
  }

  lemma NearItself(x: real)
    ensures Near(x, x)
  {
  }

  lemma MeasuredFields(grades: seq<GradePair>)
    requires grades != []
    ensures var m := MetricsOf(grades);
            && m.judgments == |grades| && m.agreements == Agreements(grades)
            && m.disagreements == |grades| - Agreements(grades) && m.expected == SumReal(GRADES, Chances(grades))
  {
  }

  // ---- its groups and disagreements ----

  lemma MeasuredValid(groups: Groups)
    requires SoundGroups(groups)
    ensures ValidAll(MeasureAll(groups))
  {
    forall k | k in groups ensures ValidMetrics(MeasureAll(groups)[k]) {
      MetricsValid(groups[k]);
    }
  }

  function Sizes(keys: seq<string>, groups: Groups): nat {
    if keys == [] then 0 else Sizes(keys[..|keys| - 1], groups) + SizeAt(groups, keys[|keys| - 1])
  }

  lemma {:induction false} SizesWithout(keys: seq<string>, groups: Groups, gone: string)
    requires gone !in keys
    ensures Sizes(keys, groups - {gone}) == Sizes(keys, groups)
  {
    if keys != [] {
      SizesWithout(keys[..|keys| - 1], groups, gone);
    }
  }

  /** `keys` lists the keys of the groups, each once. */
  ghost predicate ListsKeys(keys: seq<string>, groups: Groups) {
    && (forall k :: k in keys <==> k in groups)
    && forall i, j :: 0 <= i < j < |keys| ==> keys[i] != keys[j]
  }

  lemma ListsWithout(keys: seq<string>, groups: Groups)
    requires keys != [] && ListsKeys(keys, groups)
    ensures var before, last := keys[..|keys| - 1], keys[|keys| - 1];
            last in groups && last !in before && ListsKeys(before, groups - {last})
  {
    var before, last := keys[..|keys| - 1], keys[|keys| - 1];
    assert keys == before + [last];
  }

  /** Listed once each, the group sizes add up to the total. */
  lemma {:induction false} TotalByKeys(groups: Groups, keys: seq<string>)
    requires ListsKeys(keys, groups)
    ensures Sizes(keys, groups) == Total(groups)
    decreases |keys|
  {
    if keys == [] {
      assert groups == map[];
    } else {
      var before, last := keys[..|keys| - 1], keys[|keys| - 1];
      ListsWithout(keys, groups);
      TotalPick(groups, last);
      TotalByKeys(groups - {last}, before);
      SizesWithout(before, groups, last);
    }
  }

  lemma {:induction false} JudgmentsAreSizes(groups: Groups, keys: seq<string>)
    requires SoundGroups(groups) && forall k | k in keys :: k in groups
    ensures JudgmentsIn(keys, MeasureAll(groups)) == Sizes(keys, groups)
  {
    if keys != [] {
      assert keys[|keys| - 1] in keys;
      JudgmentsAreSizes(groups, keys[..|keys| - 1]);
      MeasuredFields(groups[keys[|keys| - 1]]);
    }
  }

  lemma SortedKeysDistinct(keys: set<string>)
    ensures forall i, j :: 0 <= i < j < |SortedKeys(keys)| ==> SortedKeys(keys)[i] != SortedKeys(keys)[j]
  {
    forall i, j | 0 <= i < j < |SortedKeys(keys)| ensures SortedKeys(keys)[i] != SortedKeys(keys)[j] {
      LessIrreflexive(SortedKeys(keys)[i]);
    }
  }

  lemma GroupTotals(rows: seq<Row>, key: Row -> string)
    requires Graded(GradesOf(rows)) && SoundGroups(GroupBy(rows, key))
    ensures var measured := MeasureAll(GroupBy(rows, key));
            JudgmentsIn(SortedKeys(measured.Keys), measured) == |rows|
  {
    var groups := GroupBy(rows, key);
    assert MeasureAll(groups).Keys == groups.Keys;
    SortedKeysDistinct(groups.Keys);
    TotalByKeys(groups, SortedKeys(groups.Keys));
    JudgmentsAreSizes(groups, SortedKeys(groups.Keys));
    GroupsPartition(rows, key);
  }

  lemma SliceTotals(rows: seq<Row>, k: string)
    requires SlicesDistinct(rows) && SoundGroups(BySlice(rows)) && k in BySlice(rows)
    ensures MeasureAll(BySlice(rows))[k].judgments <= |rows|
  {
    SlicesBounded(rows, k);
    MeasuredFields(BySlice(rows)[k]);
  }

  lemma SortedApart(rows: seq<Row>)
    requires Apart(rows, RowKey)
    ensures Ordered(Sort(rows, ByRowKey), ByRowKey) && Apart(Sort(rows, ByRowKey), RowKey)
    ensures forall r :: r in Sort(rows, ByRowKey) <==> r in rows
  {
    RowKeyRanks();
    SortOrdered(rows, ByRowKey);
    SortKeepsMembers(rows, ByRowKey);
    DistinctPositions(rows, RowKey);
    DistinctPositions(Sort(rows, ByRowKey), RowKey);
    DistinctForgetsOrder(rows, Sort(rows, ByRowKey), RowKey);
  }

  lemma {:induction false} DisagreementsApart(rows: seq<Row>)
    requires Apart(rows, RowKey)
    ensures Apart(Disagreements(rows), RowKey)
  {
    if rows != [] {
      var before, last := rows[..|rows| - 1], rows[|rows| - 1];
      assert rows == before + [last];
      ApartAppend(before, last, RowKey);
      DisagreementsApart(before);
      DisagreementRows(before);
      ApartAppend(Disagreements(before), last, RowKey);
      if last.grades.0 == last.grades.1 {
        assert Disagreements(rows) == Disagreements(before);
      }
    }
  }

  lemma ListedCells(rows: seq<Row>, a: int, b: int)
    requires a in GRADES && b in GRADES && a != b
    ensures CellOf(MatrixOf(GradesOf(rows)), a, b) == Count(Sort(Disagreements(rows), ByRowKey), Among(Everything(), Both(a, b)))
  {
    CellsOfMatrix(GradesOf(rows), a, b);
    DisagreementCells(rows, a, b);
    OverallCount(Disagreements(rows), Both(a, b));
    CountForgetsOrder(Disagreements(rows), Sort(Disagreements(rows), ByRowKey), Among(Everything(), Both(a, b)));
  }

  lemma AssembledDisagreements(rows: seq<Row>)
    requires Judged(rows)
    ensures DisagreementsListed(Assembled(rows))
  {
    DisagreementsApart(rows);
    SortedApart(Disagreements(rows));
    DisagreementRows(rows);
    DisagreementCount(rows);
    MeasuredFields(GradesOf(rows));
    forall a, b | a in GRADES && b in GRADES && a != b
      ensures CellOf(Assembled(rows).matrix, a, b) == Count(Assembled(rows).disagreements, Among(Everything(), Both(a, b)))
    {
      ListedCells(rows, a, b);
    }
  }

  lemma AssembledMetrics(rows: seq<Row>)
    requires Judged(rows)
    ensures var r := Assembled(rows);
            ValidMetrics(r.overall) && ValidAll(r.queries) && ValidAll(r.slices) && ValidAll(r.sources)
  {
    GroupsSound(rows);
    MetricsValid(GradesOf(rows));
    MeasuredValid(GroupBy(rows, QueryOf));
    MeasuredValid(GroupBy(rows, SourceOf));
    MeasuredValid(BySlice(rows));
  }

  lemma AssembledMatrix(rows: seq<Row>)
    requires Judged(rows)
    ensures MatrixComplete(Assembled(rows).matrix) && MatrixConsistent(Assembled(rows).matrix, Assembled(rows).overall)
  {
    MeasuredFields(GradesOf(rows));
    MatrixIsComplete(GradesOf(rows));
    MatrixAgrees(GradesOf(rows), MetricsOf(GradesOf(rows)));
  }

  lemma AssembledTotals(rows: seq<Row>)
    requires Judged(rows)
    ensures var r := Assembled(rows);
            && JudgmentsIn(SortedKeys(r.queries.Keys), r.queries) == r.overall.judgments
            && JudgmentsIn(SortedKeys(r.sources.Keys), r.sources) == r.overall.judgments
            && forall k :: k in r.slices ==> r.slices[k].judgments <= r.overall.judgments
  {
    GroupsSound(rows);
    MeasuredFields(GradesOf(rows));
    GroupTotals(rows, QueryOf);
    GroupTotals(rows, SourceOf);
    forall k | k in BySlice(rows) ensures MeasureAll(BySlice(rows))[k].judgments <= |rows| {
      SliceTotals(rows, k);
    }
  }

  /** Every report assembled from judgments passes its validators. */
  lemma ReportValid(rows: seq<Row>)
    requires Judged(rows)
    ensures ValidReport(Assembled(rows))
  {
    AssembledMetrics(rows);
    AssembledMatrix(rows);
    AssembledDisagreements(rows);
    AssembledTotals(rows);
  }
}
