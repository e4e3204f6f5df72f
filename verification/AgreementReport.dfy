/** The agreement report of two reviews: its groups, its confusion matrix and its disagreements fit together. */
module AgreementReport {
  import opened Agreement
  import opened Wrappers

  /** One candidate both reviewers graded. */
  datatype Row = Row(query: string, document: string, source: string, slices: seq<string>, grades: GradePair)

  type Groups = map<string, seq<GradePair>>

  function GradesOf(rows: seq<Row>): (r: seq<GradePair>)
    ensures |r| == |rows| && forall i :: 0 <= i < |r| ==> r[i] == rows[i].grades
  {
    seq(|rows|, i requires 0 <= i < |rows| => rows[i].grades)
  }

  function AddTo(groups: Groups, k: string, x: GradePair): Groups {
    groups[k := (if k in groups then groups[k] else []) + [x]]
  }

  function GroupBy(rows: seq<Row>, key: Row -> string): Groups {
    if rows == [] then map[]
    else
      var last := rows[|rows| - 1];
      AddTo(GroupBy(rows[..|rows| - 1], key), key(last), last.grades)
  }

  function AddToEach(groups: Groups, keys: seq<string>, x: GradePair): Groups {
    if keys == [] then groups else AddTo(AddToEach(groups, keys[..|keys| - 1], x), keys[|keys| - 1], x)
  }

  function BySlice(rows: seq<Row>): Groups {
    if rows == [] then map[]
    else
      var last := rows[|rows| - 1];
      AddToEach(BySlice(rows[..|rows| - 1]), last.slices, last.grades)
  }

  function Disagreements(rows: seq<Row>): seq<Row> {
    if rows == [] then []
    else
      var last := rows[|rows| - 1];
      Disagreements(rows[..|rows| - 1]) + if last.grades.0 != last.grades.1 then [last] else []
  }

  function QueryOf(r: Row): string {
    r.query
  }

  function SourceOf(r: Row): string {
    r.source
  }

  function RowKey(r: Row): (string, string) {
    (r.query, r.document)
  }

  /** The accumulating loop of `compare_independent_retrieval_reviews`. */
  method Collect(rows: seq<Row>)
    returns (byQuery: Groups, bySlice: Groups, bySource: Groups, disagreements: seq<Row>)
    ensures byQuery == GroupBy(rows, QueryOf) && bySlice == BySlice(rows) && bySource == GroupBy(rows, SourceOf)
    ensures disagreements == Disagreements(rows)
  {
    byQuery, bySlice, bySource, disagreements := map[], map[], map[], [];
    for i := 0 to |rows|
      invariant byQuery == GroupBy(rows[..i], QueryOf) && bySource == GroupBy(rows[..i], SourceOf)
      invariant bySlice == BySlice(rows[..i]) && disagreements == Disagreements(rows[..i])
    {
      assert rows[..i + 1][..i] == rows[..i];
      var row := rows[i];
      byQuery := AddTo(byQuery, row.query, row.grades);
      bySlice := AddSlices(bySlice, row);
      bySource := AddTo(bySource, row.source, row.grades);
      if row.grades.0 != row.grades.1 {
        disagreements := disagreements + [row];
      }
    }
    assert rows[..|rows|] == rows;
  }

  method AddSlices(groups: Groups, row: Row) returns (r: Groups)
    ensures r == AddToEach(groups, row.slices, row.grades)
  {
    r := groups;
    for i := 0 to |row.slices|
      invariant r == AddToEach(groups, row.slices[..i], row.grades)
    {
      assert row.slices[..i + 1][..i] == row.slices[..i];
      r := AddTo(r, row.slices[i], row.grades);
    }
    assert row.slices[..|row.slices|] == row.slices;
  }

  // ---- the groups partition the judgments ----

  ghost function Total(groups: Groups): nat
    decreases |groups|
  {
    if groups == map[] then 0
    else
      var k :| k in groups;
      |groups[k]| + Total(groups - {k})
  }

  lemma {:induction false} TotalPick(groups: Groups, k: string)
    requires k in groups
    ensures Total(groups) == |groups[k]| + Total(groups - {k})
    decreases |groups|
  {
    var j :| j in groups && Total(groups) == |groups[j]| + Total(groups - {j});
    if j != k {
      TotalPick(groups - {j}, k);
      TotalPick(groups - {k}, j);
      assert groups - {j} - {k} == groups - {k} - {j};
    }
  }

  lemma TotalGrows(groups: Groups, k: string, x: GradePair)
    ensures Total(AddTo(groups, k, x)) == Total(groups) + 1
  {
    var after := AddTo(groups, k, x);
    TotalPick(after, k);
    assert after - {k} == groups - {k};
    if k in groups {
      TotalPick(groups, k);
    } else {
      assert groups - {k} == groups;
    }
  }

  /** Every group is non-empty and holds grades only. */
  ghost predicate SoundGroups(groups: Groups) {
    forall k :: k in groups ==> groups[k] != [] && Graded(groups[k])
  }

  lemma AddToSound(groups: Groups, k: string, x: GradePair)
    requires SoundGroups(groups) && x.0 in GRADES && x.1 in GRADES
    ensures SoundGroups(AddTo(groups, k, x))
  {
  }

  lemma GradesPrefix(rows: seq<Row>)
    requires rows != []
    ensures GradesOf(rows)[..|rows| - 1] == GradesOf(rows[..|rows| - 1])
    ensures GradesOf(rows)[|rows| - 1] == rows[|rows| - 1].grades
  {
  }

  lemma GradedPrefix(rows: seq<Row>)
    requires rows != [] && Graded(GradesOf(rows))
    ensures Graded(GradesOf(rows[..|rows| - 1]))
    ensures rows[|rows| - 1].grades.0 in GRADES && rows[|rows| - 1].grades.1 in GRADES
  {
    GradesPrefix(rows);
    assert GradesOf(rows)[|rows| - 1] == rows[|rows| - 1].grades;
    assert forall i :: 0 <= i < |rows| - 1 ==> GradesOf(rows[..|rows| - 1])[i] == GradesOf(rows)[i];
  }

  /** Grouping by any key loses and duplicates nothing, and leaves no group empty. */
  lemma {:induction false} GroupsPartition(rows: seq<Row>, key: Row -> string)
    requires Graded(GradesOf(rows))
    ensures Total(GroupBy(rows, key)) == |rows|
    ensures SoundGroups(GroupBy(rows, key))
  {
    if rows != [] {
      var before, last := rows[..|rows| - 1], rows[|rows| - 1];
      GradedPrefix(rows);
      GroupsPartition(before, key);
      TotalGrows(GroupBy(before, key), key(last), last.grades);
      AddToSound(GroupBy(before, key), key(last), last.grades);
    }
  }

  function SizeAt(groups: Groups, k: string): nat {
    if k in groups then |groups[k]| else 0
  }

  lemma {:induction false} AddToEachSize(groups: Groups, keys: seq<string>, x: GradePair, k: string)
    requires forall i, j :: 0 <= i < j < |keys| ==> keys[i] != keys[j]
    ensures SizeAt(AddToEach(groups, keys, x), k) == SizeAt(groups, k) + if k in keys then 1 else 0
  {
    if keys != [] {
      var before, last := keys[..|keys| - 1], keys[|keys| - 1];
      AddToEachSize(groups, before, x, k);
      assert keys == before + [last];
    }
  }

  /** A slice never counts more judgments than there are, when no row names a slice twice. */
  lemma {:induction false} SlicesBounded(rows: seq<Row>, k: string)
    requires forall r, i, j :: r in rows && 0 <= i < j < |r.slices| ==> r.slices[i] != r.slices[j]
    ensures SizeAt(BySlice(rows), k) <= |rows|
  {
    if rows != [] {
      SlicesBounded(rows[..|rows| - 1], k);
      assert rows[|rows| - 1] in rows;
      AddToEachSize(BySlice(rows[..|rows| - 1]), rows[|rows| - 1].slices, rows[|rows| - 1].grades, k);
    }
  }

  // ---- the disagreements are the off-diagonal cells ----

  lemma {:induction false} DisagreementCount(rows: seq<Row>)
    ensures |Disagreements(rows)| == |rows| - Agreements(GradesOf(rows))
  {
    if rows != [] {
      DisagreementCount(rows[..|rows| - 1]);
      GradesPrefix(rows);
    }
  }

  lemma {:induction false} DisagreementCells(rows: seq<Row>, a: int, b: int)
    requires a != b
    ensures Cell(GradesOf(Disagreements(rows)), a, b) == Cell(GradesOf(rows), a, b)
  {
    if rows != [] {
      var before, last := Disagreements(rows[..|rows| - 1]), rows[|rows| - 1];
      DisagreementCells(rows[..|rows| - 1], a, b);
      GradesPrefix(rows);
      if last.grades.0 != last.grades.1 {
        GradesPrefix(before + [last]);
        assert (before + [last])[..|before|] == before;
      } else {
        assert Disagreements(rows) == before;
      }
    }
  }

  // ---- the order of reviewers does not matter ----

  function Swapped(grades: seq<GradePair>): (r: seq<GradePair>)
    ensures |r| == |grades| && forall i :: 0 <= i < |r| ==> r[i] == (grades[i].1, grades[i].0)
  {
    seq(|grades|, i requires 0 <= i < |grades| => (grades[i].1, grades[i].0))
  }

  lemma {:induction false} CountSwapped(grades: seq<GradePair>, p: GradePair -> bool, q: GradePair -> bool)
    requires forall x: GradePair :: p((x.1, x.0)) == q(x)
    ensures Count(Swapped(grades), p) == Count(grades, q)
  {
    if grades != [] {
      var before := grades[..|grades| - 1];
      CountSwapped(before, p, q);
      assert Swapped(grades)[..|grades| - 1] == Swapped(before);
    }
  }

  lemma {:induction false} ChancesSwapped(gs: seq<int>, grades: seq<GradePair>)
    requires grades != []
    ensures SumReal(gs, Chances(Swapped(grades))) == SumReal(gs, Chances(grades))
  {
    if gs != [] {
      var g := gs[|gs| - 1];
      ChancesSwapped(gs[..|gs| - 1], grades);
      CountSwapped(grades, FirstIs(g), SecondIs(g));
      CountSwapped(grades, SecondIs(g), FirstIs(g));
      ChanceSymmetric(First(grades, g), Second(grades, g), |grades|);
    }
  }

  lemma ChanceSymmetric(f: int, s: int, n: int)
    requires n > 0
    ensures Chance(f, s, n) == Chance(s, f, n)
  {
  }

  /** Which review comes first does not change the metrics. */
  lemma MetricsSymmetric(grades: seq<GradePair>)
    ensures Measure(Swapped(grades)) == Measure(grades)
  {
    if grades != [] {
      CountSwapped(grades, Same(), Same());
      ChancesSwapped(GRADES, grades);
    }
  }
}
