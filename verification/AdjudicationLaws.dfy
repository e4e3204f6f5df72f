/** What adjudication guarantees: whose judgments the final pool holds, that it is valid, and what cannot influence it. */
module AdjudicationLaws {
  import opened Adjudication
  import opened AdjudicationSheet
  import opened Agreement
  import opened AgreementReport
  import opened Lookups
  import opened Ordering
  import opened RetrievalPool
  import opened Sorting
  import opened Wrappers

  // ---- the same place in both reviews ----

  lemma LookupAt<T, K>(xs: seq<T>, key: T -> K, i: nat)
    requires DistinctBy(xs, key) && i < |xs|
    ensures Lookup(xs, key, key(xs[i])) == Some(xs[i])
  {
    assert xs[i] in xs;
    OneWithKey(xs, key, Lookup(xs, key, key(xs[i])).value, xs[i]);
  }

  lemma QueriesAlign(a: Pool, b: Pool, i: nat)
    requires CaptureOf(a) == CaptureOf(b) && i < |a.queries|
    ensures |a.queries| == |b.queries| && CapturedQuery(a.queries[i]) == CapturedQuery(b.queries[i])
    ensures a.queries[i].id == b.queries[i].id && a.queries[i].definition == b.queries[i].definition
    ensures a.queries[i].slices == b.queries[i].slices && |a.queries[i].candidates| == |b.queries[i].candidates|
  {
    assert CaptureOf(a).queries == CaptureOf(b).queries;
    assert CapturedQueries(a.queries)[i] == CapturedQueries(b.queries)[i];
  }

  lemma CandidatesAlign(a: Pool, b: Pool, i: nat, j: nat)
    requires CaptureOf(a) == CaptureOf(b) && i < |a.queries| && j < |a.queries[i].candidates|
    ensures |a.queries| == |b.queries| && |a.queries[i].candidates| == |b.queries[i].candidates|
    ensures Unjudged(a.queries[i].candidates[j]) == Unjudged(b.queries[i].candidates[j])
    ensures a.queries[i].candidates[j].document == b.queries[i].candidates[j].document
  {
    QueriesAlign(a, b, i);
    assert UnjudgedAll(a.queries[i].candidates)[j] == UnjudgedAll(b.queries[i].candidates)[j];
  }

  /** The twin of a candidate is the candidate at the same place in the other review. */
  lemma TwinAt(platform: Platform, first: Pool, second: Pool, i: nat, j: nat)
    requires ValidPool(platform, second) && CaptureOf(first) == CaptureOf(second)
    requires i < |first.queries| && j < |first.queries[i].candidates|
    ensures |first.queries| == |second.queries| && |first.queries[i].candidates| == |second.queries[i].candidates|
    ensures Lookup(second.queries, IdOf, first.queries[i].id) == Some(second.queries[i])
    ensures TwinOf(second, first.queries[i].id, first.queries[i].candidates[j].document) ==
            Some(second.queries[i].candidates[j])
  {
    QueriesAlign(first, second, i);
    CandidatesAlign(first, second, i, j);
    LookupAt(second.queries, IdOf, i);
    assert second.queries[i] in second.queries;
    LookupAt(second.queries[i].candidates, DocumentOf, j);
  }

  lemma CandidatePaired(platform: Platform, first: Pool, second: Pool, i: nat, j: nat)
    requires Reviews(platform, first, second) && i < |first.queries| && j < |first.queries[i].candidates|
    ensures Paired(second, first.queries[i].id, first.queries[i].candidates[j])
  {
    TwinAt(platform, first, second, i, j);
    CandidatesAlign(first, second, i, j);
    assert first.queries[i] in first.queries && first.queries[i].candidates[j] in first.queries[i].candidates;
    assert second.queries[i] in second.queries && second.queries[i].candidates[j] in second.queries[i].candidates;
  }

  lemma DocumentsAlign(first: Pool, second: Pool, i: nat)
    requires CaptureOf(first) == CaptureOf(second) && i < |first.queries|
    ensures |first.queries| == |second.queries|
    ensures Keys(second.queries[i].candidates, DocumentOf) == Keys(first.queries[i].candidates, DocumentOf)
  {
    QueriesAlign(first, second, i);
    var cs, ds := first.queries[i].candidates, second.queries[i].candidates;
    forall j | 0 <= j < |cs| ensures DocumentOf(cs[j]) == DocumentOf(ds[j]) {
      CandidatesAlign(first, second, i, j);
    }
    SameKeys(cs, ds, DocumentOf);
  }

  lemma QueryPaired(platform: Platform, first: Pool, second: Pool, i: nat)
    requires Reviews(platform, first, second) && i < |first.queries|
    ensures QueryComparable(first.queries[i], second)
  {
    var q := first.queries[i];
    QueriesAlign(first, second, i);
    LookupAt(second.queries, IdOf, i);
    DocumentsAlign(first, second, i);
    forall c | c in q.candidates ensures Paired(second, q.id, c) {
      var j :| 0 <= j < |q.candidates| && q.candidates[j] == c;
      CandidatePaired(platform, first, second, i, j);
    }
  }

  lemma IdsAlign(first: Pool, second: Pool)
    requires CaptureOf(first) == CaptureOf(second)
    ensures Keys(second.queries, IdOf) == Keys(first.queries, IdOf)
  {
    assert |CaptureOf(first).queries| == |CaptureOf(second).queries|;
    forall i | 0 <= i < |first.queries| ensures IdOf(first.queries[i]) == IdOf(second.queries[i]) {
      QueriesAlign(first, second, i);
    }
    SameKeys(first.queries, second.queries, IdOf);
  }

  lemma MemberPaired(platform: Platform, first: Pool, second: Pool, q: PooledQuery)
    requires Reviews(platform, first, second) && q in first.queries
    ensures QueryComparable(q, second)
  {
    var i :| 0 <= i < |first.queries| && first.queries[i] == q;
    QueryPaired(platform, first, second, i);
  }

  /** Reviews of one capture always pair up: the checks for changed queries, documents or evidence never fail. */
  lemma ReviewsComparable(platform: Platform, first: Pool, second: Pool)
    requires Reviews(platform, first, second)
    ensures Comparable(first, second)
  {
    IdsAlign(first, second);
    forall q | q in first.queries ensures QueryComparable(q, second) {
      MemberPaired(platform, first, second, q);
    }
  }

  predicate HasCandidates(p: Pool) {
    exists q | q in p.queries :: q.candidates != []
  }

  lemma {:induction false} NoRows(qs: seq<PooledQuery>, other: Pool)
    requires forall q | q in qs :: QueryComparable(q, other)
    ensures RowsOf(qs, other) == [] <==> forall q | q in qs :: q.candidates == []
  {
    if qs != [] {
      var before, last := qs[..|qs| - 1], qs[|qs| - 1];
      assert qs == before + [last] && last in qs && QueryComparable(last, other);
      NoRows(before, other);
      assert |QueryRows(last, last.candidates, other)| == |last.candidates|;
    }
  }

  /** What adjudicating needs besides two reviews. */
  predicate Adjudicable(platform: Platform, first: Pool, second: Pool, lines: seq<Line>, adjudicator: string)
    requires FirstPass(first) && FirstPass(second) && Comparable(first, second)
  {
    var name := platform.text.tidy(adjudicator);
    && HasCandidates(first) && name != "" && |name| <= 200
    && platform.fold(name) != platform.fold(first.review.value.reviewer)
    && platform.fold(name) != platform.fold(second.review.value.reviewer)
    && Accepted(platform.text, KnownOf(platform, first, second), lines, true)
  }

  lemma SettleSucceedsWhen(
    platform: Platform, first: Pool, second: Pool, lines: seq<Line>, adjudicator: string, at: int)
    requires FirstPass(first) && FirstPass(second) && Comparable(first, second)
    requires RowsOf(first.queries, second) == [] <==> !HasCandidates(first)
    ensures Settle(platform, first, second, lines, adjudicator, at).Success? <==>
            Adjudicable(platform, first, second, lines, adjudicator)
  {
  }

  /** Adjudication fails for no other reason than an unfit pair of reviews, adjudicator or sheet. */
  lemma SettleSucceeds(platform: Platform, first: Pool, second: Pool, lines: seq<Line>, adjudicator: string, at: int)
    requires Reviews(platform, first, second)
    ensures Comparable(first, second)
    ensures Settle(platform, first, second, lines, adjudicator, at).Success? <==>
            Adjudicable(platform, first, second, lines, adjudicator)
  {
    ReviewsComparable(platform, first, second);
    NoRows(first.queries, second);
    SettleSucceedsWhen(platform, first, second, lines, adjudicator, at);
  }

  lemma SettleForgetsOrder(
    platform: Platform, first: Pool, second: Pool, lines: seq<Line>, other: seq<Line>, adjudicator: string, at: int)
    requires FirstPass(first) && FirstPass(second) && multiset(lines) == multiset(other)
    ensures Settle(platform, first, second, other, adjudicator, at) == Settle(platform, first, second, lines, adjudicator, at)
  {
    if Comparable(first, second) {
      var known := KnownOf(platform, first, second);
      if Accepted(platform.text, known, lines, true) {
        SheetForgetsOrder(platform.text, known, lines, other, true);
      } else if Accepted(platform.text, known, other, true) {
        SheetForgetsOrder(platform.text, known, other, lines, true);
      }
    }
  }

  /** Neither the order of the reviews nor the order of the lines matters, for the pool or for the report. */
  lemma AdjudicationForgetsOrder(
    platform: Platform, a: Pool, b: Pool, lines: seq<Line>, other: seq<Line>, adjudicator: string, at: int)
    requires multiset(lines) == multiset(other)
    ensures Adjudicate(platform, b, a, other, adjudicator, at) == Adjudicate(platform, a, b, lines, adjudicator, at)
  {
    CanonicalEitherWay(platform, a, b);
    if Canonical(platform, a, b).Success? {
      var (first, second) := Canonical(platform, a, b).value;
      SettleForgetsOrder(platform, first, second, lines, other, adjudicator, at);
    }
  }

  // ---- whose judgments the final pool holds ----

  lemma {:induction false} FinalAt(entries: map<Key, Entry>, qs: seq<PooledQuery>, other: Pool, i: nat)
    requires CanSettleAll(entries, qs, other) && i < |qs|
    ensures CanSettle(entries, qs[i], qs[i].candidates, other)
    ensures FinalQueries(entries, qs, other)[i] == SettledQuery(entries, qs[i], other)
    decreases |qs|
  {
    assert qs[i] in qs;
    if i < |qs| - 1 {
      FinalAt(entries, qs[..|qs| - 1], other, i);
    }
  }

  /** The decisions of a settled pair of reviews. */
  ghost predicate SettledBy(platform: Platform, first: Pool, second: Pool, lines: seq<Line>, entries: map<Key, Entry>) {
    && Comparable(first, second) && Accepted(platform.text, KnownOf(platform, first, second), lines, true)
    && entries == Entries(platform.text, KnownOf(platform, first, second), lines, true)
    && CanSettleAll(entries, first.queries, second)
  }

  /** An agreed candidate keeps its grade; a disputed one has the grade and rationale of its line. */
  ghost predicate JudgedBy(text: Text, lines: seq<Line>, query: string, c: Candidate, d: Candidate, final: Candidate) {
    && Unjudged(final) == Unjudged(c)
    && if c.grade == d.grade then final.grade == c.grade && final.rationale == Some(AGREED)
       else exists line :: line in lines && line.Line? && line.key == (query, c.document)
                           && ReadAnswer(text, line, true) == Success(Entry(final.grade, final.rationale))
  }

  lemma LineOfEntry(text: Text, known: map<Key, string>, lines: seq<Line>, k: Key) returns (line: Line)
    requires Accepted(text, known, lines, true) && k in known
    ensures line in lines && line.Line? && line.key == k && k in Entries(text, known, lines, true)
    ensures ReadAnswer(text, line, true) == Success(Entries(text, known, lines, true)[k])
  {
    EntriesByLine(text, known, lines, true);
    KeysMember(lines, KeyOf, k);
    line :| line in lines && KeyOf(line) == k;
    assert Sound(text, known, line, true);
  }

  lemma DisputedKnown(platform: Platform, first: Pool, second: Pool, q: PooledQuery, c: Candidate)
    requires Comparable(first, second) && q in first.queries && c in q.candidates
    ensures Paired(second, q.id, c)
    ensures c.grade != TwinOf(second, q.id, c.document).value.grade ==> (q.id, c.document) in KnownOf(platform, first, second)
  {
    RowListed(first.queries, second, q, c);
    var rows, row := RowsOf(first.queries, second), RowOf(q, c, second);
    DisagreementsListed(rows, row);
    KeysMember(Disagreements(rows), RowKey, RowKey(row));
  }

  /** One candidate, its twin, and how it was settled. */
  lemma SettledJudged(
    platform: Platform, first: Pool, second: Pool, lines: seq<Line>, entries: map<Key, Entry>, q: PooledQuery, c: Candidate)
    requires SettledBy(platform, first, second, lines, entries) && q in first.queries && c in q.candidates
    ensures Paired(second, q.id, c) && Settles(entries, RowOf(q, c, second))
    ensures JudgedBy(platform.text, lines, q.id, c, TwinOf(second, q.id, c.document).value,
                     Settled(entries, RowOf(q, c, second), c))
  {
    DisputedKnown(platform, first, second, q, c);
    if c.grade != TwinOf(second, q.id, c.document).value.grade {
      var line := LineOfEntry(platform.text, KnownOf(platform, first, second), lines, (q.id, c.document));
    }
  }

  lemma CandidateJudged(
    platform: Platform, first: Pool, second: Pool, lines: seq<Line>, entries: map<Key, Entry>, i: nat, j: nat)
    requires Reviews(platform, first, second) && SettledBy(platform, first, second, lines, entries)
    requires i < |first.queries| && j < |first.queries[i].candidates|
    ensures |first.queries| == |second.queries| && |first.queries[i].candidates| == |second.queries[i].candidates|
    ensures var final := FinalQueries(entries, first.queries, second)[i];
            && CapturedQuery(final) == CapturedQuery(first.queries[i])
            && JudgedBy(platform.text, lines, final.id, first.queries[i].candidates[j], second.queries[i].candidates[j],
                        final.candidates[j])
  {
    var q, c := first.queries[i], first.queries[i].candidates[j];
    assert q in first.queries && c in q.candidates;
    FinalAt(entries, first.queries, second, i);
    TwinAt(platform, first, second, i, j);
    FinalKeepsQuery(entries, q, second);
    SettledJudged(platform, first, second, lines, entries, q, c);
  }

  lemma FinalKeepsQuery(entries: map<Key, Entry>, q: PooledQuery, other: Pool)
    requires CanSettle(entries, q, q.candidates, other)
    ensures CapturedQuery(SettledQuery(entries, q, other)) == CapturedQuery(q)
  {
    var cs, settled := q.candidates, SettledAll(entries, q, q.candidates, other);
    assert forall j :: 0 <= j < |cs| ==> Unjudged(settled[j]) == Unjudged(cs[j]);
    assert UnjudgedAll(settled) == UnjudgedAll(cs);
  }

  /** What a successful adjudication of two reviews consists of. */
  lemma SettledParts(platform: Platform, first: Pool, second: Pool, lines: seq<Line>, adjudicator: string, at: int)
    returns (entries: map<Key, Entry>, name: string)
    requires FirstPass(first) && FirstPass(second)
    requires Settle(platform, first, second, lines, adjudicator, at).Success?
    ensures SettledBy(platform, first, second, lines, entries)
    ensures platform.fold(name) != platform.fold(first.review.value.reviewer)
    ensures platform.fold(name) != platform.fold(second.review.value.reviewer)
    ensures |name| <= 200 && RowsOf(first.queries, second) != []
    ensures AllSettle(entries, RowsOf(first.queries, second))
    ensures Settle(platform, first, second, lines, adjudicator, at).value ==
            Conclude(platform, first, second, FinalQueries(entries, first.queries, second), RowsOf(first.queries, second),
                     Decisions(entries, RowsOf(first.queries, second)), name, at)
  {
    entries := Entries(platform.text, KnownOf(platform, first, second), lines, true);
    name := platform.text.tidy(adjudicator);
    SheetSettles(platform, first, second, lines);
    RowsSettle(entries, first.queries, second);
  }

  lemma FinalCaptured(entries: map<Key, Entry>, qs: seq<PooledQuery>, other: Pool)
    requires CanSettleAll(entries, qs, other)
    ensures CapturedQueries(FinalQueries(entries, qs, other)) == CapturedQueries(qs)
  {
    var final := FinalQueries(entries, qs, other);
    forall i | 0 <= i < |qs| ensures CapturedQuery(final[i]) == CapturedQuery(qs[i]) {
      FinalAt(entries, qs, other, i);
      FinalKeepsQuery(entries, qs[i], other);
    }
  }

  lemma SettledJudgments(
    platform: Platform, first: Pool, second: Pool, lines: seq<Line>, adjudicator: string, at: int, i: nat, j: nat)
    requires Reviews(platform, first, second) && Settle(platform, first, second, lines, adjudicator, at).Success?
    ensures var pool := Settle(platform, first, second, lines, adjudicator, at).value.pool;
            && CaptureOf(pool) == CaptureOf(first)
            && (i < |first.queries| && j < |first.queries[i].candidates| ==> JudgedAt(platform, first, second, lines, pool, i, j))
  {
    var entries, name := SettledParts(platform, first, second, lines, adjudicator, at);
    FinalCaptured(entries, first.queries, second);
    if i < |first.queries| && j < |first.queries[i].candidates| {
      CandidateJudged(platform, first, second, lines, entries, i, j);
    }
  }

  ghost predicate JudgedAt(platform: Platform, a: Pool, b: Pool, lines: seq<Line>, pool: Pool, i: nat, j: nat) {
    && i < |a.queries| && i < |b.queries| && i < |pool.queries|
    && j < |a.queries[i].candidates| && j < |b.queries[i].candidates| && j < |pool.queries[i].candidates|
    && JudgedBy(platform.text, lines, pool.queries[i].id, a.queries[i].candidates[j], b.queries[i].candidates[j],
                pool.queries[i].candidates[j])
  }

  /** Which review is named first does not matter. */
  lemma JudgedEitherWay(platform: Platform, a: Pool, b: Pool, lines: seq<Line>, pool: Pool, i: nat, j: nat)
    requires CaptureOf(a) == CaptureOf(b) && JudgedAt(platform, b, a, lines, pool, i, j)
    ensures JudgedAt(platform, a, b, lines, pool, i, j)
  {
    CandidatesAlign(a, b, i, j);
  }

  /**
   The final pool is the captured pool with every judgment replaced: where the reviewers agree by their
   grade, elsewhere by what the sheet's line for that candidate says.
   */
  lemma FinalJudgments(
    platform: Platform, a: Pool, b: Pool, lines: seq<Line>, adjudicator: string, at: int, i: nat, j: nat)
    requires ValidPool(platform, a) && ValidPool(platform, b)
    requires Adjudicate(platform, a, b, lines, adjudicator, at).Success?
    ensures var pool := Adjudicate(platform, a, b, lines, adjudicator, at).value.pool;
            && CaptureOf(pool) == CaptureOf(a)
            && (i < |a.queries| && j < |a.queries[i].candidates| ==> JudgedAt(platform, a, b, lines, pool, i, j))
  {
    CanonicalEitherWay(platform, a, b);
    var (first, second) := Canonical(platform, a, b).value;
    SettledJudgments(platform, first, second, lines, adjudicator, at, i, j);
    if i < |a.queries| && j < |a.queries[i].candidates| && first == b {
      CandidatesAlign(a, b, i, j);
      JudgedEitherWay(platform, a, b, lines, Adjudicate(platform, a, b, lines, adjudicator, at).value.pool, i, j);
    }
  }

  // ---- the final pool and its report are valid ----

  ghost predicate AllGraded(p: Pool) {
    forall i, j :: 0 <= i < |p.queries| && 0 <= j < |p.queries[i].candidates| ==> IsGraded(p.queries[i].candidates[j])
  }

  lemma RunsAlign(a: Pool, p: Pool, i: nat)
    requires CaptureOf(a) == CaptureOf(p) && i < |a.queries|
    ensures |a.queries| == |p.queries| && a.queries[i].runs == p.queries[i].runs
    ensures ValidRuns(a.queries[i]) ==> ValidRuns(p.queries[i])
    ensures DistinctBy(a.queries[i].candidates, DocumentOf) ==> DistinctBy(p.queries[i].candidates, DocumentOf)
  {
    QueriesAlign(a, p, i);
    DocumentsAlign(a, p, i);
  }

  lemma GradedQueryValid(a: Pool, p: Pool, i: nat)
    requires CaptureOf(a) == CaptureOf(p) && i < |a.queries| == |p.queries| && AllGraded(p)
    requires ValidRuns(a.queries[i]) && DistinctBy(a.queries[i].candidates, DocumentOf)
    ensures ValidQuery(p.queries[i], true)
  {
    RunsAlign(a, p, i);
  }

  /** A graded pool with the capture of a well-formed one is well-formed. */
  lemma GradedWellFormed(a: Pool, p: Pool)
    requires WellFormed(a) && CaptureOf(a) == CaptureOf(p) && AllGraded(p) && p.review.Some?
    ensures WellFormed(p)
  {
    IdsAlign(a, p);
    assert |CaptureOf(a).queries| == |CaptureOf(p).queries|;
    forall i | 0 <= i < |a.queries| ensures a.queries[i].runs == p.queries[i].runs {
      RunsAlign(a, p, i);
    }
    RunsStayCoherent(a.queries, p.queries);
    forall q | q in p.queries ensures ValidQuery(q, true) {
      var i :| 0 <= i < |p.queries| && p.queries[i] == q;
      assert a.queries[i] in a.queries && ValidQuery(a.queries[i], a.review.Some?);
      GradedQueryValid(a, p, i);
    }
  }

  lemma JudgedIsGraded(text: Text, lines: seq<Line>, query: string, c: Candidate, d: Candidate, final: Candidate)
    requires JudgedBy(text, lines, query, c, d, final) && IsGraded(c)
    ensures IsGraded(final)
  {
    if c.grade != d.grade {
      var line :| line in lines && line.Line? && line.key == (query, c.document)
                  && ReadAnswer(text, line, true) == Success(Entry(final.grade, final.rationale));
    }
  }

  lemma FinalGraded(platform: Platform, first: Pool, second: Pool, lines: seq<Line>, entries: map<Key, Entry>, p: Pool)
    requires Reviews(platform, first, second) && SettledBy(platform, first, second, lines, entries)
    requires p.queries == FinalQueries(entries, first.queries, second) && CaptureOf(p) == CaptureOf(first)
    ensures AllGraded(p)
  {
    forall i, j | 0 <= i < |p.queries| && 0 <= j < |p.queries[i].candidates| ensures IsGraded(p.queries[i].candidates[j]) {
      CandidatesAlign(p, first, i, j);
      CandidateJudged(platform, first, second, lines, entries, i, j);
      assert first.queries[i] in first.queries && first.queries[i].candidates[j] in first.queries[i].candidates;
      JudgedIsGraded(platform.text, lines, p.queries[i].id, first.queries[i].candidates[j],
                     second.queries[i].candidates[j], p.queries[i].candidates[j]);
    }
  }

  /** The final pool passes the checks of its constructors. */
  lemma FinalPoolValid(platform: Platform, a: Pool, b: Pool, lines: seq<Line>, adjudicator: string, at: int)
    requires ValidPool(platform, a) && ValidPool(platform, b)
    requires Adjudicate(platform, a, b, lines, adjudicator, at).Success?
    ensures ValidPool(platform, Adjudicate(platform, a, b, lines, adjudicator, at).value.pool)
  {
    CanonicalEitherWay(platform, a, b);
    var (first, second) := Canonical(platform, a, b).value;
    var pool := Adjudicate(platform, a, b, lines, adjudicator, at).value.pool;
    var entries, name := SettledParts(platform, first, second, lines, adjudicator, at);
    FinalCaptured(entries, first.queries, second);
    FinalGraded(platform, first, second, lines, entries, pool);
    GradedWellFormed(first, pool);
  }

  function DecisionKey(d: Decision): Key {
    (d.query, d.document)
  }

  /** The checks of the constructors of the report and of its decisions. */
  ghost predicate ValidReport(platform: Platform, r: Report) {
    && r.inherited + |r.decisions| == r.judgments && r.judgments >= 1
    && platform.fold(r.adjudicator) != platform.fold(r.reviewers.0)
    && platform.fold(r.adjudicator) != platform.fold(r.reviewers.1)
    && NamesOrdered(platform, r.reviewers.0, r.reviewers.1)
    && Ordered(r.decisions, ByKey) && Apart(r.decisions, DecisionKey)
    && forall d :: d in r.decisions ==> ValidDecision(d)
  }

  predicate ValidDecision(d: Decision) {
    d.first != d.second && d.first in GRADES && d.second in GRADES && d.final in GRADES && 10 <= |d.rationale| <= 1000
  }

  lemma {:induction false} DecisionsCount(entries: map<Key, Entry>, rows: seq<Row>)
    requires AllSettle(entries, rows)
    ensures |Decisions(entries, rows)| == |Disagreements(rows)|
  {
    if rows != [] {
      DecisionsCount(entries, rows[..|rows| - 1]);
    }
  }

  /** Every decision is on a row the reviewers disagree on. */
  ghost predicate DecidesOn(entries: map<Key, Entry>, rows: seq<Row>, d: Decision) {
    exists row :: row in rows && row.grades.0 != row.grades.1 && Decides(entries, RowKey(row)) && d == DecisionOf(entries, row)
  }

  lemma {:induction false} DecisionsOnRows(entries: map<Key, Entry>, rows: seq<Row>, d: Decision)
    requires AllSettle(entries, rows) && d in Decisions(entries, rows)
    ensures DecidesOn(entries, rows, d)
  {
    var before, last := rows[..|rows| - 1], rows[|rows| - 1];
    assert last in rows;
    if d in Decisions(entries, before) {
      DecisionsOnRows(entries, before, d);
    }
  }

  lemma {:induction false} DecisionsApart(entries: map<Key, Entry>, rows: seq<Row>)
    requires AllSettle(entries, rows) && Apart(rows, RowKey)
    ensures Apart(Decisions(entries, rows), DecisionKey)
  {
    if rows != [] {
      var before, last := rows[..|rows| - 1], rows[|rows| - 1];
      assert rows == before + [last] && last in rows && Settles(entries, last);
      DecisionsApart(entries, before);
      ApartAppend(before, last, RowKey);
      if last.grades.0 != last.grades.1 {
        var d := DecisionOf(entries, last);
        forall x | x in Decisions(entries, before) ensures DecisionKey(x) != DecisionKey(d) {
          DecisionsOnRows(entries, before, x);
        }
        ApartAppend(Decisions(entries, before), d, DecisionKey);
      }
    }
  }

  lemma ApartConcat<T, K>(xs: seq<T>, ys: seq<T>, key: T -> K)
    requires Apart(xs, key) && Apart(ys, key) && forall x, y :: x in xs && y in ys ==> key(x) != key(y)
    ensures Apart(xs + ys, key)
  {
  }

  lemma {:induction false} RowQuery(qs: seq<PooledQuery>, other: Pool, row: Row)
    requires (forall q | q in qs :: QueryComparable(q, other)) && row in RowsOf(qs, other)
    ensures exists q :: q in qs && q.id == row.query
  {
    var before, last := qs[..|qs| - 1], qs[|qs| - 1];
    assert qs == before + [last] && last in qs && QueryComparable(last, other);
    if row in RowsOf(before, other) {
      RowQuery(before, other, row);
    }
  }

  /** No candidate is listed twice. */
  lemma {:induction false} RowsApart(qs: seq<PooledQuery>, other: Pool)
    requires forall q | q in qs :: QueryComparable(q, other)
    requires Apart(qs, IdOf) && forall q | q in qs :: Apart(q.candidates, DocumentOf)
    ensures Apart(RowsOf(qs, other), RowKey)
  {
    if qs != [] {
      var before, last := qs[..|qs| - 1], qs[|qs| - 1];
      assert qs == before + [last] && last in qs && QueryComparable(last, other);
      RowsApart(before, other);
      ApartAppend(before, last, IdOf);
      forall x, y | x in RowsOf(before, other) && y in QueryRows(last, last.candidates, other)
        ensures RowKey(x) != RowKey(y)
      {
        RowQuery(before, other, x);
      }
      ApartConcat(RowsOf(before, other), QueryRows(last, last.candidates, other), RowKey);
    }
  }

  lemma {:induction false} RowsGraded(qs: seq<PooledQuery>, other: Pool)
    requires forall q | q in qs :: QueryComparable(q, other)
    ensures Graded(GradesOf(RowsOf(qs, other)))
    ensures forall row :: row in RowsOf(qs, other) ==> row.grades.0 in GRADES && row.grades.1 in GRADES
  {
    if qs != [] {
      var before, last := qs[..|qs| - 1], qs[|qs| - 1];
      assert last in qs && QueryComparable(last, other);
      RowsGraded(before, other);
      var more := QueryRows(last, last.candidates, other);
      forall row | row in more ensures row.grades.0 in GRADES && row.grades.1 in GRADES {
        var j :| 0 <= j < |more| && more[j] == row;
        assert last.candidates[j] in last.candidates;
      }
    }
  }

  lemma KeyOrderRanks()
    ensures Ranks(ByKey)
  {
    forall a: Decision, b: Decision ensures ByKey(a, b) || ByKey(b, a) {
      LessTotal(a.query, b.query);
      LessTotal(a.document, b.document);
    }
    forall a: Decision, b: Decision, c: Decision | ByKey(a, b) && ByKey(b, c) ensures ByKey(a, c) {
      AtMostTransitive(a.query, b.query, c.query);
      LessIrreflexive(b.query);
      if a.query == b.query == c.query {
        AtMostTransitive(a.document, b.document, c.document);
      }
    }
  }

  lemma DisputedRowKnown(platform: Platform, first: Pool, second: Pool, row: Row)
    requires Comparable(first, second) && row in RowsOf(first.queries, second) && row.grades.0 != row.grades.1
    ensures RowKey(row) in KnownOf(platform, first, second)
  {
    var rows := RowsOf(first.queries, second);
    DisagreementsListed(rows, row);
    KeysMember(Disagreements(rows), RowKey, RowKey(row));
  }

  lemma DecisionValid(text: Text, known: map<Key, string>, lines: seq<Line>, row: Row)
    requires Accepted(text, known, lines, true) && RowKey(row) in known
    requires row.grades.0 != row.grades.1 && row.grades.0 in GRADES && row.grades.1 in GRADES
    ensures Decides(Entries(text, known, lines, true), RowKey(row))
    ensures ValidDecision(DecisionOf(Entries(text, known, lines, true), row))
  {
    CompleteEntries(text, known, lines, RowKey(row));
  }

  lemma DecisionsValid(
    platform: Platform, first: Pool, second: Pool, lines: seq<Line>, entries: map<Key, Entry>, d: Decision)
    requires SettledBy(platform, first, second, lines, entries) && AllSettle(entries, RowsOf(first.queries, second))
    requires d in Decisions(entries, RowsOf(first.queries, second))
    ensures ValidDecision(d)
  {
    var rows := RowsOf(first.queries, second);
    DecisionsOnRows(entries, rows, d);
    var row :| row in rows && row.grades.0 != row.grades.1 && Decides(entries, RowKey(row)) && d == DecisionOf(entries, row);
    RowsGraded(first.queries, second);
    DisputedRowKnown(platform, first, second, row);
    DecisionValid(platform.text, KnownOf(platform, first, second), lines, row);
  }

  lemma FirstKeysApart(platform: Platform, first: Pool, second: Pool)
    requires ValidPool(platform, first) && Comparable(first, second)
    ensures Apart(RowsOf(first.queries, second), RowKey)
  {
    DistinctPositions(first.queries, IdOf);
    forall q | q in first.queries ensures Apart(q.candidates, DocumentOf) {
      DistinctPositions(q.candidates, DocumentOf);
    }
    RowsApart(first.queries, second);
  }

  lemma SortedDecisions(decisions: seq<Decision>)
    requires Apart(decisions, DecisionKey)
    ensures Ordered(Sort(decisions, ByKey), ByKey) && Apart(Sort(decisions, ByKey), DecisionKey)
    ensures forall d :: d in Sort(decisions, ByKey) <==> d in decisions
  {
    KeyOrderRanks();
    SortOrdered(decisions, ByKey);
    SortKeepsMembers(decisions, ByKey);
    DistinctPositions(decisions, DecisionKey);
    DistinctPositions(Sort(decisions, ByKey), DecisionKey);
    DistinctForgetsOrder(decisions, Sort(decisions, ByKey), DecisionKey);
  }

  /** Agreed and decided judgments add up, and the report passes the checks of its constructors. */
  lemma ReportValid(platform: Platform, a: Pool, b: Pool, lines: seq<Line>, adjudicator: string, at: int)
    requires ValidPool(platform, a) && ValidPool(platform, b)
    requires Adjudicate(platform, a, b, lines, adjudicator, at).Success?
    ensures ValidReport(platform, Adjudicate(platform, a, b, lines, adjudicator, at).value.report)
  {
    CanonicalEitherWay(platform, a, b);
    var (first, second) := Canonical(platform, a, b).value;
    var entries, name := SettledParts(platform, first, second, lines, adjudicator, at);
    var rows := RowsOf(first.queries, second);
    DecisionsCount(entries, rows);
    DisagreementCount(rows);
    FirstKeysApart(platform, first, second);
    DecisionsApart(entries, rows);
    SortedDecisions(Decisions(entries, rows));
    forall d | d in Decisions(entries, rows) ensures ValidDecision(d) {
      DecisionsValid(platform, first, second, lines, entries, d);
    }
  }

  // ---- what the report lists ----

  lemma {:induction false} DecisionListed(entries: map<Key, Entry>, rows: seq<Row>, row: Row)
    requires AllSettle(entries, rows) && row in rows && row.grades.0 != row.grades.1
    ensures Decides(entries, RowKey(row)) && DecisionOf(entries, row) in Decisions(entries, rows)
  {
    var before, last := rows[..|rows| - 1], rows[|rows| - 1];
    assert rows == before + [last] && last in rows;
    if row in before {
      DecisionListed(entries, before, row);
    }
  }

  /** The candidate a row was made from. */
  lemma {:induction false} RowOrigin(qs: seq<PooledQuery>, other: Pool, row: Row) returns (i: nat, j: nat)
    requires (forall q | q in qs :: QueryComparable(q, other)) && row in RowsOf(qs, other)
    ensures i < |qs| && j < |qs[i].candidates| && Paired(other, qs[i].id, qs[i].candidates[j])
    ensures row == RowOf(qs[i], qs[i].candidates[j], other)
  {
    var n := |qs| - 1;
    assert qs == qs[..n] + [qs[n]] && qs[n] in qs && QueryComparable(qs[n], other);
    if row in RowsOf(qs[..n], other) {
      i, j := RowOrigin(qs[..n], other, row);
    } else {
      var more := QueryRows(qs[n], qs[n].candidates, other);
      i := n;
      j :| 0 <= j < |more| && more[j] == row;
      assert qs[n].candidates[j] in qs[n].candidates;
    }
  }

  /** The reviewers disagree on this candidate, and the decision has both their grades and the final judgment. */
  ghost predicate DecidedAt(first: Pool, second: Pool, pool: Pool, i: nat, j: nat, d: Decision) {
    && i < |first.queries| && i < |second.queries| && i < |pool.queries|
    && j < |first.queries[i].candidates| && j < |second.queries[i].candidates| && j < |pool.queries[i].candidates|
    && var c, twin, final := first.queries[i].candidates[j], second.queries[i].candidates[j], pool.queries[i].candidates[j];
       && c.grade != twin.grade
       && d.query == first.queries[i].id && d.document == c.document && d.source == c.source
       && (Some(d.first), Some(d.second), Some(d.final), Some(d.rationale)) == (c.grade, twin.grade, final.grade, final.rationale)
  }

  lemma DecisionAt(
    platform: Platform, first: Pool, second: Pool, lines: seq<Line>, entries: map<Key, Entry>, pool: Pool, i: nat, j: nat)
    requires Reviews(platform, first, second) && SettledBy(platform, first, second, lines, entries)
    requires pool.queries == FinalQueries(entries, first.queries, second)
    requires i < |first.queries| && j < |first.queries[i].candidates|
    ensures Paired(second, first.queries[i].id, first.queries[i].candidates[j])
    ensures var row := RowOf(first.queries[i], first.queries[i].candidates[j], second);
            && (row.grades.0 != row.grades.1 ==>
                  Decides(entries, RowKey(row)) && DecidedAt(first, second, pool, i, j, DecisionOf(entries, row)))
            && (forall d :: DecidedAt(first, second, pool, i, j, d) ==>
                  row.grades.0 != row.grades.1 && Decides(entries, RowKey(row)) && d == DecisionOf(entries, row))
  {
    var q, c := first.queries[i], first.queries[i].candidates[j];
    assert q in first.queries && c in q.candidates;
    CandidatePaired(platform, first, second, i, j);
    TwinAt(platform, first, second, i, j);
    FinalAt(entries, first.queries, second, i);
  }

  lemma RowOfCandidate(first: Pool, second: Pool, i: nat, j: nat)
    requires Comparable(first, second) && i < |first.queries| && j < |first.queries[i].candidates|
    ensures Paired(second, first.queries[i].id, first.queries[i].candidates[j])
    ensures RowOf(first.queries[i], first.queries[i].candidates[j], second) in RowsOf(first.queries, second)
  {
    assert first.queries[i] in first.queries && first.queries[i].candidates[j] in first.queries[i].candidates;
    RowListed(first.queries, second, first.queries[i], first.queries[i].candidates[j]);
  }

  ghost predicate DecidedSome(first: Pool, second: Pool, pool: Pool, d: Decision) {
    exists i, j :: DecidedAt(first, second, pool, i, j, d)
  }

  lemma DecisionsMeaning(
    platform: Platform, first: Pool, second: Pool, lines: seq<Line>, entries: map<Key, Entry>, pool: Pool, d: Decision)
    requires Reviews(platform, first, second) && SettledBy(platform, first, second, lines, entries)
    requires pool.queries == FinalQueries(entries, first.queries, second) && AllSettle(entries, RowsOf(first.queries, second))
    ensures d in Decisions(entries, RowsOf(first.queries, second)) <==> DecidedSome(first, second, pool, d)
  {
    var rows := RowsOf(first.queries, second);
    if d in Decisions(entries, rows) {
      DecisionsOnRows(entries, rows, d);
      var row :| row in rows && row.grades.0 != row.grades.1 && Decides(entries, RowKey(row)) && d == DecisionOf(entries, row);
      var i, j := RowOrigin(first.queries, second, row);
      DecisionAt(platform, first, second, lines, entries, pool, i, j);
    }
    if DecidedSome(first, second, pool, d) {
      var i: nat, j: nat :| DecidedAt(first, second, pool, i, j, d);
      DecisionAt(platform, first, second, lines, entries, pool, i, j);
      RowOfCandidate(first, second, i, j);
      DecisionListed(entries, rows, RowOf(first.queries[i], first.queries[i].candidates[j], second));
    }
  }

  ghost function CandidateCount(qs: seq<PooledQuery>): nat {
    if qs == [] then 0 else CandidateCount(qs[..|qs| - 1]) + |qs[|qs| - 1].candidates|
  }

  lemma {:induction false} RowCount(qs: seq<PooledQuery>, other: Pool)
    requires forall q | q in qs :: QueryComparable(q, other)
    ensures |RowsOf(qs, other)| == CandidateCount(qs)
  {
    if qs != [] {
      RowCount(qs[..|qs| - 1], other);
      assert qs[|qs| - 1] in qs && QueryComparable(qs[|qs| - 1], other);
    }
  }

  /** The report of an adjudication of two pools, `first` being that of the reviewer whose name comes first. */
  ghost predicate ReportsOn(platform: Platform, first: Pool, second: Pool, pool: Pool, r: Report) {
    && first.review.Some? && second.review.Some? && pool.review.Some?
    && r.reviewers == (first.review.value.reviewer, second.review.value.reviewer)
    && (Less(platform.fold(r.reviewers.0), platform.fold(r.reviewers.1))
        || (platform.fold(r.reviewers.0) == platform.fold(r.reviewers.1) && AtMost(r.reviewers.0, r.reviewers.1)))
    && r.reviewHashes == (platform.hash(first), platform.hash(second)) && r.finalHash == platform.hash(pool)
    && r.adjudicator == pool.review.value.reviewer
    && r.judgments == CandidateCount(first.queries)
    && forall d :: d in r.decisions <==> DecidedSome(first, second, pool, d)
  }

  /** The report lists one decision for every candidate the reviewers disagree on, and identifies all three pools. */
  lemma ReportMeaning(platform: Platform, a: Pool, b: Pool, lines: seq<Line>, adjudicator: string, at: int)
    requires ValidPool(platform, a) && ValidPool(platform, b)
    requires Adjudicate(platform, a, b, lines, adjudicator, at).Success?
    ensures var o := Adjudicate(platform, a, b, lines, adjudicator, at).value;
            ReportsOn(platform, a, b, o.pool, o.report) || ReportsOn(platform, b, a, o.pool, o.report)
  {
    CanonicalEitherWay(platform, a, b);
    var (first, second) := Canonical(platform, a, b).value;
    var o := Adjudicate(platform, a, b, lines, adjudicator, at).value;
    var entries, name := SettledParts(platform, first, second, lines, adjudicator, at);
    SortKeepsMembers(Decisions(entries, RowsOf(first.queries, second)), ByKey);
    RowCount(first.queries, second);
    forall d ensures d in Decisions(entries, RowsOf(first.queries, second)) <==> DecidedSome(first, second, o.pool, d) {
      DecisionsMeaning(platform, first, second, lines, entries, o.pool, d);
    }
    assert ReportsOn(platform, first, second, o.pool, o.report);
  }
}
