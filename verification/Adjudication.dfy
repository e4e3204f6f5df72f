/** Two independent reviews of one captured pool, settled by an adjudicator into one final pool. */
module Adjudication {
  import opened AdjudicationSheet
  import opened Agreement
  import opened AgreementReport
  import opened Lookups
  import opened Ordering
  import opened RetrievalPool
  import opened Sorting
  import opened Wrappers

  /** What the platform supplies: text handling, `str.casefold`, digests, and the protected columns of a line. */
  datatype Platform = Platform(
    text: Text, fold: string -> string, hash: Pool -> string, protected: (Pool, Pool, Key) -> string)

  datatype Decision = Decision(
    query: string, document: string, source: string, first: int, second: int, final: int, rationale: string)

  datatype Report = Report(
    judgments: nat, inherited: nat, decisions: seq<Decision>, adjudicator: string, reviewers: (string, string),
    reviewHashes: (string, string), finalHash: string)

  datatype Outcome = Outcome(pool: Pool, report: Report)

  datatype ReviewError =
    | NotFirstPass | SameReviewer | CapturesDiffer | ReviewsDiffer | NothingToCompare
    | BlankAdjudicator | AdjudicatorNotIndependent | SheetRejected | AdjudicatorTooLong

  predicate ValidQuery(q: PooledQuery, reviewed: bool) {
    && DistinctBy(q.candidates, DocumentOf) && ValidRuns(q)
    && forall c | c in q.candidates :: if reviewed then IsGraded(c) else c.grade.None? && c.rationale.None?
  }

  /** The checks of the constructors of pool and queries that do not concern provenance. */
  predicate WellFormed(p: Pool) {
    && p.queries != [] && DistinctBy(p.queries, IdOf) && RunsCoherent(p.queries)
    && forall q | q in p.queries :: ValidQuery(q, p.review.Some?)
  }

  /** The checks of the constructor of provenance, and those that tie it to its pool. */
  predicate ValidProvenance(platform: Platform, p: Pool) {
    p.adjudication.Some? ==>
      var a := p.adjudication.value;
      && p.review == Some(Review(a.adjudicator, a.at)) && |a.adjudicator| <= 200
      && platform.fold(a.reviewers.0) != platform.fold(a.reviewers.1)
      && platform.fold(a.adjudicator) != platform.fold(a.reviewers.0)
      && platform.fold(a.adjudicator) != platform.fold(a.reviewers.1)
      && NamesOrdered(platform, a.reviewers.0, a.reviewers.1)
  }

  predicate ValidPool(platform: Platform, p: Pool) {
    WellFormed(p) && ValidProvenance(platform, p)
  }

  predicate NamesOrdered(platform: Platform, a: string, b: string) {
    Less(platform.fold(a), platform.fold(b)) || (platform.fold(a) == platform.fold(b) && AtMost(a, b))
  }

  // ---- what two reviews must share ----

  function UnjudgedAll(cs: seq<Candidate>): (r: seq<Candidate>)
    ensures |r| == |cs| && forall i :: 0 <= i < |r| ==> r[i] == Unjudged(cs[i])
  {
    seq(|cs|, i requires 0 <= i < |cs| => Unjudged(cs[i]))
  }

  function CapturedQuery(q: PooledQuery): PooledQuery {
    q.(candidates := UnjudgedAll(q.candidates))
  }

  function CapturedQueries(qs: seq<PooledQuery>): (r: seq<PooledQuery>)
    ensures |r| == |qs| && forall i :: 0 <= i < |r| ==> r[i] == CapturedQuery(qs[i])
  {
    seq(|qs|, i requires 0 <= i < |qs| => CapturedQuery(qs[i]))
  }

  /** All captured fields, without the judgments: what `retrieval_capture_sha256` identifies. */
  function CaptureOf(p: Pool): Pool {
    Pool(p.querySet, p.capture, CapturedQueries(p.queries), None, None)
  }

  /** A reviewed pool that is not itself an adjudication. */
  predicate FirstPass(p: Pool) {
    p.review.Some? && p.adjudication.None?
  }

  /** `_canonical_reviews` */
  function Canonical(platform: Platform, a: Pool, b: Pool): Result<(Pool, Pool), ReviewError> {
    if !FirstPass(a) || !FirstPass(b) then Failure(NotFirstPass)
    else if platform.fold(a.review.value.reviewer) == platform.fold(b.review.value.reviewer) then Failure(SameReviewer)
    else if CaptureOf(a) != CaptureOf(b) then Failure(CapturesDiffer)
    else if NamesOrdered(platform, a.review.value.reviewer, b.review.value.reviewer) then Success((a, b))
    else Success((b, a))
  }

  /** Two first-pass reviews of one capture by different reviewers, in canonical order. */
  ghost predicate Reviews(platform: Platform, first: Pool, second: Pool) {
    && ValidPool(platform, first) && ValidPool(platform, second) && FirstPass(first) && FirstPass(second)
    && CaptureOf(first) == CaptureOf(second)
    && platform.fold(first.review.value.reviewer) != platform.fold(second.review.value.reviewer)
    && NamesOrdered(platform, first.review.value.reviewer, second.review.value.reviewer)
  }

  /** Which review is passed first does not matter. */
  lemma CanonicalEitherWay(platform: Platform, a: Pool, b: Pool)
    ensures Canonical(platform, a, b) == Canonical(platform, b, a)
    ensures Canonical(platform, a, b).Success? && ValidPool(platform, a) && ValidPool(platform, b) ==>
              var (first, second) := Canonical(platform, a, b).value;
              Reviews(platform, first, second) && ((first == a && second == b) || (first == b && second == a))
  {
    if a.review.Some? && b.review.Some? {
      var x, y := platform.fold(a.review.value.reviewer), platform.fold(b.review.value.reviewer);
      LessTotal(x, y);
      if Less(x, y) {
        LessAsymmetric(x, y);
      }
    }
  }

  // ---- the reviews side by side ----

  /** The other review's candidate with the same query and document. */
  function TwinOf(other: Pool, query: string, document: string): Option<Candidate> {
    match Lookup(other.queries, IdOf, query)
    case None => None
    case Some(q) => Lookup(q.candidates, DocumentOf, document)
  }

  /** The checks of `_candidate_rows` on a candidate. */
  predicate Paired(other: Pool, query: string, c: Candidate) {
    var twin := TwinOf(other, query, c.document);
    twin.Some? && Unjudged(twin.value) == Unjudged(c) && IsGraded(c) && IsGraded(twin.value)
  }

  predicate QueryComparable(q: PooledQuery, other: Pool) {
    var twin := Lookup(other.queries, IdOf, q.id);
    && twin.Some? && twin.value.definition == q.definition && twin.value.slices == q.slices
    && Keys(twin.value.candidates, DocumentOf) == Keys(q.candidates, DocumentOf)
    && forall c | c in q.candidates :: Paired(other, q.id, c)
  }

  predicate Comparable(first: Pool, second: Pool) {
    && Keys(second.queries, IdOf) == Keys(first.queries, IdOf)
    && forall q | q in first.queries :: QueryComparable(q, second)
  }

  function RowOf(q: PooledQuery, c: Candidate, other: Pool): Row
    requires Paired(other, q.id, c)
  {
    Row(q.id, c.document, c.source, q.slices, (c.grade.value, TwinOf(other, q.id, c.document).value.grade.value))
  }

  function QueryRows(q: PooledQuery, cs: seq<Candidate>, other: Pool): (r: seq<Row>)
    requires forall c | c in cs :: Paired(other, q.id, c)
    ensures |r| == |cs| && forall i :: 0 <= i < |r| ==> cs[i] in cs && r[i] == RowOf(q, cs[i], other)
  {
    seq(|cs|, i requires 0 <= i < |cs| => assert cs[i] in cs; RowOf(q, cs[i], other))
  }

  function RowsOf(qs: seq<PooledQuery>, other: Pool): seq<Row>
    requires forall q | q in qs :: QueryComparable(q, other)
  {
    if qs == [] then []
    else
      var last := qs[|qs| - 1];
      assert last in qs && QueryComparable(last, other);
      RowsOf(qs[..|qs| - 1], other) + QueryRows(last, last.candidates, other)
  }

  // ---- settling the disagreements ----

  const AGREED := "Independent reviewers agreed."

  /** A decision with its grade and its rationale. */
  predicate Decides(entries: map<Key, Entry>, k: Key) {
    k in entries && entries[k].grade.Some? && entries[k].rationale.Some?
  }

  predicate Settles(entries: map<Key, Entry>, row: Row) {
    row.grades.0 == row.grades.1 || Decides(entries, RowKey(row))
  }

  function Settled(entries: map<Key, Entry>, row: Row, c: Candidate): Candidate
    requires Settles(entries, row)
  {
    if row.grades.0 == row.grades.1 then c.(grade := Some(row.grades.0), rationale := Some(AGREED))
    else c.(grade := entries[RowKey(row)].grade, rationale := entries[RowKey(row)].rationale)
  }

  /** Every candidate is paired, and its row can be settled. */
  predicate CanSettle(entries: map<Key, Entry>, q: PooledQuery, cs: seq<Candidate>, other: Pool) {
    forall c | c in cs :: Paired(other, q.id, c) && Settles(entries, RowOf(q, c, other))
  }

  function SettledAll(entries: map<Key, Entry>, q: PooledQuery, cs: seq<Candidate>, other: Pool): (r: seq<Candidate>)
    requires CanSettle(entries, q, cs, other)
    ensures |r| == |cs|
    ensures forall i :: 0 <= i < |r| ==> cs[i] in cs && r[i] == Settled(entries, RowOf(q, cs[i], other), cs[i])
  {
    seq(|cs|, i requires 0 <= i < |cs| => assert cs[i] in cs; Settled(entries, RowOf(q, cs[i], other), cs[i]))
  }

  function SettledQuery(entries: map<Key, Entry>, q: PooledQuery, other: Pool): PooledQuery
    requires CanSettle(entries, q, q.candidates, other)
  {
    q.(candidates := SettledAll(entries, q, q.candidates, other))
  }

  predicate CanSettleAll(entries: map<Key, Entry>, qs: seq<PooledQuery>, other: Pool) {
    forall q | q in qs :: QueryComparable(q, other) && CanSettle(entries, q, q.candidates, other)
  }

  function FinalQueries(entries: map<Key, Entry>, qs: seq<PooledQuery>, other: Pool): (r: seq<PooledQuery>)
    requires CanSettleAll(entries, qs, other)
    ensures |r| == |qs|
  {
    if qs == [] then []
    else
      var last := qs[|qs| - 1];
      assert last in qs;
      FinalQueries(entries, qs[..|qs| - 1], other) + [SettledQuery(entries, last, other)]
  }

  function DecisionOf(entries: map<Key, Entry>, row: Row): Decision
    requires Decides(entries, RowKey(row))
  {
    var e := entries[RowKey(row)];
    Decision(row.query, row.document, row.source, row.grades.0, row.grades.1, e.grade.value, e.rationale.value)
  }

  /** The decision on a row, if the reviewers disagree on it. */
  function DecisionOn(entries: map<Key, Entry>, row: Row): seq<Decision>
    requires Settles(entries, row)
  {
    if row.grades.0 == row.grades.1 then [] else [DecisionOf(entries, row)]
  }

  predicate AllSettle(entries: map<Key, Entry>, rows: seq<Row>) {
    forall row | row in rows :: Settles(entries, row)
  }

  function Decisions(entries: map<Key, Entry>, rows: seq<Row>): seq<Decision>
    requires AllSettle(entries, rows)
  {
    if rows == [] then []
    else
      var last := rows[|rows| - 1];
      assert last in rows;
      Decisions(entries, rows[..|rows| - 1]) + DecisionOn(entries, last)
  }

  lemma DecisionsAppend(entries: map<Key, Entry>, rows: seq<Row>, row: Row)
    requires AllSettle(entries, rows) && Settles(entries, row)
    ensures AllSettle(entries, rows + [row])
    ensures Decisions(entries, rows + [row]) == Decisions(entries, rows) + DecisionOn(entries, row)
  {
    assert (rows + [row])[..|rows|] == rows;
  }

  lemma {:induction false} DecisionsConcat(entries: map<Key, Entry>, xs: seq<Row>, ys: seq<Row>)
    requires AllSettle(entries, xs) && AllSettle(entries, ys)
    ensures AllSettle(entries, xs + ys)
    ensures Decisions(entries, xs + ys) == Decisions(entries, xs) + Decisions(entries, ys)
  {
    if ys == [] {
      assert xs + ys == xs;
    } else {
      var before, last := ys[..|ys| - 1], ys[|ys| - 1];
      assert xs + ys == (xs + before) + [last];
      DecisionsConcat(entries, xs, before);
      DecisionsAppend(entries, xs + before, last);
    }
  }

  lemma QueryRowsSettle(entries: map<Key, Entry>, q: PooledQuery, other: Pool)
    requires CanSettle(entries, q, q.candidates, other)
    ensures AllSettle(entries, QueryRows(q, q.candidates, other))
  {
    var rows := QueryRows(q, q.candidates, other);
    forall row | row in rows ensures Settles(entries, row) {
      var i :| 0 <= i < |rows| && rows[i] == row;
      assert q.candidates[i] in q.candidates;
    }
  }

  /** Writing the next element of `done` over `todo`. */
  lemma Overwrite<T>(done: seq<T>, todo: seq<T>, j: nat)
    requires j < |todo| <= |done|
    ensures (done[..j] + todo[j..])[j] == todo[j]
    ensures (done[..j] + todo[j..])[j := done[j]] == done[..j + 1] + todo[j + 1..]
  {
  }

  /** The first `j` candidates of a query are settled. */
  ghost predicate SettledTo(
    entries: map<Key, Entry>, q: PooledQuery, other: Pool, j: nat, candidates: seq<Candidate>, decisions: seq<Decision>)
    requires j <= |q.candidates| && CanSettle(entries, q, q.candidates, other)
  {
    var rows := QueryRows(q, q.candidates, other);
    && candidates == SettledAll(entries, q, q.candidates, other)[..j] + q.candidates[j..]
    && AllSettle(entries, rows[..j]) && decisions == Decisions(entries, rows[..j])
  }

  lemma CandidateStep(
    entries: map<Key, Entry>, q: PooledQuery, other: Pool, j: nat, candidates: seq<Candidate>, decisions: seq<Decision>)
    requires j < |q.candidates| && CanSettle(entries, q, q.candidates, other)
    requires SettledTo(entries, q, other, j, candidates, decisions)
    ensures |candidates| == |q.candidates| && candidates[j] == q.candidates[j]
    ensures Paired(other, q.id, candidates[j])
    ensures var row := RowOf(q, candidates[j], other);
            && Settles(entries, row)
            && SettledTo(entries, q, other, j + 1, candidates[j := Settled(entries, row, candidates[j])],
                         decisions + DecisionOn(entries, row))
  {
    var rows := QueryRows(q, q.candidates, other);
    QueryRowsSettle(entries, q, other);
    assert q.candidates[j] in q.candidates;
    assert rows[..j + 1] == rows[..j] + [rows[j]];
    DecisionsAppend(entries, rows[..j], rows[j]);
    Overwrite(SettledAll(entries, q, q.candidates, other), q.candidates, j);
  }

  lemma AllSettled(
    entries: map<Key, Entry>, q: PooledQuery, other: Pool, candidates: seq<Candidate>, decisions: seq<Decision>)
    requires CanSettle(entries, q, q.candidates, other)
    requires SettledTo(entries, q, other, |q.candidates|, candidates, decisions)
    ensures q.(candidates := candidates) == SettledQuery(entries, q, other)
    ensures AllSettle(entries, QueryRows(q, q.candidates, other))
    ensures decisions == Decisions(entries, QueryRows(q, q.candidates, other))
  {
    var rows := QueryRows(q, q.candidates, other);
    assert rows[..|rows|] == rows;
  }

  /** The inner loop of `apply_retrieval_adjudication`. */
  method SettleQuery(entries: map<Key, Entry>, q: PooledQuery, other: Pool)
    returns (settled: PooledQuery, decisions: seq<Decision>)
    requires CanSettle(entries, q, q.candidates, other)
    ensures settled == SettledQuery(entries, q, other)
    ensures AllSettle(entries, QueryRows(q, q.candidates, other))
    ensures decisions == Decisions(entries, QueryRows(q, q.candidates, other))
  {
    var candidates := q.candidates;
    decisions := [];
    for j := 0 to |q.candidates|
      invariant SettledTo(entries, q, other, j, candidates, decisions)
    {
      CandidateStep(entries, q, other, j, candidates, decisions);
      var c := candidates[j];
      var row := RowOf(q, c, other);
      if row.grades.0 == row.grades.1 {
        candidates := candidates[j := c.(grade := Some(row.grades.0), rationale := Some(AGREED))];
      } else {
        var e := entries[RowKey(row)];
        candidates := candidates[j := c.(grade := e.grade, rationale := e.rationale)];
        decisions := decisions + [DecisionOf(entries, row)];
      }
    }
    AllSettled(entries, q, other, candidates, decisions);
    settled := q.(candidates := candidates);
  }

  /** The final queries and the decisions of one query more. */
  lemma FinalStep(entries: map<Key, Entry>, qs: seq<PooledQuery>, i: nat, other: Pool)
    requires i < |qs| && CanSettleAll(entries, qs, other) && AllSettle(entries, RowsOf(qs[..i], other))
    ensures CanSettleAll(entries, qs[..i], other) && CanSettleAll(entries, qs[..i + 1], other)
    ensures CanSettle(entries, qs[i], qs[i].candidates, other)
    ensures AllSettle(entries, QueryRows(qs[i], qs[i].candidates, other)) && AllSettle(entries, RowsOf(qs[..i + 1], other))
    ensures FinalQueries(entries, qs[..i + 1], other) ==
            FinalQueries(entries, qs[..i], other) + [SettledQuery(entries, qs[i], other)]
    ensures Decisions(entries, RowsOf(qs[..i + 1], other)) ==
            Decisions(entries, RowsOf(qs[..i], other)) + Decisions(entries, QueryRows(qs[i], qs[i].candidates, other))
  {
    assert qs[i] in qs;
    assert qs[..i + 1][..i] == qs[..i];
    QueryRowsSettle(entries, qs[i], other);
    DecisionsConcat(entries, RowsOf(qs[..i], other), QueryRows(qs[i], qs[i].candidates, other));
  }

  /** The outer loop. */
  method SettleQueries(entries: map<Key, Entry>, qs: seq<PooledQuery>, other: Pool)
    returns (queries: seq<PooledQuery>, decisions: seq<Decision>)
    requires CanSettleAll(entries, qs, other)
    ensures queries == FinalQueries(entries, qs, other)
    ensures AllSettle(entries, RowsOf(qs, other)) && decisions == Decisions(entries, RowsOf(qs, other))
  {
    queries, decisions := [], [];
    for i := 0 to |qs|
      invariant CanSettleAll(entries, qs[..i], other) && queries == FinalQueries(entries, qs[..i], other)
      invariant AllSettle(entries, RowsOf(qs[..i], other)) && decisions == Decisions(entries, RowsOf(qs[..i], other))
    {
      FinalStep(entries, qs, i, other);
      var settled, more := SettleQuery(entries, qs[i], other);
      queries := queries + [settled];
      decisions := decisions + more;
    }
    assert qs[..|qs|] == qs;
  }

  // ---- the whole adjudication ----

  /** The disagreements and the protected columns of their lines. */
  function KnownOf(platform: Platform, first: Pool, second: Pool): map<Key, string>
    requires Comparable(first, second)
  {
    map k | k in Keys(Disagreements(RowsOf(first.queries, second)), RowKey) :: platform.protected(first, second, k)
  }

  lemma {:induction false} DisagreementsListed(rows: seq<Row>, row: Row)
    ensures row in Disagreements(rows) <==> row in rows && row.grades.0 != row.grades.1
  {
    if rows != [] {
      DisagreementsListed(rows[..|rows| - 1], row);
      assert rows == rows[..|rows| - 1] + [rows[|rows| - 1]];
    }
  }

  lemma {:induction false} RowListed(qs: seq<PooledQuery>, other: Pool, q: PooledQuery, c: Candidate)
    requires (forall x :: x in qs ==> QueryComparable(x, other)) && q in qs && c in q.candidates
    ensures Paired(other, q.id, c) && RowOf(q, c, other) in RowsOf(qs, other)
  {
    var before, last := qs[..|qs| - 1], qs[|qs| - 1];
    assert qs == before + [last];
    if q in before {
      RowListed(before, other, q, c);
    } else {
      var j :| 0 <= j < |last.candidates| && last.candidates[j] == c;
      assert QueryRows(last, last.candidates, other)[j] == RowOf(q, c, other);
    }
  }

  /** A complete sheet settles every candidate. */
  lemma SheetSettles(platform: Platform, first: Pool, second: Pool, lines: seq<Line>)
    requires Comparable(first, second) && Accepted(platform.text, KnownOf(platform, first, second), lines, true)
    ensures CanSettleAll(
              Entries(platform.text, KnownOf(platform, first, second), lines, true), first.queries, second)
  {
    var known := KnownOf(platform, first, second);
    var entries := Entries(platform.text, known, lines, true);
    forall q, c | q in first.queries && c in q.candidates
      ensures Paired(second, q.id, c) && Settles(entries, RowOf(q, c, second))
    {
      RowListed(first.queries, second, q, c);
      var row := RowOf(q, c, second);
      if row.grades.0 != row.grades.1 {
        DisagreementsListed(RowsOf(first.queries, second), row);
        KeysMember(Disagreements(RowsOf(first.queries, second)), RowKey, RowKey(row));
        CompleteEntries(platform.text, known, lines, RowKey(row));
      }
    }
  }

  lemma {:induction false} RowsSettle(entries: map<Key, Entry>, qs: seq<PooledQuery>, other: Pool)
    requires CanSettleAll(entries, qs, other)
    ensures AllSettle(entries, RowsOf(qs, other))
  {
    if qs != [] {
      RowsSettle(entries, qs[..|qs| - 1], other);
      assert qs[|qs| - 1] in qs;
      QueryRowsSettle(entries, qs[|qs| - 1], other);
    }
  }

  predicate ByKey(a: Decision, b: Decision) {
    Less(a.query, b.query) || (a.query == b.query && AtMost(a.document, b.document))
  }

  /** The final pool and its report, from the settled queries, the judgments and the decisions. */
  function Conclude(
    platform: Platform, first: Pool, second: Pool, queries: seq<PooledQuery>, rows: seq<Row>, decisions: seq<Decision>,
    name: string, at: int): Outcome
    requires FirstPass(first) && FirstPass(second)
  {
    var reviewers := (first.review.value.reviewer, second.review.value.reviewer);
    var hashes := (platform.hash(first), platform.hash(second));
    var provenance := Provenance(reviewers, hashes, name, at, |decisions|);
    var pool := Pool(first.querySet, first.capture, queries, Some(Review(name, at)), Some(provenance));
    Outcome(pool, Report(|rows|, Agreements(GradesOf(rows)), Sort(decisions, ByKey), name, reviewers, hashes,
                         platform.hash(pool)))
  }

  /** What adjudicating two reviews in canonical order gives. */
  function Settle(platform: Platform, first: Pool, second: Pool, lines: seq<Line>, adjudicator: string, at: int)
    : Result<Outcome, ReviewError>
    requires FirstPass(first) && FirstPass(second)
  {
    var name := platform.text.tidy(adjudicator);
    if !Comparable(first, second) then Failure(ReviewsDiffer)
    else if RowsOf(first.queries, second) == [] then Failure(NothingToCompare)
    else if name == "" then Failure(BlankAdjudicator)
    else if platform.fold(name) in {platform.fold(first.review.value.reviewer), platform.fold(second.review.value.reviewer)}
    then Failure(AdjudicatorNotIndependent)
    else if !Accepted(platform.text, KnownOf(platform, first, second), lines, true) then Failure(SheetRejected)
    else if |name| > 200 then Failure(AdjudicatorTooLong)
    else
      var entries := Entries(platform.text, KnownOf(platform, first, second), lines, true);
      SheetSettles(platform, first, second, lines);
      RowsSettle(entries, first.queries, second);
      var rows := RowsOf(first.queries, second);
      Success(Conclude(platform, first, second, FinalQueries(entries, first.queries, second), rows,
                       Decisions(entries, rows), name, at))
  }

  function Adjudicate(platform: Platform, a: Pool, b: Pool, lines: seq<Line>, adjudicator: string, at: int)
    : Result<Outcome, ReviewError>
  {
    match Canonical(platform, a, b)
    case Failure(e) => Failure(e)
    case Success(reviews) => Settle(platform, reviews.0, reviews.1, lines, adjudicator, at)
  }

  /** `apply_retrieval_adjudication` */
  method ApplyAdjudication(platform: Platform, a: Pool, b: Pool, lines: seq<Line>, adjudicator: string, at: int)
    returns (r: Result<Outcome, ReviewError>)
    ensures r == Adjudicate(platform, a, b, lines, adjudicator, at)
  {
    var canonical := Canonical(platform, a, b);
    if canonical.Failure? {
      return Failure(canonical.error);
    }
    var (first, second) := canonical.value;
    if !Comparable(first, second) {
      return Failure(ReviewsDiffer);
    }
    var rows := RowsOf(first.queries, second);
    if rows == [] {
      return Failure(NothingToCompare);
    }
    var name := platform.text.tidy(adjudicator);
    if name == "" {
      return Failure(BlankAdjudicator);
    }
    if platform.fold(name) in {platform.fold(first.review.value.reviewer), platform.fold(second.review.value.reviewer)} {
      return Failure(AdjudicatorNotIndependent);
    }
    var sheet := ParseSheet(platform.text, KnownOf(platform, first, second), lines, true);
    if sheet.Failure? {
      return Failure(SheetRejected);
    }
    SheetSettles(platform, first, second, lines);
    var queries, decisions := SettleQueries(sheet.value, first.queries, second);
    if |name| > 200 {
      return Failure(AdjudicatorTooLong);
    }
    r := Success(Conclude(platform, first, second, queries, rows, decisions, name, at));
  }
}
