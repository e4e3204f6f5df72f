/** Pools of retrieved candidates, as captured and as judged by a reviewer. */
module RetrievalPool {
  import opened Agreement
  import opened Lookups
  import opened Wrappers

  type Key = (string, string)

  /** `evidence` is every other field a reviewer sees. */
  datatype Candidate = Candidate(
    document: string, source: string, evidence: string, grade: Option<int>, rationale: Option<string>)

  /** The ordered output of one retrieval mode; `measured` is what else was recorded of it. */
  datatype CapturedRun = CapturedRun(mode: string, rule: string, model: string, measured: string, documents: seq<string>)

  /** `definition` and `slices` make up the query. */
  datatype PooledQuery = PooledQuery(
    id: string, definition: string, slices: seq<string>, runs: seq<CapturedRun>, candidates: seq<Candidate>)

  datatype Review = Review(reviewer: string, at: int)

  /** Without the copies of the agreement rate and of kappa. */
  datatype Provenance = Provenance(
    reviewers: (string, string), reviewHashes: (string, string), adjudicator: string, at: int, decisions: nat)

  /** `querySet` names and identifies the set of queries, `capture` is the rest of what reviewing does not touch. */
  datatype Pool = Pool(
    querySet: string, capture: string, queries: seq<PooledQuery>, review: Option<Review>, adjudication: Option<Provenance>)

  function IdOf(q: PooledQuery): string {
    q.id
  }

  function DocumentOf(c: Candidate): string {
    c.document
  }

  function ModeOf(r: CapturedRun): string {
    r.mode
  }

  /** The checks of the constructors of runs and of their query: the candidates cover the documents of all runs. */
  predicate ValidRuns(q: PooledQuery) {
    && q.runs != [] && DistinctBy(q.runs, ModeOf)
    && (forall r | r in q.runs :: forall i, j :: 0 <= i < j < |r.documents| ==> r.documents[i] != r.documents[j])
    && forall r | r in q.runs :: forall d | d in r.documents :: d in Keys(q.candidates, DocumentOf)
  }

  /** All queries have the same modes and one embedding model, and each mode one rule. */
  predicate RunsCoherent(qs: seq<PooledQuery>) {
    && (forall i :: 0 <= i < |qs| ==> Keys(qs[i].runs, ModeOf) == Keys(qs[0].runs, ModeOf))
    && forall i, j :: 0 <= i < |qs| && 0 <= j < |qs| ==> RunsAgree(qs[i].runs, qs[j].runs)
  }

  predicate RunsAgree(rs: seq<CapturedRun>, others: seq<CapturedRun>) {
    forall r, s | r in rs && s in others :: r.model == s.model && (r.mode == s.mode ==> r.rule == s.rule)
  }

  /** These checks look at the runs only. */
  lemma RunsStayCoherent(qs: seq<PooledQuery>, others: seq<PooledQuery>)
    requires |qs| == |others| && (forall i :: 0 <= i < |qs| ==> qs[i].runs == others[i].runs) && RunsCoherent(qs)
    ensures RunsCoherent(others)
  {
  }

  predicate IsGraded(c: Candidate) {
    c.grade.Some? && c.grade.value in GRADES
  }

  function Unjudged(c: Candidate): Candidate {
    c.(grade := None, rationale := None)
  }
}
