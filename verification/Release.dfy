/**
 The release decision: a relationship comparison, grounded reviews, scored captures and drift reports
 are measured against a threshold policy in 22 gates.
 */
module Release {
  import opened Drift
  import opened Lookups
  import opened Scoring
  import opened Sorting
  import opened Wrappers

  datatype GroundedReport = GroundedReport(
    reportId: string, reportSha: string, taskId: string, taskSha: string, batchId: string, batchSha: string, system: string,
    adjudicated: bool, caseCount: int, answeredCount: int, strictPass: real, unsupported: Option<real>, citations: Option<real>)

  datatype RelationshipReport = RelationshipReport(
    reportId: string, candidateId: string, system: string, caseCount: int, macroF1: Option<real>, accuracyDelta: real,
    regressions: int)

  datatype ReleasePolicy = ReleasePolicy(
    policyId: string, minRelationshipCases: int, minMacroF1: real, minAccuracyDelta: real, maxRegressionRate: real,
    minCaptures: int, minTotalCases: int, minCaptureCases: int, minAnsweredRate: real, minGroundedPass: real,
    maxUnsupported: real, minCitations: real, minCompliance: real, minInspection: real, minClaimTrace: real,
    minStrictPass: real, minEndToEnd: real, maxP95Steps: real, maxP95Latency: real, drift: Thresholds)

  datatype GateId =
    CandidateIdentity | RelationshipSampleSize | RelationshipMacroF1 | RelationshipAccuracyDelta | RelationshipRegressionRate
    | CaptureCount | TotalCases | CaptureSampleSize | GroundedAdjudication | GroundedCoverage | GroundedStrictPass
    | GroundedUnsupported | GroundedCitations | PolicyCompliance | EvidenceInspection | ClaimTraceGate | TrajectoryStrictPass
    | TrajectoryEndToEnd | StepBudget | LatencyBudget | DriftChain | DriftStability

  /** The canonical order of the gates. */
  const GATE_IDS: seq<GateId> :=
    [CandidateIdentity, RelationshipSampleSize, RelationshipMacroF1, RelationshipAccuracyDelta, RelationshipRegressionRate,
     CaptureCount, TotalCases, CaptureSampleSize, GroundedAdjudication, GroundedCoverage, GroundedStrictPass,
     GroundedUnsupported, GroundedCitations, PolicyCompliance, EvidenceInspection, ClaimTraceGate, TrajectoryStrictPass,
     TrajectoryEndToEnd, StepBudget, LatencyBudget, DriftChain, DriftStability]

  /** A gate outcome; the reason of a failed gate is a fixed text of its own, named by the gate. */
  datatype Gate = Gate(id: GateId, passed: bool, reason: Option<GateId>)

  datatype TrajectoryEvidence = TrajectoryEvidence(
    reportId: string, reportSha: string, taskId: string, groundedId: string, groundedSha: string, capturedAt: int, caseCount: int)

  datatype DriftEvidence = DriftEvidence(baselineId: string, currentId: string, status: Status)

  datatype ReleaseStatus = Blocked | EligibleForHumanReview

  datatype Assessment = Assessment(
    generatedAt: int, policy: ReleasePolicy, agentSystem: string, relationship: RelationshipReport,
    trajectories: seq<TrajectoryEvidence>, drifts: seq<DriftEvidence>,
    gateCount: int, passedCount: int, blockedCount: int, reasons: seq<GateId>, gates: seq<Gate>, status: ReleaseStatus)

  datatype ReleaseError =
    NoTrajectories | DuplicateReports | DuplicateCaptures | DuplicateGrounded | MissingGrounded | MismatchedGrounded
    | UnreferencedGrounded | AssessmentRejected

  // ---- extremes ----

  function MinOf(values: seq<real>): (m: real)
    requires values != []
    ensures m in values && forall i :: 0 <= i < |values| ==> m <= values[i]
  {
    var last := values[|values| - 1];
    if |values| == 1 then last
    else
      var before := MinOf(values[..|values| - 1]);
      assert forall i :: 0 <= i < |values| - 1 ==> values[..|values| - 1][i] == values[i];
      if last < before then last else before
  }

  function MaxOf(values: seq<real>): (m: real)
    requires values != []
    ensures m in values && forall i :: 0 <= i < |values| ==> m >= values[i]
  {
    var last := values[|values| - 1];
    if |values| == 1 then last
    else
      var before := MaxOf(values[..|values| - 1]);
      assert forall i :: 0 <= i < |values| - 1 ==> values[..|values| - 1][i] == values[i];
      if last > before then last else before
  }

  function Total(values: seq<int>): int {
    if values == [] then 0 else Total(values[..|values| - 1]) + values[|values| - 1]
  }

  function Apply<S, T>(xs: seq<S>, f: S -> T): (r: seq<T>)
    ensures |r| == |xs| && forall i :: 0 <= i < |r| ==> r[i] == f(xs[i])
  {
    seq(|xs|, i requires 0 <= i < |xs| => f(xs[i]))
  }

  /** All values known, or none of them counts. */
  predicate AllKnown(values: seq<Option<real>>) {
    forall i :: 0 <= i < |values| ==> values[i].Some?
  }

  function Known(values: seq<Option<real>>): (r: seq<real>)
    requires AllKnown(values)
    ensures |r| == |values| && forall i :: 0 <= i < |r| ==> r[i] == values[i].value
  {
    seq(|values|, i requires 0 <= i < |values| => values[i].value)
  }

  // ---- the inputs, put in order ----

  function IdOf(t: ScoreReport): string {
    t.reportId
  }

  function CaptureOf(t: ScoreReport): int {
    t.capturedAt
  }

  function GroundedIdOf(t: ScoreReport): string {
    t.groundedId
  }

  function GroundedReportIdOf(g: GroundedReport): string {
    g.reportId
  }

  function PairOf(d: DriftReport): (string, string) {
    (d.baselineId, d.currentId)
  }

  predicate EarlierCapture(a: ScoreReport, b: ScoreReport) {
    a.capturedAt <= b.capturedAt
  }

  predicate EarlierComparison(a: DriftReport, b: DriftReport) {
    a.baselineCapturedAt < b.baselineCapturedAt
    || (a.baselineCapturedAt == b.baselineCapturedAt && a.currentCapturedAt <= b.currentCapturedAt)
  }

  /** The grounded review a capture was scored with. */
  predicate BoundTo(t: ScoreReport, g: GroundedReport) {
    && g.reportSha == t.groundedSha && g.taskId == t.taskId && g.taskSha == t.taskSha
    && g.batchId == t.batchId && g.batchSha == t.batchSha
  }

  /** The grounded review of each capture in turn, or the first reason there is none. */
  function Bind(captures: seq<ScoreReport>, grounded: seq<GroundedReport>): Result<seq<GroundedReport>, ReleaseError> {
    if captures == [] then Success([])
    else
      match Bind(captures[..|captures| - 1], grounded)
      case Failure(e) => Failure(e)
      case Success(before) =>
        var last := captures[|captures| - 1];
        match Lookup(grounded, GroundedReportIdOf, last.groundedId)
        case None => Failure(MissingGrounded)
        case Some(g) => if BoundTo(last, g) then Success(before + [g]) else Failure(MismatchedGrounded)
  }

  /** What the gates look at: captures in time order with their reviews, and the drift reports as given. */
  datatype Case = Case(
    policy: ReleasePolicy, relationship: RelationshipReport, captures: seq<ScoreReport>, reviews: seq<GroundedReport>,
    drifts: seq<DriftReport>)

  predicate SoundCase(c: Case) {
    && c.captures != [] && |c.reviews| == |c.captures| && c.relationship.caseCount >= 1
    && forall i :: 0 <= i < |c.reviews| ==> c.reviews[i].caseCount >= 1
  }

  // ---- the drift chain ----

  function ConsecutivePair(captures: seq<ScoreReport>, i: nat): (string, string)
    requires i + 1 < |captures|
  {
    (captures[i].reportId, captures[i + 1].reportId)
  }

  function ConsecutivePairs(captures: seq<ScoreReport>): (r: seq<(string, string)>)
    requires captures != []
    ensures |r| == |captures| - 1 && forall i :: 0 <= i < |r| ==> r[i] == ConsecutivePair(captures, i)
  {
    seq(|captures| - 1, i requires 0 <= i < |captures| - 1 => ConsecutivePair(captures, i))
  }

  /** The supplied report for step `i` is the one the policy's thresholds give. */
  predicate DriftMatches(c: Case, i: nat)
    requires i + 1 < |c.captures|
  {
    var supplied := Lookup(c.drifts, PairOf, ConsecutivePair(c.captures, i));
    && supplied.Some?
    && Compare(c.captures[i], c.captures[i + 1], c.policy.drift, supplied.value.generatedAt) == Success(supplied.value)
  }

  predicate ChainComplete(c: Case)
    requires c.captures != []
  {
    && DistinctBy(c.drifts, PairOf)
    && Keys(c.drifts, PairOf) == (set p | p in ConsecutivePairs(c.captures))
    && forall i :: 0 <= i < |c.captures| - 1 ==> DriftMatches(c, i)
  }

  predicate StepStable(c: Case, i: nat)
    requires i + 1 < |c.captures|
  {
    var supplied := Lookup(c.drifts, PairOf, ConsecutivePair(c.captures, i));
    supplied.Some? && supplied.value.status == Stable
  }

  predicate ChainStable(c: Case)
    requires c.captures != []
  {
    ChainComplete(c) && forall i :: 0 <= i < |c.captures| - 1 ==> StepStable(c, i)
  }

  // ---- the gates ----

  function Worst(c: Case, f: Summary -> real): real
    requires c.captures != []
  {
    MinOf(Apply(c.captures, (t: ScoreReport) => f(t.overall)))
  }

  function Highest(c: Case, f: Summary -> real): real
    requires c.captures != []
  {
    MaxOf(Apply(c.captures, (t: ScoreReport) => f(t.overall)))
  }

  predicate SystemsStable(c: Case)
    requires SoundCase(c)
  {
    && (forall i :: 0 <= i < |c.captures| ==>
          c.captures[i].system == c.captures[0].system && c.captures[i].benchmark == c.captures[0].benchmark)
    && (forall i :: 0 <= i < |c.reviews| ==> c.reviews[i].system == c.captures[0].system)
  }

  function AnsweredRate(c: Case): real
    requires SoundCase(c)
  {
    TotalPositive(c.reviews);
    Total(Apply(c.reviews, (g: GroundedReport) => g.answeredCount)) as real
    / Total(Apply(c.reviews, (g: GroundedReport) => g.caseCount)) as real
  }

  lemma {:induction false} TotalAtLeast(values: seq<int>)
    requires forall i :: 0 <= i < |values| ==> values[i] >= 1
    ensures Total(values) >= |values|
  {
    if values != [] {
      TotalAtLeast(values[..|values| - 1]);
    }
  }

  lemma TotalPositive(reviews: seq<GroundedReport>)
    requires reviews != [] && forall i :: 0 <= i < |reviews| ==> reviews[i].caseCount >= 1
    ensures Total(Apply(reviews, (g: GroundedReport) => g.caseCount)) > 0
  {
    TotalAtLeast(Apply(reviews, (g: GroundedReport) => g.caseCount));
  }

  /** A gate on optional rates: unknown in any capture fails it. */
  predicate AllAtMost(values: seq<Option<real>>, limit: real)
    requires values != []
  {
    AllKnown(values) && MaxOf(Known(values)) <= limit
  }

  predicate AllAtLeast(values: seq<Option<real>>, limit: real)
    requires values != []
  {
    AllKnown(values) && MinOf(Known(values)) >= limit
  }

  predicate Passes(c: Case, id: GateId)
    requires SoundCase(c)
  {
    var p, r := c.policy, c.relationship;
    match id
    case CandidateIdentity => SystemsStable(c)
    case RelationshipSampleSize => r.caseCount >= p.minRelationshipCases
    case RelationshipMacroF1 => r.macroF1.Some? && r.macroF1.value >= p.minMacroF1
    case RelationshipAccuracyDelta => r.accuracyDelta >= p.minAccuracyDelta
    case RelationshipRegressionRate => r.regressions as real / r.caseCount as real <= p.maxRegressionRate
    case CaptureCount => |c.captures| >= p.minCaptures
    case TotalCases => Total(Apply(c.captures, (t: ScoreReport) => t.caseCount)) >= p.minTotalCases
    case CaptureSampleSize => forall i :: 0 <= i < |c.captures| ==> c.captures[i].caseCount >= p.minCaptureCases
    case GroundedAdjudication => forall i :: 0 <= i < |c.reviews| ==> c.reviews[i].adjudicated
    case GroundedCoverage => AnsweredRate(c) >= p.minAnsweredRate
    case GroundedStrictPass => MinOf(Apply(c.reviews, (g: GroundedReport) => g.strictPass)) >= p.minGroundedPass
    case GroundedUnsupported => AllAtMost(Apply(c.reviews, (g: GroundedReport) => g.unsupported), p.maxUnsupported)
    case GroundedCitations => AllAtLeast(Apply(c.reviews, (g: GroundedReport) => g.citations), p.minCitations)
    case PolicyCompliance => Worst(c, (s: Summary) => s.compliance) >= p.minCompliance
    case EvidenceInspection => Worst(c, (s: Summary) => s.evidence) >= p.minInspection
    case ClaimTraceGate => Worst(c, (s: Summary) => s.claims) >= p.minClaimTrace
    case TrajectoryStrictPass => Worst(c, (s: Summary) => s.strict) >= p.minStrictPass
    case TrajectoryEndToEnd => Worst(c, (s: Summary) => s.endToEnd) >= p.minEndToEnd
    case StepBudget => Highest(c, (s: Summary) => s.p95Steps) <= p.maxP95Steps
    case LatencyBudget => Highest(c, (s: Summary) => s.p95Latency) <= p.maxP95Latency
    case DriftChain => ChainComplete(c)
    case DriftStability => ChainStable(c)
  }

  function GateOf(c: Case, id: GateId): Gate
    requires SoundCase(c)
  {
    Gate(id, Passes(c, id), if Passes(c, id) then None else Some(id))
  }

  function GatesOf(c: Case): (r: seq<Gate>)
    requires SoundCase(c)
    ensures |r| == |GATE_IDS| && forall i :: 0 <= i < |r| ==> r[i] == GateOf(c, GATE_IDS[i])
  {
    seq(|GATE_IDS|, i requires 0 <= i < |GATE_IDS| => GateOf(c, GATE_IDS[i]))
  }

  // ---- the assessment ----

  function PassedGates(gates: seq<Gate>): (n: nat)
    ensures n <= |gates|
  {
    if gates == [] then 0 else PassedGates(gates[..|gates| - 1]) + if gates[|gates| - 1].passed then 1 else 0
  }

  /** The reasons of the failed gates, in gate order. */
  function Reasons(gates: seq<Gate>): seq<GateId> {
    if gates == [] then []
    else
      var last := gates[|gates| - 1];
      Reasons(gates[..|gates| - 1]) + if !last.passed && last.reason.Some? then [last.reason.value] else []
  }

  function EvidenceOf(t: ScoreReport): TrajectoryEvidence {
    TrajectoryEvidence(t.reportId, t.reportSha, t.taskId, t.groundedId, t.groundedSha, t.capturedAt, t.caseCount)
  }

  function DriftEvidenceOf(d: DriftReport): DriftEvidence {
    DriftEvidence(d.baselineId, d.currentId, d.status)
  }

  function EvidenceOfDrifts(drifts: seq<DriftReport>): (r: seq<DriftEvidence>)
    ensures |r| == |drifts|
  {
    Apply(Sort(drifts, EarlierComparison), DriftEvidenceOf)
  }

  function Draft(c: Case, now: int): Assessment
    requires SoundCase(c)
  {
    var gates := GatesOf(c);
    var passed := PassedGates(gates);
    Assessment(now, c.policy, c.captures[0].system, c.relationship, Apply(c.captures, EvidenceOf),
               EvidenceOfDrifts(c.drifts),
               |gates|, passed, |gates| - passed, Reasons(gates), gates,
               if passed < |gates| then Blocked else EligibleForHumanReview)
  }

  function Consecutive(evidence: seq<TrajectoryEvidence>): (r: seq<(string, string)>)
    requires evidence != []
    ensures |r| == |evidence| - 1
    ensures forall i :: 0 <= i < |r| ==> r[i] == (evidence[i].reportId, evidence[i + 1].reportId)
  {
    seq(|evidence| - 1, i requires 0 <= i < |evidence| - 1 => (evidence[i].reportId, evidence[i + 1].reportId))
  }

  function EvidencePair(d: DriftEvidence): (string, string) {
    (d.baselineId, d.currentId)
  }

  /** The gate with this name passed. */
  predicate GateNamed(gates: seq<Gate>, id: GateId) {
    exists i :: 0 <= i < |gates| && gates[i].id == id && gates[i].passed
  }

  predicate GatesConsistent(gates: seq<Gate>) {
    && |gates| == |GATE_IDS|
    && forall i :: 0 <= i < |gates| ==> gates[i].id == GATE_IDS[i] && (gates[i].passed <==> gates[i].reason.None?)
  }

  predicate Chronological(evidence: seq<TrajectoryEvidence>) {
    forall i, j :: 0 <= i < j < |evidence| ==>
      evidence[i].capturedAt < evidence[j].capturedAt && evidence[i].reportId != evidence[j].reportId
  }

  predicate PairsUnique(drifts: seq<DriftEvidence>) {
    forall i, j :: 0 <= i < j < |drifts| ==> EvidencePair(drifts[i]) != EvidencePair(drifts[j])
  }

  predicate EvidenceStable(drifts: seq<DriftEvidence>) {
    forall i :: 0 <= i < |drifts| ==> drifts[i].status == Stable
  }

  /** The checks of `validate_assessment`. */
  predicate ValidAssessment(a: Assessment) {
    && 1 <= |a.trajectories| <= 100 && |a.drifts| <= 99
    && a.gateCount == |a.gates| && GatesConsistent(a.gates)
    && a.passedCount == PassedGates(a.gates) && a.blockedCount == |a.gates| - PassedGates(a.gates)
    && a.reasons == Reasons(a.gates)
    && a.status == (if a.blockedCount > 0 then Blocked else EligibleForHumanReview)
    && Chronological(a.trajectories) && PairsUnique(a.drifts)
    && (GateNamed(a.gates, DriftChain) ==> Apply(a.drifts, EvidencePair) == Consecutive(a.trajectories))
    && (GateNamed(a.gates, DriftStability) <==> GateNamed(a.gates, DriftChain) && EvidenceStable(a.drifts))
  }

  lemma {:induction false} BoundReviews(captures: seq<ScoreReport>, grounded: seq<GroundedReport>)
    ensures Bind(captures, grounded).Success? ==>
              && |Bind(captures, grounded).value| == |captures|
              && forall i :: 0 <= i < |captures| ==> Bind(captures, grounded).value[i] in grounded
  {
    if captures != [] {
      BoundReviews(captures[..|captures| - 1], grounded);
    }
  }

  /** The case the inputs amount to, or the first reason they do not fit together. */
  function CaseOf(
    policy: ReleasePolicy, relationship: RelationshipReport, grounded: seq<GroundedReport>, trajectories: seq<ScoreReport>,
    drifts: seq<DriftReport>): Result<Case, ReleaseError>
  {
    var captures := Sort(trajectories, EarlierCapture);
    if trajectories == [] then Failure(NoTrajectories)
    else if !DistinctBy(captures, IdOf) then Failure(DuplicateReports)
    else if !DistinctBy(captures, CaptureOf) then Failure(DuplicateCaptures)
    else if !DistinctBy(grounded, GroundedReportIdOf) then Failure(DuplicateGrounded)
    else
      match Bind(captures, grounded)
      case Failure(e) => Failure(e)
      case Success(reviews) =>
        if !(Keys(grounded, GroundedReportIdOf) <= Keys(captures, GroundedIdOf)) then Failure(UnreferencedGrounded)
        else Success(Case(policy, relationship, captures, reviews, drifts))
  }

  lemma CaseSound(
    policy: ReleasePolicy, relationship: RelationshipReport, grounded: seq<GroundedReport>, trajectories: seq<ScoreReport>,
    drifts: seq<DriftReport>)
    requires relationship.caseCount >= 1 && forall i :: 0 <= i < |grounded| ==> grounded[i].caseCount >= 1
    ensures var c := CaseOf(policy, relationship, grounded, trajectories, drifts);
            c.Success? ==> SoundCase(c.value)
  {
    BoundReviews(Sort(trajectories, EarlierCapture), grounded);
  }

  /** `evaluate_agent_release` */
  function Evaluate(
    policy: ReleasePolicy, relationship: RelationshipReport, grounded: seq<GroundedReport>, trajectories: seq<ScoreReport>,
    drifts: seq<DriftReport>, now: int): Result<Assessment, ReleaseError>
    requires relationship.caseCount >= 1 && forall i :: 0 <= i < |grounded| ==> grounded[i].caseCount >= 1
  {
    CaseSound(policy, relationship, grounded, trajectories, drifts);
    match CaseOf(policy, relationship, grounded, trajectories, drifts)
    case Failure(e) => Failure(e)
    case Success(c) => if ValidAssessment(Draft(c, now)) then Success(Draft(c, now)) else Failure(AssessmentRejected)
  }
}
