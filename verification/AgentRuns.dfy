/** The run manifest's view of a release assessment, and the checks it authorizes with. */
module AgentRuns {
  import opened Release
  import opened ReleaseLaws
  import opened Wrappers
  import Approval

  datatype ObservationStatus = NotSupplied | ReleaseBlocked | ReleaseEligible

  /** The identities are those of the assessment and its parts; `None` when no assessment was supplied. */
  datatype Observation = Observation(
    status: ObservationStatus, assessment: Option<Assessment>, trajectoryIds: seq<string>,
    modelAdapter: bool, relationship: bool, grounded: bool, trajectory: bool, drift: bool, threshold: bool,
    reasons: seq<GateId>)

  predicate Every(gates: seq<Gate>, ids: seq<GateId>) {
    forall i :: 0 <= i < |ids| ==> GateNamed(gates, ids[i])
  }

  const RELATIONSHIP_GATES: seq<GateId> :=
    [RelationshipSampleSize, RelationshipMacroF1, RelationshipAccuracyDelta, RelationshipRegressionRate]
  const GROUNDED_GATES: seq<GateId> :=
    [GroundedAdjudication, GroundedCoverage, GroundedStrictPass, GroundedUnsupported, GroundedCitations]
  const TRAJECTORY_GATES: seq<GateId> :=
    [CaptureCount, TotalCases, CaptureSampleSize, PolicyCompliance, EvidenceInspection, ClaimTraceGate, TrajectoryStrictPass,
     TrajectoryEndToEnd, StepBudget, LatencyBudget]

  /** `agent_release_observation` */
  function Observe(a: Assessment): Observation {
    Observation(
      if a.status == EligibleForHumanReview then ReleaseEligible else ReleaseBlocked,
      Some(a), Apply(a.trajectories, (t: TrajectoryEvidence) => t.reportId),
      Every(a.gates, [CandidateIdentity]), Every(a.gates, RELATIONSHIP_GATES), Every(a.gates, GROUNDED_GATES),
      Every(a.gates, TRAJECTORY_GATES), Every(a.gates, [DriftChain, DriftStability]),
      a.status == EligibleForHumanReview, a.reasons)
  }

  /** The five flags computed from groups of gates. */
  predicate QualityFlags(o: Observation) {
    o.modelAdapter && o.relationship && o.grounded && o.trajectory && o.drift
  }

  predicate AllFlags(o: Observation) {
    QualityFlags(o) && o.threshold
  }

  predicate AnyFlag(o: Observation) {
    o.modelAdapter || o.relationship || o.grounded || o.trajectory || o.drift || o.threshold
  }

  /** `_validate_release_observation`: what the manifest builder demands. */
  predicate ValidObservation(o: Observation) {
    match o.status
    case NotSupplied => o.assessment.None? && o.trajectoryIds == [] && !AnyFlag(o) && o.reasons == []
    case ReleaseEligible => o.assessment.Some? && o.trajectoryIds != [] && AllFlags(o) && o.reasons == []
    case ReleaseBlocked => o.assessment.Some? && o.trajectoryIds != [] && !o.threshold && o.reasons != []
  }

  /** The gate with a given name is the one at its canonical place. */
  lemma NamedGate(gates: seq<Gate>, id: GateId)
    requires GatesConsistent(gates)
    ensures GateNamed(gates, id) <==> gates[IndexOf(id)].passed
  {
    assert gates[IndexOf(id)].id == id;
    if GateNamed(gates, id) {
      var i :| 0 <= i < |gates| && gates[i].id == id && gates[i].passed;
      assert i == IndexOf(GATE_IDS[i]) by {
        PlacesDistinct(i);
      }
    }
  }

  lemma PlacesDistinct(i: nat)
    requires i < |GATE_IDS|
    ensures IndexOf(GATE_IDS[i]) == i
  {
  }

  /** The group of flags a gate belongs to. */
  predicate InGroups(id: GateId) {
    || id == CandidateIdentity || id in RELATIONSHIP_GATES || id in GROUNDED_GATES || id in TRAJECTORY_GATES
    || id == DriftChain || id == DriftStability
  }

  lemma GroupsCover(id: GateId)
    ensures InGroups(id)
  {
    assert RELATIONSHIP_GATES[0] == RelationshipSampleSize && RELATIONSHIP_GATES[3] == RelationshipRegressionRate;
    assert GROUNDED_GATES[0] == GroundedAdjudication && GROUNDED_GATES[4] == GroundedCitations;
    assert TRAJECTORY_GATES[0] == CaptureCount && TRAJECTORY_GATES[9] == LatencyBudget;
  }

  lemma FlagsReach(a: Assessment, id: GateId)
    requires QualityFlags(Observe(a))
    ensures GateNamed(a.gates, id)
  {
    GroupsCover(id);
    assert Every(a.gates, [CandidateIdentity]) && [CandidateIdentity][0] == CandidateIdentity;
    assert Every(a.gates, [DriftChain, DriftStability]);
    assert [DriftChain, DriftStability][0] == DriftChain && [DriftChain, DriftStability][1] == DriftStability;
  }

  /**
   The flags cover all 22 gates: the five quality flags, and so all six, are true exactly when every gate
   passed, exactly when the assessment is eligible; and the manifest builder accepts the observation of
   every valid assessment.
   */
  lemma FlagsMeanEligible(a: Assessment)
    requires ValidAssessment(a)
    ensures QualityFlags(Observe(a)) <==> a.status == EligibleForHumanReview
    ensures AllFlags(Observe(a)) <==> a.status == EligibleForHumanReview
    ensures a.status == EligibleForHumanReview <==> forall i :: 0 <= i < |a.gates| ==> a.gates[i].passed
    ensures ValidObservation(Observe(a))
  {
    AllPassedCount(a.gates);
    ReasonsCount(a.gates);
    if a.status == EligibleForHumanReview {
      forall id: GateId ensures GateNamed(a.gates, id) {
        NamedGate(a.gates, id);
      }
    }
    if QualityFlags(Observe(a)) {
      forall i | 0 <= i < |a.gates| ensures a.gates[i].passed {
        FlagsReach(a, GATE_IDS[i]);
        NamedGate(a.gates, GATE_IDS[i]);
        PlacesDistinct(i);
      }
    }
  }

  // ---- authorization ----

  datatype CheckId =
    PackIntegrity | TraceableEvidence | CapabilityScope | ModelAdapter | RelationshipBenchmark | GroundedEvaluation
    | TrajectoryEvaluation | DriftMonitoring | ThresholdPolicy | HumanRelease | ExecutionRelease

  datatype Check = Check(id: CheckId, passed: bool)

  /** `_authorization_checks`, in order; the last one never passes. */
  function AuthorizationChecks(traceable: bool, release: Observation, approval: Approval.Observation): (r: seq<Check>)
    ensures |r| == 11
  {
    [Check(PackIntegrity, true), Check(TraceableEvidence, traceable), Check(CapabilityScope, true),
     Check(ModelAdapter, release.modelAdapter), Check(RelationshipBenchmark, release.relationship),
     Check(GroundedEvaluation, release.grounded), Check(TrajectoryEvaluation, release.trajectory),
     Check(DriftMonitoring, release.drift), Check(ThresholdPolicy, release.threshold),
     Check(HumanRelease, approval.status == Approval.Active), Check(ExecutionRelease, false)]
  }

  /**
   Execution stays blocked; and it is the only thing that blocks exactly when the pack has traceable
   evidence, the assessment is eligible and the approval resolves to active.
   */
  lemma OnlyExecutionBlocks(traceable: bool, a: Assessment, approval: Approval.Observation)
    requires ValidAssessment(a)
    ensures var checks := AuthorizationChecks(traceable, Observe(a), approval);
            && !checks[10].passed
            && ((forall i :: 0 <= i < 10 ==> checks[i].passed) <==>
                  traceable && a.status == EligibleForHumanReview && approval.status == Approval.Active)
  {
    FlagsMeanEligible(a);
    var checks := AuthorizationChecks(traceable, Observe(a), approval);
    if forall i :: 0 <= i < 10 ==> checks[i].passed {
      assert checks[1].passed && checks[3].passed && checks[4].passed && checks[5].passed && checks[6].passed
          && checks[7].passed && checks[8].passed && checks[9].passed;
    }
  }

  // ---- what each flag and each check stands for ----

  lemma {:induction false} EveryOf(gates: seq<Gate>, ids: seq<GateId>)
    ensures Every(gates, ids) <==> forall id :: id in ids ==> GateNamed(gates, id)
  {
    if Every(gates, ids) {
      forall id | id in ids ensures GateNamed(gates, id) {
        var i :| 0 <= i < |ids| && ids[i] == id;
      }
    }
  }

  lemma RelationshipFlag(gates: seq<Gate>)
    ensures Every(gates, RELATIONSHIP_GATES) <==>
              && GateNamed(gates, RelationshipSampleSize) && GateNamed(gates, RelationshipMacroF1)
              && GateNamed(gates, RelationshipAccuracyDelta) && GateNamed(gates, RelationshipRegressionRate)
  {
    EveryOf(gates, RELATIONSHIP_GATES);
    assert RelationshipSampleSize in RELATIONSHIP_GATES && RelationshipMacroF1 in RELATIONSHIP_GATES;
    assert RelationshipAccuracyDelta in RELATIONSHIP_GATES && RelationshipRegressionRate in RELATIONSHIP_GATES;
  }

  lemma GroundedFlag(gates: seq<Gate>)
    ensures Every(gates, GROUNDED_GATES) <==>
              && GateNamed(gates, GroundedAdjudication) && GateNamed(gates, GroundedCoverage)
              && GateNamed(gates, GroundedStrictPass) && GateNamed(gates, GroundedUnsupported)
              && GateNamed(gates, GroundedCitations)
  {
    EveryOf(gates, GROUNDED_GATES);
    assert GroundedAdjudication in GROUNDED_GATES && GroundedCoverage in GROUNDED_GATES;
    assert GroundedStrictPass in GROUNDED_GATES && GroundedUnsupported in GROUNDED_GATES;
    assert GroundedCitations in GROUNDED_GATES;
  }

  /** The gates that speak for the captures themselves. */
  predicate TrajectoryGatesPass(gates: seq<Gate>) {
    && GateNamed(gates, CaptureCount) && GateNamed(gates, TotalCases) && GateNamed(gates, CaptureSampleSize)
    && GateNamed(gates, PolicyCompliance) && GateNamed(gates, EvidenceInspection)
    && GateNamed(gates, ClaimTraceGate) && GateNamed(gates, TrajectoryStrictPass)
    && GateNamed(gates, TrajectoryEndToEnd) && GateNamed(gates, StepBudget) && GateNamed(gates, LatencyBudget)
  }

  lemma TrajectoryListed(id: GateId)
    ensures id in TRAJECTORY_GATES <==>
              || id == CaptureCount || id == TotalCases || id == CaptureSampleSize || id == PolicyCompliance
              || id == EvidenceInspection || id == ClaimTraceGate || id == TrajectoryStrictPass
              || id == TrajectoryEndToEnd || id == StepBudget || id == LatencyBudget
  {
    assert TRAJECTORY_GATES[0] == CaptureCount && TRAJECTORY_GATES[9] == LatencyBudget;
  }

  lemma TrajectoryFlag(gates: seq<Gate>)
    ensures Every(gates, TRAJECTORY_GATES) <==> TrajectoryGatesPass(gates)
  {
    EveryOf(gates, TRAJECTORY_GATES);
    forall id: GateId ensures id in TRAJECTORY_GATES ==> (TrajectoryGatesPass(gates) ==> GateNamed(gates, id)) {
      TrajectoryListed(id);
    }
    if Every(gates, TRAJECTORY_GATES) {
      TrajectoryListed(CaptureCount);
      TrajectoryListed(TotalCases);
      TrajectoryListed(CaptureSampleSize);
      TrajectoryListed(PolicyCompliance);
      TrajectoryListed(EvidenceInspection);
      TrajectoryListed(ClaimTraceGate);
      TrajectoryListed(TrajectoryStrictPass);
      TrajectoryListed(TrajectoryEndToEnd);
      TrajectoryListed(StepBudget);
      TrajectoryListed(LatencyBudget);
    }
  }

  /** Every flag of an observation by the gates it speaks for. */
  lemma FlagsExactly(a: Assessment)
    ensures var o := Observe(a);
            && (o.modelAdapter <==> GateNamed(a.gates, CandidateIdentity))
            && (o.relationship <==>
                  && GateNamed(a.gates, RelationshipSampleSize) && GateNamed(a.gates, RelationshipMacroF1)
                  && GateNamed(a.gates, RelationshipAccuracyDelta) && GateNamed(a.gates, RelationshipRegressionRate))
            && (o.grounded <==>
                  && GateNamed(a.gates, GroundedAdjudication) && GateNamed(a.gates, GroundedCoverage)
                  && GateNamed(a.gates, GroundedStrictPass) && GateNamed(a.gates, GroundedUnsupported)
                  && GateNamed(a.gates, GroundedCitations))
            && (o.trajectory <==> TrajectoryGatesPass(a.gates))
            && (o.drift <==> GateNamed(a.gates, DriftChain) && GateNamed(a.gates, DriftStability))
            && (o.threshold <==> a.status == EligibleForHumanReview)
  {
    EveryOf(a.gates, [CandidateIdentity]);
    RelationshipFlag(a.gates);
    GroundedFlag(a.gates);
    TrajectoryFlag(a.gates);
    EveryOf(a.gates, [DriftChain, DriftStability]);
  }

  predicate Passed(checks: seq<Check>, id: CheckId) {
    exists i :: 0 <= i < |checks| && checks[i].id == id && checks[i].passed
  }

  /** Where a check stands. */
  function CheckPlace(id: CheckId): nat {
    match id
    case PackIntegrity => 0
    case TraceableEvidence => 1
    case CapabilityScope => 2
    case ModelAdapter => 3
    case RelationshipBenchmark => 4
    case GroundedEvaluation => 5
    case TrajectoryEvaluation => 6
    case DriftMonitoring => 7
    case ThresholdPolicy => 8
    case HumanRelease => 9
    case ExecutionRelease => 10
  }

  ghost predicate InPlaces(checks: seq<Check>) {
    |checks| == 11 && forall i :: 0 <= i < |checks| ==> CheckPlace(checks[i].id) == i
  }

  lemma PassedInPlace(checks: seq<Check>, id: CheckId)
    requires InPlaces(checks) && checks[CheckPlace(id)].id == id
    ensures Passed(checks, id) <==> checks[CheckPlace(id)].passed
  {
  }

  lemma ChecksPlaced(traceable: bool, o: Observation, approval: Approval.Observation)
    ensures InPlaces(AuthorizationChecks(traceable, o, approval))
    ensures forall id: CheckId :: AuthorizationChecks(traceable, o, approval)[CheckPlace(id)].id == id
  {
  }

  /** What a check stands for: the evidence, its flag of the release, the approval; execution is never released. */
  predicate Warranted(traceable: bool, o: Observation, approval: Approval.Observation, id: CheckId) {
    match id
    case PackIntegrity => true
    case TraceableEvidence => traceable
    case CapabilityScope => true
    case ModelAdapter => o.modelAdapter
    case RelationshipBenchmark => o.relationship
    case GroundedEvaluation => o.grounded
    case TrajectoryEvaluation => o.trajectory
    case DriftMonitoring => o.drift
    case ThresholdPolicy => o.threshold
    case HumanRelease => approval.status == Approval.Active
    case ExecutionRelease => false
  }

  /** Each named check passes exactly when what it stands for is warranted. */
  lemma ChecksExactly(traceable: bool, o: Observation, approval: Approval.Observation, id: CheckId)
    ensures Passed(AuthorizationChecks(traceable, o, approval), id) <==> Warranted(traceable, o, approval, id)
  {
    ChecksPlaced(traceable, o, approval);
    PassedInPlace(AuthorizationChecks(traceable, o, approval), id);
  }
}
