/** What a release assessment guarantees: it is always valid, does not depend on input order, and bounds drift. */
module ReleaseLaws {
  import opened Drift
  import opened Lookups
  import opened Percentiles
  import opened Release
  import opened Scoring
  import opened Sorting
  import opened Wrappers

  // ---- gates by name ----

  /** Where a gate stands in the canonical order. */
  function IndexOf(id: GateId): (i: nat)
    ensures i < |GATE_IDS| && GATE_IDS[i] == id
  {
    match id
    case CandidateIdentity => 0
    case RelationshipSampleSize => 1
    case RelationshipMacroF1 => 2
    case RelationshipAccuracyDelta => 3
    case RelationshipRegressionRate => 4
    case CaptureCount => 5
    case TotalCases => 6
    case CaptureSampleSize => 7
    case GroundedAdjudication => 8
    case GroundedCoverage => 9
    case GroundedStrictPass => 10
    case GroundedUnsupported => 11
    case GroundedCitations => 12
    case PolicyCompliance => 13
    case EvidenceInspection => 14
    case ClaimTraceGate => 15
    case TrajectoryStrictPass => 16
    case TrajectoryEndToEnd => 17
    case StepBudget => 18
    case LatencyBudget => 19
    case DriftChain => 20
    case DriftStability => 21
  }

  lemma GatePasses(c: Case, id: GateId)
    requires SoundCase(c)
    ensures GateNamed(GatesOf(c), id) <==> Passes(c, id)
  {
    var gates := GatesOf(c);
    assert gates[IndexOf(id)] == GateOf(c, id);
    if GateNamed(gates, id) {
      var i :| 0 <= i < |gates| && gates[i].id == id && gates[i].passed;
      assert gates[i] == GateOf(c, GATE_IDS[i]);
    }
  }

  lemma {:induction false} AllPassedCount(gates: seq<Gate>)
    ensures PassedGates(gates) == |gates| <==> forall i :: 0 <= i < |gates| ==> gates[i].passed
  {
    if gates != [] {
      var before := gates[..|gates| - 1];
      AllPassedCount(before);
      assert forall i :: 0 <= i < |before| ==> before[i] == gates[i];
    }
  }

  lemma {:induction false} ReasonsCount(gates: seq<Gate>)
    requires forall i :: 0 <= i < |gates| ==> (gates[i].passed <==> gates[i].reason.None?)
    ensures |Reasons(gates)| == |gates| - PassedGates(gates)
  {
    if gates != [] {
      ReasonsCount(gates[..|gates| - 1]);
    }
  }

  // ---- a complete chain is the consecutive pairs, in time order ----

  ghost predicate InTimeOrder(captures: seq<ScoreReport>) {
    forall i, j :: 0 <= i < j < |captures| ==> captures[i].capturedAt < captures[j].capturedAt
  }

  function Supplied(c: Case, i: nat): DriftReport
    requires i + 1 < |c.captures| && DriftMatches(c, i)
  {
    Lookup(c.drifts, PairOf, ConsecutivePair(c.captures, i)).value
  }

  /** The drift reports of a complete chain, step by step. */
  ghost function Chain(c: Case): (r: seq<DriftReport>)
    requires c.captures != [] && ChainComplete(c)
    ensures |r| == |c.captures| - 1 && forall i :: 0 <= i < |r| ==> r[i] == Supplied(c, i)
  {
    seq(|c.captures| - 1, i requires 0 <= i < |c.captures| - 1 => Supplied(c, i))
  }

  lemma ChainStep(c: Case, i: nat)
    requires c.captures != [] && ChainComplete(c) && i < |Chain(c)|
    ensures Chain(c)[i] in c.drifts && PairOf(Chain(c)[i]) == ConsecutivePair(c.captures, i)
    ensures Chain(c)[i].baselineCapturedAt == c.captures[i].capturedAt
  {
    assert DriftMatches(c, i);
  }

  lemma ChainOrdered(c: Case)
    requires c.captures != [] && ChainComplete(c) && InTimeOrder(c.captures)
    ensures Ordered(Chain(c), EarlierComparison)
    ensures forall i, j :: 0 <= i < j < |Chain(c)| ==> Chain(c)[i].baselineCapturedAt < Chain(c)[j].baselineCapturedAt
  {
    forall i, j | 0 <= i < j < |Chain(c)| ensures Chain(c)[i].baselineCapturedAt < Chain(c)[j].baselineCapturedAt {
      ChainStep(c, i);
      ChainStep(c, j);
    }
  }

  lemma ChainMembers(c: Case, d: DriftReport)
    requires c.captures != [] && ChainComplete(c)
    ensures d in Chain(c) <==> d in c.drifts
  {
    if d in Chain(c) {
      var i :| 0 <= i < |Chain(c)| && Chain(c)[i] == d;
      ChainStep(c, i);
    }
    if d in c.drifts {
      assert HasKey(c.drifts, PairOf, PairOf(d));
      KeysMember(c.drifts, PairOf, PairOf(d));
      var pairs := ConsecutivePairs(c.captures);
      var i :| 0 <= i < |pairs| && pairs[i] == PairOf(d);
      ChainStep(c, i);
      OneWithKey(c.drifts, PairOf, d, Chain(c)[i]);
      assert Chain(c)[i] in Chain(c);
    }
  }

  lemma ComparisonRanks()
    ensures Ranks(EarlierComparison)
  {
  }

  lemma ApartUnequal(xs: seq<DriftReport>)
    requires DistinctBy(xs, PairOf)
    ensures forall i, j :: 0 <= i < j < |xs| ==> xs[i] != xs[j]
  {
    DistinctPositions(xs, PairOf);
    forall i, j | 0 <= i < j < |xs| ensures xs[i] != xs[j] {
      assert PairOf(xs[i]) != PairOf(xs[j]);
    }
  }

  lemma ChainMultiset(c: Case)
    requires c.captures != [] && ChainComplete(c) && InTimeOrder(c.captures)
    ensures multiset(Chain(c)) == multiset(c.drifts)
  {
    ChainOrdered(c);
    ApartUnequal(c.drifts);
    forall d ensures d in Chain(c) <==> d in c.drifts {
      ChainMembers(c, d);
    }
    SameMultiset(Chain(c), c.drifts);
  }

  lemma ChainAntisymmetric(c: Case, a: DriftReport, b: DriftReport)
    requires c.captures != [] && ChainComplete(c) && InTimeOrder(c.captures)
    requires a in c.drifts && b in c.drifts && EarlierComparison(a, b) && EarlierComparison(b, a)
    ensures a == b
  {
    ChainOrdered(c);
    ChainMembers(c, a);
    ChainMembers(c, b);
    var i :| 0 <= i < |Chain(c)| && Chain(c)[i] == a;
    var j :| 0 <= j < |Chain(c)| && Chain(c)[j] == b;
  }

  /** When the chain gate passes, the drift reports sorted by time are exactly the consecutive comparisons. */
  lemma SortedChain(c: Case)
    requires c.captures != [] && ChainComplete(c) && InTimeOrder(c.captures)
    ensures Sort(c.drifts, EarlierComparison) == Chain(c)
  {
    var sorted := Sort(c.drifts, EarlierComparison);
    ComparisonRanks();
    SortOrdered(c.drifts, EarlierComparison);
    SortKeepsMembers(c.drifts, EarlierComparison);
    ChainOrdered(c);
    ChainMultiset(c);
    forall a, b | a in sorted && b in sorted && EarlierComparison(a, b) && EarlierComparison(b, a) ensures a == b {
      ChainAntisymmetric(c, a, b);
    }
    OrderedUnique(sorted, Chain(c), EarlierComparison);
  }

  // ---- every accepted input yields a valid assessment ----

  /** Captures as the evaluation orders them: strictly by time, each report once. */
  ghost predicate OrderedCase(c: Case) {
    && SoundCase(c) && InTimeOrder(c.captures)
    && forall i, j :: 0 <= i < j < |c.captures| ==> c.captures[i].reportId != c.captures[j].reportId
  }

  lemma EvidenceOfChain(c: Case, i: nat)
    requires OrderedCase(c) && ChainComplete(c) && i + 1 < |c.captures|
    ensures |c.drifts| == |c.captures| - 1
    ensures EvidenceOfDrifts(c.drifts)[i] == DriftEvidenceOf(Supplied(c, i))
    ensures EvidencePair(EvidenceOfDrifts(c.drifts)[i]) == ConsecutivePair(c.captures, i)
    ensures EvidenceOfDrifts(c.drifts)[i].status == Stable <==> StepStable(c, i)
  {
    SortedChain(c);
    ChainStep(c, i);
  }

  lemma ChainLength(c: Case)
    requires OrderedCase(c) && ChainComplete(c)
    ensures |EvidenceOfDrifts(c.drifts)| == |c.captures| - 1
  {
    SortedChain(c);
  }

  lemma EvidencePairsMatch(c: Case)
    requires OrderedCase(c) && ChainComplete(c)
    ensures Apply(EvidenceOfDrifts(c.drifts), EvidencePair) == Consecutive(Apply(c.captures, EvidenceOf))
  {
    ChainLength(c);
    var pairs, expected := Apply(EvidenceOfDrifts(c.drifts), EvidencePair), Consecutive(Apply(c.captures, EvidenceOf));
    forall i | 0 <= i < |pairs| ensures pairs[i] == expected[i] {
      EvidenceOfChain(c, i);
    }
  }

  lemma StabilityMatches(c: Case)
    requires OrderedCase(c) && ChainComplete(c)
    ensures ChainStable(c) <==> EvidenceStable(EvidenceOfDrifts(c.drifts))
  {
    ChainLength(c);
    forall i | 0 <= i < |c.captures| - 1 ensures StepStable(c, i) <==> EvidenceOfDrifts(c.drifts)[i].status == Stable {
      EvidenceOfChain(c, i);
    }
  }

  lemma PairsUniqueWhenApart(sorted: seq<DriftReport>)
    ensures Apart(sorted, PairOf) <==> PairsUnique(Apply(sorted, DriftEvidenceOf))
  {
    var drifts := Apply(sorted, DriftEvidenceOf);
    if Apart(sorted, PairOf) {
      forall i, j | 0 <= i < j < |drifts| ensures EvidencePair(drifts[i]) != EvidencePair(drifts[j]) {
        assert PairOf(sorted[i]) != PairOf(sorted[j]);
      }
    }
    if PairsUnique(drifts) {
      forall i, j | 0 <= i < j < |sorted| ensures PairOf(sorted[i]) != PairOf(sorted[j]) {
        assert EvidencePair(drifts[i]) != EvidencePair(drifts[j]);
      }
    }
  }

  lemma DriftPairsApart(drifts: seq<DriftReport>)
    ensures DistinctBy(drifts, PairOf) <==> PairsUnique(EvidenceOfDrifts(drifts))
  {
    var sorted := Sort(drifts, EarlierComparison);
    DistinctForgetsOrder(sorted, drifts, PairOf);
    DistinctPositions(sorted, PairOf);
    PairsUniqueWhenApart(sorted);
  }

  /** The part of the validator that concerns gates and captures always holds. */
  lemma DraftConsistent(c: Case)
    requires OrderedCase(c)
    ensures GatesConsistent(GatesOf(c)) && Chronological(Apply(c.captures, EvidenceOf))
  {
    forall i | 0 <= i < |GATE_IDS| ensures GatesOf(c)[i] == GateOf(c, GATE_IDS[i]) {
    }
  }

  /**
   The assessment's own validator accepts the draft exactly when there are at most 100 captures, at most
   99 drift reports, and no pair of captures was compared twice.
   */
  lemma DraftAccepted(c: Case, now: int)
    requires OrderedCase(c)
    ensures ValidAssessment(Draft(c, now)) <==> |c.captures| <= 100 && |c.drifts| <= 99 && DistinctBy(c.drifts, PairOf)
  {
    DraftConsistent(c);
    DriftPairsApart(c.drifts);
    GatePasses(c, DriftChain);
    GatePasses(c, DriftStability);
    if ChainComplete(c) {
      EvidencePairsMatch(c);
      StabilityMatches(c);
    }
    ChainVerdicts(c);
  }

  lemma ChainVerdicts(c: Case)
    requires SoundCase(c)
    ensures Passes(c, DriftChain) <==> ChainComplete(c)
    ensures Passes(c, DriftStability) <==> ChainStable(c)
  {
  }

  /** What `Evaluate` has checked when it reaches the draft. */
  lemma SortedCaptures(trajectories: seq<ScoreReport>)
    requires DistinctBy(Sort(trajectories, EarlierCapture), CaptureOf)
    ensures InTimeOrder(Sort(trajectories, EarlierCapture))
  {
    var captures := Sort(trajectories, EarlierCapture);
    CaptureRanks();
    SortOrdered(trajectories, EarlierCapture);
    DistinctPositions(captures, CaptureOf);
    forall i, j | 0 <= i < j < |captures| ensures captures[i].capturedAt < captures[j].capturedAt {
      assert EarlierCapture(captures[i], captures[j]) && CaptureOf(captures[i]) != CaptureOf(captures[j]);
    }
  }

  lemma CaptureRanks()
    ensures Ranks(EarlierCapture)
  {
  }

  // ---- input order ----

  /** Sorting distinct captures forgets their order. */
  lemma CapturesForgetOrder(xs: seq<ScoreReport>, ys: seq<ScoreReport>)
    requires multiset(xs) == multiset(ys) && DistinctBy(xs, CaptureOf)
    ensures Sort(xs, EarlierCapture) == Sort(ys, EarlierCapture)
  {
    CaptureRanks();
    forall a, b | a in xs && b in xs && EarlierCapture(a, b) && EarlierCapture(b, a) ensures a == b {
      OneWithKey(xs, CaptureOf, a, b);
    }
    SortForgetsOrder(xs, ys, EarlierCapture);
  }

  lemma {:induction false} BindForgetsOrder(captures: seq<ScoreReport>, xs: seq<GroundedReport>, ys: seq<GroundedReport>)
    requires multiset(xs) == multiset(ys) && DistinctBy(xs, GroundedReportIdOf)
    ensures Bind(captures, xs) == Bind(captures, ys)
  {
    if captures != [] {
      BindForgetsOrder(captures[..|captures| - 1], xs, ys);
      LookupForgetsOrder(xs, ys, GroundedReportIdOf, captures[|captures| - 1].groundedId);
    }
  }

  lemma ChainForgetsOrder(c: Case, c': Case)
    requires SoundCase(c) && c' == c.(drifts := c'.drifts) && multiset(c.drifts) == multiset(c'.drifts)
    ensures ChainComplete(c) == ChainComplete(c') && ChainStable(c) == ChainStable(c')
  {
    DistinctForgetsOrder(c.drifts, c'.drifts, PairOf);
    if DistinctBy(c.drifts, PairOf) {
      forall i | 0 <= i < |c.captures| - 1 ensures DriftMatches(c, i) == DriftMatches(c', i) && StepStable(c, i) == StepStable(c', i) {
        LookupForgetsOrder(c.drifts, c'.drifts, PairOf, ConsecutivePair(c.captures, i));
      }
    }
  }

  lemma PassesForgetsOrder(c: Case, c': Case, id: GateId)
    requires SoundCase(c) && c' == c.(drifts := c'.drifts) && multiset(c.drifts) == multiset(c'.drifts)
    ensures Passes(c, id) == Passes(c', id)
  {
    ChainForgetsOrder(c, c');
  }

  lemma GatesForgetOrder(c: Case, c': Case)
    requires SoundCase(c) && c' == c.(drifts := c'.drifts) && multiset(c.drifts) == multiset(c'.drifts)
    ensures GatesOf(c) == GatesOf(c')
  {
    forall i | 0 <= i < |GATE_IDS| ensures GatesOf(c)[i] == GatesOf(c')[i] {
      PassesForgetsOrder(c, c', GATE_IDS[i]);
    }
  }

  /** Everything but the order in which drift evidence is listed. */
  predicate SameDecision(a: Assessment, b: Assessment) {
    a == b.(drifts := a.drifts)
  }

  lemma DraftsForgetOrder(c: Case, c': Case, now: int)
    requires OrderedCase(c) && c' == c.(drifts := c'.drifts) && multiset(c.drifts) == multiset(c'.drifts)
    ensures SameDecision(Draft(c, now), Draft(c', now)) && (ValidAssessment(Draft(c, now)) <==> ValidAssessment(Draft(c', now)))
    ensures ChainComplete(c) ==> Draft(c, now) == Draft(c', now)
  {
    GatesForgetOrder(c, c');
    DraftAccepted(c, now);
    DraftAccepted(c', now);
    DistinctForgetsOrder(c.drifts, c'.drifts, PairOf);
    SameMembers(c.drifts, c'.drifts);
    if ChainComplete(c) {
      ChainForgetsOrder(c, c');
      SortedChain(c);
      SortedChain(c');
      ChainsAgree(c, c');
    }
  }

  lemma ChainsAgree(c: Case, c': Case)
    requires SoundCase(c) && c' == c.(drifts := c'.drifts) && multiset(c.drifts) == multiset(c'.drifts)
    requires ChainComplete(c) && ChainComplete(c')
    ensures Chain(c) == Chain(c')
  {
    forall i | 0 <= i < |Chain(c)| ensures Chain(c)[i] == Chain(c')[i] {
      LookupForgetsOrder(c.drifts, c'.drifts, PairOf, ConsecutivePair(c.captures, i));
    }
  }

  // ---- the evaluation as a whole ----

  lemma CaseOrdered(
    policy: ReleasePolicy, relationship: RelationshipReport, grounded: seq<GroundedReport>, trajectories: seq<ScoreReport>,
    drifts: seq<DriftReport>)
    requires relationship.caseCount >= 1 && forall i :: 0 <= i < |grounded| ==> grounded[i].caseCount >= 1
    ensures var c := CaseOf(policy, relationship, grounded, trajectories, drifts);
            c.Success? ==> OrderedCase(c.value) && |c.value.captures| == |trajectories| && c.value.drifts == drifts
  {
    CaseSound(policy, relationship, grounded, trajectories, drifts);
    var c := CaseOf(policy, relationship, grounded, trajectories, drifts);
    if c.Success? {
      SortedCaptures(trajectories);
      DistinctPositions(c.value.captures, IdOf);
      forall i, j | 0 <= i < j < |c.value.captures| ensures c.value.captures[i].reportId != c.value.captures[j].reportId {
        assert IdOf(c.value.captures[i]) != IdOf(c.value.captures[j]);
      }
    }
  }

  /**
   Inputs that fit together yield an assessment its validator accepts, except when there are more than
   100 captures or 99 drift reports, or one pair of captures was compared twice.
   */
  lemma EvaluationAccepts(
    policy: ReleasePolicy, relationship: RelationshipReport, grounded: seq<GroundedReport>, trajectories: seq<ScoreReport>,
    drifts: seq<DriftReport>, now: int)
    requires relationship.caseCount >= 1 && forall i :: 0 <= i < |grounded| ==> grounded[i].caseCount >= 1
    ensures var r := Evaluate(policy, relationship, grounded, trajectories, drifts, now);
            && (r.Success? ==> ValidAssessment(r.value))
            && (r.Success? <==>
                  && CaseOf(policy, relationship, grounded, trajectories, drifts).Success?
                  && |trajectories| <= 100 && |drifts| <= 99 && DistinctBy(drifts, PairOf))
  {
    CaseOrdered(policy, relationship, grounded, trajectories, drifts);
    var c := CaseOf(policy, relationship, grounded, trajectories, drifts);
    if c.Success? {
      DraftAccepted(c.value, now);
    }
  }

  lemma BindNext(captures: seq<ScoreReport>, last: ScoreReport, grounded: seq<GroundedReport>, g: GroundedReport)
    requires DistinctBy(grounded, GroundedReportIdOf) && g in grounded && last.groundedId == g.reportId && BoundTo(last, g)
    requires Bind(captures, grounded).Success?
    ensures Bind(captures + [last], grounded) == Success(Bind(captures, grounded).value + [g])
  {
    assert (captures + [last])[..|captures|] == captures;
    OneWithKey(grounded, GroundedReportIdOf, Lookup(grounded, GroundedReportIdOf, g.reportId).value, g);
  }

  lemma PairDistinct<T, K>(x: T, y: T, key: T -> K)
    ensures DistinctBy([x, y], key) <==> key(x) != key(y)
  {
    DistinctPositions([x, y], key);
    assert [x, y][0] == x && [x, y][1] == y;
  }

  /** Two captures in time order, each with its own review. */
  predicate ReviewedPair(a: ScoreReport, b: ScoreReport, g: GroundedReport, h: GroundedReport) {
    && a.reportId != b.reportId && a.capturedAt < b.capturedAt && g.reportId != h.reportId
    && a.groundedId == g.reportId && BoundTo(a, g) && b.groundedId == h.reportId && BoundTo(b, h)
  }

  lemma PairSorted(a: ScoreReport, b: ScoreReport)
    requires a.capturedAt < b.capturedAt
    ensures Sort([a, b], EarlierCapture) == [a, b]
  {
    assert [a, b][1..] == [b] && [b][1..] == [];
  }

  lemma PairBound(a: ScoreReport, b: ScoreReport, g: GroundedReport, h: GroundedReport)
    requires ReviewedPair(a, b, g, h)
    ensures Bind([a, b], [g, h]) == Success([g, h])
    ensures Keys([g, h], GroundedReportIdOf) <= Keys([a, b], GroundedIdOf)
  {
    PairDistinct(g, h, GroundedReportIdOf);
    BindNext([], a, [g, h], g);
    assert [] + [a] == [a] && [] + [g] == [g] && [a] + [b] == [a, b] && [g] + [h] == [g, h];
    BindNext([a], b, [g, h], h);
    forall k | k in Keys([g, h], GroundedReportIdOf) ensures k in Keys([a, b], GroundedIdOf) {
      KeysMember([g, h], GroundedReportIdOf, k);
      KeysMember([a, b], GroundedIdOf, k);
      assert a in [a, b] && b in [a, b];
    }
  }

  /** They amount to a case, whatever drift reports come with them. */
  lemma PairFits(
    policy: ReleasePolicy, relationship: RelationshipReport, a: ScoreReport, b: ScoreReport, g: GroundedReport,
    h: GroundedReport, drifts: seq<DriftReport>)
    requires ReviewedPair(a, b, g, h)
    ensures CaseOf(policy, relationship, [g, h], [a, b], drifts).Success?
  {
    PairSorted(a, b);
    PairDistinct(a, b, IdOf);
    PairDistinct(a, b, CaptureOf);
    PairDistinct(g, h, GroundedReportIdOf);
    PairBound(a, b, g, h);
  }

  /** Every drift report is a comparison of two of the captures. */
  ghost predicate Compared(policy: ReleasePolicy, trajectories: seq<ScoreReport>, drifts: seq<DriftReport>) {
    forall d :: d in drifts ==> exists a, b ::
      a in trajectories && b in trajectories && Compare(a, b, policy.drift, d.generatedAt) == Success(d)
  }

  lemma PairCompared(policy: ReleasePolicy, a: ScoreReport, b: ScoreReport, d: DriftReport)
    requires Compare(a, b, policy.drift, d.generatedAt) == Success(d)
    ensures Compared(policy, [a, b], [d, d])
  {
    assert a in [a, b] && b in [a, b];
  }

  /** The inputs fit together, and yet there is no assessment. */
  ghost predicate FitsInVain(
    policy: ReleasePolicy, relationship: RelationshipReport, grounded: seq<GroundedReport>, trajectories: seq<ScoreReport>,
    drifts: seq<DriftReport>, now: int)
    requires relationship.caseCount >= 1 && forall i :: 0 <= i < |grounded| ==> grounded[i].caseCount >= 1
  {
    && CaseOf(policy, relationship, grounded, trajectories, drifts).Success?
    && Evaluate(policy, relationship, grounded, trajectories, drifts, now) == Failure(AssessmentRejected)
  }

  lemma RepeatedDriftFails(
    policy: ReleasePolicy, relationship: RelationshipReport, grounded: seq<GroundedReport>, trajectories: seq<ScoreReport>,
    d: DriftReport, now: int)
    requires relationship.caseCount >= 1 && forall i :: 0 <= i < |grounded| ==> grounded[i].caseCount >= 1
    requires CaseOf(policy, relationship, grounded, trajectories, [d, d]).Success?
    ensures FitsInVain(policy, relationship, grounded, trajectories, [d, d], now)
  {
    PairDistinct(d, d, PairOf);
    EvaluationAccepts(policy, relationship, grounded, trajectories, [d, d], now);
  }

  lemma SomePair(summary: Summary) returns (a: ScoreReport, b: ScoreReport, g: GroundedReport, h: GroundedReport)
    ensures ReviewedPair(a, b, g, h) && g.caseCount >= 1 && h.caseCount >= 1
    ensures a.benchmark == b.benchmark && a.system == b.system && a.slices == b.slices
  {
    a := ScoreReport("a", "", "", "", {}, 0, "", "", "", "", "g", "", 1, summary);
    b := ScoreReport("b", "", "", "", {}, 1, "", "", "", "", "h", "", 1, summary);
    g := GroundedReport("g", "", "", "", "", "", "", true, 1, 1, 1.0, None, None);
    h := GroundedReport("h", "", "", "", "", "", "", true, 1, 1, 1.0, None, None);
  }

  lemma SomeCase(policy: ReleasePolicy, relationship: RelationshipReport, summary: Summary, now: int)
    returns (grounded: seq<GroundedReport>, trajectories: seq<ScoreReport>, d: DriftReport)
    ensures (forall i :: 0 <= i < |grounded| ==> grounded[i].caseCount >= 1) && Compared(policy, trajectories, [d, d])
    ensures CaseOf(policy, relationship, grounded, trajectories, [d, d]).Success?
  {
    var a, b, g, h := SomePair(summary);
    d := Compare(a, b, policy.drift, now).value;
    grounded, trajectories := [g, h], [a, b];
    PairCompared(policy, a, b, d);
    PairFits(policy, relationship, a, b, g, h, [d, d]);
  }

  /**
   For every policy there are two reviewed captures whose one comparison, given twice, fits together with
   them and yields no assessment.
   */
  lemma RepeatedDriftExample(policy: ReleasePolicy, relationship: RelationshipReport, summary: Summary, now: int)
    returns (grounded: seq<GroundedReport>, trajectories: seq<ScoreReport>, drifts: seq<DriftReport>)
    requires relationship.caseCount >= 1
    ensures (forall i :: 0 <= i < |grounded| ==> grounded[i].caseCount >= 1) && Compared(policy, trajectories, drifts)
    ensures FitsInVain(policy, relationship, grounded, trajectories, drifts, now)
  {
    var d;
    grounded, trajectories, d := SomeCase(policy, relationship, summary, now);
    drifts := [d, d];
    RepeatedDriftFails(policy, relationship, grounded, trajectories, d, now);
  }

  /** The case, up to the order of the drift reports, does not depend on the order of the inputs. */
  lemma CaseForgetsOrder(
    policy: ReleasePolicy, relationship: RelationshipReport, grounded: seq<GroundedReport>, trajectories: seq<ScoreReport>,
    drifts: seq<DriftReport>, grounded': seq<GroundedReport>, trajectories': seq<ScoreReport>, drifts': seq<DriftReport>)
    requires multiset(grounded) == multiset(grounded') && multiset(trajectories) == multiset(trajectories')
    ensures var c, c' := CaseOf(policy, relationship, grounded, trajectories, drifts),
                         CaseOf(policy, relationship, grounded', trajectories', drifts');
            if c.Success? then c'.Success? && c'.value == c.value.(drifts := drifts') else c' == c
  {
    SameMembers(trajectories, trajectories');
    var captures, captures' := Sort(trajectories, EarlierCapture), Sort(trajectories', EarlierCapture);
    DistinctForgetsOrder(captures, captures', IdOf);
    DistinctForgetsOrder(captures, captures', CaptureOf);
    DistinctForgetsOrder(captures, trajectories, CaptureOf);
    DistinctForgetsOrder(grounded, grounded', GroundedReportIdOf);
    if DistinctBy(captures, CaptureOf) {
      CapturesForgetOrder(trajectories, trajectories');
      if DistinctBy(grounded, GroundedReportIdOf) {
        BindForgetsOrder(captures, grounded, grounded');
      }
    }
  }

  /**
   The verdict does not depend on the order in which reports are supplied: same rejection, same gates,
   same status, and with a passing chain gate the same assessment.
   */
  lemma EvaluationForgetsOrder(
    policy: ReleasePolicy, relationship: RelationshipReport, grounded: seq<GroundedReport>, trajectories: seq<ScoreReport>,
    drifts: seq<DriftReport>, now: int, grounded': seq<GroundedReport>, trajectories': seq<ScoreReport>,
    drifts': seq<DriftReport>)
    requires relationship.caseCount >= 1
    requires (forall g :: g in grounded ==> g.caseCount >= 1) && forall g :: g in grounded' ==> g.caseCount >= 1
    requires multiset(grounded) == multiset(grounded') && multiset(trajectories) == multiset(trajectories')
    requires multiset(drifts) == multiset(drifts')
    ensures var r, r' := Evaluate(policy, relationship, grounded, trajectories, drifts, now),
                         Evaluate(policy, relationship, grounded', trajectories', drifts', now);
            if r.Success? then r'.Success? && SameDecision(r.value, r'.value)
                               && (GateNamed(r.value.gates, DriftChain) ==> r == r')
            else r' == r
  {
    CaseForgetsOrder(policy, relationship, grounded, trajectories, drifts, grounded', trajectories', drifts');
    CaseOrdered(policy, relationship, grounded, trajectories, drifts);
    var c := CaseOf(policy, relationship, grounded, trajectories, drifts);
    if c.Success? {
      DraftsForgetOrder(c.value, c.value.(drifts := drifts'), now);
      GatePasses(c.value, DriftChain);
      ChainVerdicts(c.value);
    }
  }

  // ---- what passing gates bound ----

  lemma StableWhenever(a: ScoreReport, b: ScoreReport, t: Thresholds, now: int)
    requires Compare(a, b, t, now).Success? && Compare(a, b, t, now).value.status == Stable
    ensures Compare(a, b, t, 0).Success? && Compare(a, b, t, 0).value.status == Stable
  {
  }

  lemma PassedChainIsStable(c: Case)
    requires SoundCase(c) && ChainStable(c)
    ensures StableChain(c.captures, c.policy.drift)
  {
    forall i | 0 <= i < |c.captures| - 1
      ensures Compare(c.captures[i], c.captures[i + 1], c.policy.drift, 0).Success?
      ensures Compare(c.captures[i], c.captures[i + 1], c.policy.drift, 0).value.status == Stable
    {
      assert DriftMatches(c, i) && StepStable(c, i);
      StableWhenever(c.captures[i], c.captures[i + 1], c.policy.drift, Supplied(c, i).generatedAt);
    }
  }

  /**
   If the drift gates pass, then between any two captures each rate has dropped by at most one allowance
   per step, each 95th percentile has grown at most geometrically, and a percentile of zero is still zero.
   */
  lemma PassedGatesBoundDrift(c: Case, m: Metric, i: nat, j: nat)
    requires SoundCase(c) && Passes(c, DriftStability) && ValidThresholds(c.policy.drift) && i <= j < |c.captures|
    requires forall k :: 0 <= k < |c.captures| ==> ValidSummary(c.captures[k].overall)
    ensures WithinAllowance(Rate(c.captures[i].overall, m), Rate(c.captures[j].overall, m), c.policy.drift, m, j - i)
  {
    ChainVerdicts(c);
    PassedChainIsStable(c);
    ChainWithinAllowance(c.captures, c.policy.drift, m, i, j);
  }

  /** The captures are scored from these outcomes. */
  ghost predicate ScoredFrom(captures: seq<ScoreReport>, outcomes: seq<seq<Outcome>>) {
    |captures| == |outcomes| && forall i :: 0 <= i < |captures| ==>
      outcomes[i] != [] && captures[i].overall == Summarize(outcomes[i]).value
  }

  /** If no case of any capture gets slower or longer, a passing step or latency gate stays passing. */
  lemma FasterKeepsBudgets(c: Case, outcomes: seq<seq<Outcome>>, c': Case, outcomes': seq<seq<Outcome>>)
    requires SoundCase(c) && SoundCase(c') && c'.policy == c.policy && |c'.captures| == |c.captures|
    requires ScoredFrom(c.captures, outcomes) && ScoredFrom(c'.captures, outcomes')
    requires forall i :: 0 <= i < |outcomes| ==> NoSlower(outcomes'[i], outcomes[i])
    ensures Passes(c, StepBudget) ==> Passes(c', StepBudget)
    ensures Passes(c, LatencyBudget) ==> Passes(c', LatencyBudget)
  {
    forall i | 0 <= i < |c.captures|
      ensures c'.captures[i].overall.p95Steps <= c.captures[i].overall.p95Steps
      ensures c'.captures[i].overall.p95Latency <= c.captures[i].overall.p95Latency
    {
      NoSlowerSummary(outcomes'[i], outcomes[i]);
    }
    HighestNoLarger(c, c', (s: Summary) => s.p95Steps);
    HighestNoLarger(c, c', (s: Summary) => s.p95Latency);
  }

  lemma HighestNoLarger(c: Case, c': Case, f: Summary -> real)
    requires c.captures != [] && |c'.captures| == |c.captures|
    requires forall i :: 0 <= i < |c.captures| ==> f(c'.captures[i].overall) <= f(c.captures[i].overall)
    ensures Highest(c', f) <= Highest(c, f)
  {
    var values, values' := Apply(c.captures, (t: ScoreReport) => f(t.overall)), Apply(c'.captures, (t: ScoreReport) => f(t.overall));
    assert MaxOf(values') in values';
    var i :| 0 <= i < |values'| && values'[i] == MaxOf(values');
    assert values'[i] <= values[i];
  }
}
