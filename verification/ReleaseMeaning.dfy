/**
 What an assessment says of the reports it was made from: each gate stated over the reports as supplied,
 in no order, one report at a time.
 */
module ReleaseMeaning {
  import opened Drift
  import opened Lookups
  import opened RealBounds
  import opened Release
  import opened ReleaseLaws
  import opened Scoring
  import opened Sorting
  import opened Wrappers

  // ---- sums over reports, in any order ----

  ghost function SumOver<T(!new)>(xs: seq<T>, f: T -> int): int {
    if xs == [] then 0 else f(xs[0]) + SumOver(xs[1..], f)
  }

  lemma {:induction false} SumAppend<T(!new)>(xs: seq<T>, x: T, f: T -> int)
    ensures SumOver(xs + [x], f) == SumOver(xs, f) + f(x)
  {
    if xs == [] {
      assert xs + [x] == [x];
    } else {
      assert (xs + [x])[1..] == xs[1..] + [x];
      SumAppend(xs[1..], x, f);
    }
  }

  lemma {:induction false} SumInsert<T(!new)>(x: T, xs: seq<T>, le: (T, T) -> bool, f: T -> int)
    ensures SumOver(Insert(x, xs, le), f) == f(x) + SumOver(xs, f)
  {
    if xs != [] && !le(x, xs[0]) {
      SumInsert(x, xs[1..], le, f);
    }
  }

  lemma {:induction false} SumSorted<T(!new)>(xs: seq<T>, le: (T, T) -> bool, f: T -> int)
    ensures SumOver(Sort(xs, le), f) == SumOver(xs, f)
  {
    if xs != [] {
      SumSorted(xs[1..], le, f);
      SumInsert(xs[0], Sort(xs[1..], le), le, f);
    }
  }

  lemma {:induction false} TotalIsSum<T(!new)>(values: seq<int>, xs: seq<T>, f: T -> int)
    requires |values| == |xs| && forall i :: 0 <= i < |xs| ==> values[i] == f(xs[i])
    ensures Total(values) == SumOver(xs, f)
  {
    if xs != [] {
      var n := |xs| - 1;
      TotalIsSum(values[..n], xs[..n], f);
      SumAppend(xs[..n], xs[n], f);
      assert xs == xs[..n] + [xs[n]];
    }
  }

  // ---- the reports as supplied ----

  ghost predicate ReviewOf(grounded: seq<GroundedReport>, t: ScoreReport, g: GroundedReport) {
    g in grounded && g.reportId == t.groundedId
  }

  /** Some supplied review is the one the capture was scored with: same content, same task, same batch. */
  ghost predicate Reviewed(grounded: seq<GroundedReport>, t: ScoreReport) {
    exists g :: ReviewOf(grounded, t, g)
                && (t.groundedSha, t.taskId, t.taskSha, t.batchId, t.batchSha)
                   == (g.reportSha, g.taskId, g.taskSha, g.batchId, g.batchSha)
  }

  ghost predicate Referenced(trajectories: seq<ScoreReport>, g: GroundedReport) {
    exists t :: t in trajectories && t.groundedId == g.reportId
  }

  /** The reports fit together: each capture and review occurs once, and each belongs to the other kind. */
  ghost predicate Fit(grounded: seq<GroundedReport>, trajectories: seq<ScoreReport>) {
    && trajectories != []
    && (forall i, j :: 0 <= i < j < |trajectories| ==>
          trajectories[i].reportId != trajectories[j].reportId && trajectories[i].capturedAt != trajectories[j].capturedAt)
    && (forall i, j :: 0 <= i < j < |grounded| ==> grounded[i].reportId != grounded[j].reportId)
    && (forall t :: t in trajectories ==> Reviewed(grounded, t))
    && (forall g :: g in grounded ==> Referenced(trajectories, g))
  }

  ghost function AnsweredIn(grounded: seq<GroundedReport>, t: ScoreReport): int {
    if exists g :: ReviewOf(grounded, t, g) then var g :| ReviewOf(grounded, t, g); g.answeredCount else 0
  }

  ghost function CasesIn(grounded: seq<GroundedReport>, t: ScoreReport): int {
    if exists g :: ReviewOf(grounded, t, g) then var g :| ReviewOf(grounded, t, g); g.caseCount else 0
  }

  /** Answered cases, and all cases, of the reviews of the captures, each capture counted. */
  ghost function AnsweredCases(grounded: seq<GroundedReport>, trajectories: seq<ScoreReport>): int {
    SumOver(trajectories, (t: ScoreReport) => AnsweredIn(grounded, t))
  }

  ghost function ReviewedCases(grounded: seq<GroundedReport>, trajectories: seq<ScoreReport>): int {
    SumOver(trajectories, (t: ScoreReport) => CasesIn(grounded, t))
  }

  /** `b` is the next capture after `a`. */
  ghost predicate Follows(trajectories: seq<ScoreReport>, a: ScoreReport, b: ScoreReport) {
    && a in trajectories && b in trajectories && a.capturedAt < b.capturedAt
    && forall t :: t in trajectories ==> !(a.capturedAt < t.capturedAt < b.capturedAt)
  }

  /** `d` is exactly the report of comparing `a` with `b` under these thresholds. */
  predicate Compares(d: DriftReport, a: ScoreReport, b: ScoreReport, t: Thresholds) {
    Compare(a, b, t, d.generatedAt) == Success(d)
  }

  ghost predicate ComparesSome(trajectories: seq<ScoreReport>, d: DriftReport, t: Thresholds) {
    exists a, b :: Follows(trajectories, a, b) && Compares(d, a, b, t)
  }

  ghost predicate ComparedBySome(drifts: seq<DriftReport>, a: ScoreReport, b: ScoreReport, t: Thresholds) {
    exists d :: d in drifts && Compares(d, a, b, t)
  }

  /** The drift reports are the comparisons of each capture with the next, each once. */
  ghost predicate ChainSupplied(trajectories: seq<ScoreReport>, drifts: seq<DriftReport>, t: Thresholds) {
    && (forall i, j :: 0 <= i < j < |drifts| ==> PairOf(drifts[i]) != PairOf(drifts[j]))
    && (forall d :: d in drifts ==> ComparesSome(trajectories, d, t))
    && (forall a, b :: Follows(trajectories, a, b) ==> ComparedBySome(drifts, a, b, t))
  }

  // ---- what each gate asks of the reports ----

  predicate RelationshipMet(p: ReleasePolicy, r: RelationshipReport, id: GateId) {
    match id
    case RelationshipSampleSize => r.caseCount >= p.minRelationshipCases
    case RelationshipMacroF1 => r.macroF1.Some? && r.macroF1.value >= p.minMacroF1
    case RelationshipAccuracyDelta => r.accuracyDelta >= p.minAccuracyDelta
    case RelationshipRegressionRate => r.regressions as real <= p.maxRegressionRate * r.caseCount as real
    case _ => true
  }

  /** Every capture has enough cases, acts as it should in enough of them, and stays within the budgets. */
  ghost predicate CapturesMet(p: ReleasePolicy, trajectories: seq<ScoreReport>, id: GateId) {
    match id
    case CaptureSampleSize => forall t :: t in trajectories ==> t.caseCount >= p.minCaptureCases
    case PolicyCompliance => forall t :: t in trajectories ==> t.overall.compliance >= p.minCompliance
    case EvidenceInspection => forall t :: t in trajectories ==> t.overall.evidence >= p.minInspection
    case ClaimTraceGate => forall t :: t in trajectories ==> t.overall.claims >= p.minClaimTrace
    case TrajectoryStrictPass => forall t :: t in trajectories ==> t.overall.strict >= p.minStrictPass
    case TrajectoryEndToEnd => forall t :: t in trajectories ==> t.overall.endToEnd >= p.minEndToEnd
    case StepBudget => forall t :: t in trajectories ==> t.overall.p95Steps <= p.maxP95Steps
    case LatencyBudget => forall t :: t in trajectories ==> t.overall.p95Latency <= p.maxP95Latency
    case _ => true
  }

  /** Every review is adjudicated and good enough; a rate that is not known is not. */
  ghost predicate ReviewsMet(p: ReleasePolicy, grounded: seq<GroundedReport>, id: GateId) {
    match id
    case GroundedAdjudication => forall g :: g in grounded ==> g.adjudicated
    case GroundedStrictPass => forall g :: g in grounded ==> g.strictPass >= p.minGroundedPass
    case GroundedUnsupported => forall g :: g in grounded ==> g.unsupported.Some? && g.unsupported.value <= p.maxUnsupported
    case GroundedCitations => forall g :: g in grounded ==> g.citations.Some? && g.citations.value >= p.minCitations
    case _ => true
  }

  /** `part` is at least the share `m` of `whole`. */
  predicate Reaches(part: int, whole: int, m: real) {
    part as real >= m * whole as real
  }

  /** There are enough captures, enough cases in all, and enough of them are answered. */
  ghost predicate TotalsMet(p: ReleasePolicy, grounded: seq<GroundedReport>, trajectories: seq<ScoreReport>, id: GateId) {
    match id
    case CaptureCount => |trajectories| >= p.minCaptures
    case TotalCases => SumOver(trajectories, (t: ScoreReport) => t.caseCount) >= p.minTotalCases
    case GroundedCoverage =>
      Reaches(AnsweredCases(grounded, trajectories), ReviewedCases(grounded, trajectories), p.minAnsweredRate)
    case _ => true
  }

  /** One candidate on one benchmark in all captures, and the same in all reviews. */
  ghost predicate IdentityMet(grounded: seq<GroundedReport>, trajectories: seq<ScoreReport>, id: GateId) {
    id == CandidateIdentity ==>
      && (forall s, t :: s in trajectories && t in trajectories ==> s.system == t.system && s.benchmark == t.benchmark)
      && (forall g, t :: g in grounded && t in trajectories ==> g.system == t.system)
  }

  ghost predicate DriftMet(p: ReleasePolicy, trajectories: seq<ScoreReport>, drifts: seq<DriftReport>, id: GateId) {
    match id
    case DriftChain => ChainSupplied(trajectories, drifts, p.drift)
    case DriftStability => ChainSupplied(trajectories, drifts, p.drift) && forall d :: d in drifts ==> d.status == Stable
    case _ => true
  }

  ghost predicate Met(
    p: ReleasePolicy, r: RelationshipReport, grounded: seq<GroundedReport>, trajectories: seq<ScoreReport>,
    drifts: seq<DriftReport>, id: GateId)
  {
    && RelationshipMet(p, r, id) && CapturesMet(p, trajectories, id) && ReviewsMet(p, grounded, id)
    && TotalsMet(p, grounded, trajectories, id) && IdentityMet(grounded, trajectories, id) && DriftMet(p, trajectories, drifts, id)
  }

  // ---- the case against the reports ----

  lemma {:induction false} BindMeaning(captures: seq<ScoreReport>, grounded: seq<GroundedReport>)
    requires DistinctBy(grounded, GroundedReportIdOf)
    ensures Bind(captures, grounded).Success? <==> forall t :: t in captures ==> Reviewed(grounded, t)
    ensures Bind(captures, grounded).Success? ==>
              && |Bind(captures, grounded).value| == |captures|
              && forall i :: 0 <= i < |captures| ==> ReviewOf(grounded, captures[i], Bind(captures, grounded).value[i])
  {
    if captures != [] {
      var n := |captures| - 1;
      var before, last := captures[..n], captures[n];
      BindMeaning(before, grounded);
      assert captures == before + [last];
      var found := Lookup(grounded, GroundedReportIdOf, last.groundedId);
      if Reviewed(grounded, last) {
        var g :| ReviewOf(grounded, last, g)
                 && (last.groundedSha, last.taskId, last.taskSha, last.batchId, last.batchSha)
                    == (g.reportSha, g.taskId, g.taskSha, g.batchId, g.batchSha);
        assert GroundedReportIdOf(g) == last.groundedId;
        OneWithKey(grounded, GroundedReportIdOf, g, found.value);
      } else if found.Some? {
        assert ReviewOf(grounded, last, found.value);
      }
    }
  }

  lemma ReferencedKeys(grounded: seq<GroundedReport>, trajectories: seq<ScoreReport>)
    ensures Keys(grounded, GroundedReportIdOf) <= Keys(trajectories, GroundedIdOf) <==>
            forall g :: g in grounded ==> Referenced(trajectories, g)
  {
    forall g | g in grounded ensures Referenced(trajectories, g) <==> g.reportId in Keys(trajectories, GroundedIdOf) {
      KeysMember(trajectories, GroundedIdOf, g.reportId);
      if Referenced(trajectories, g) {
        var t :| t in trajectories && t.groundedId == g.reportId;
        assert GroundedIdOf(t) == g.reportId;
      }
    }
    if forall g :: g in grounded ==> Referenced(trajectories, g) {
      forall k | k in Keys(grounded, GroundedReportIdOf) ensures k in Keys(trajectories, GroundedIdOf) {
        KeysMember(grounded, GroundedReportIdOf, k);
      }
    } else {
      var g :| g in grounded && !Referenced(trajectories, g);
      KeysMember(grounded, GroundedReportIdOf, g.reportId);
      assert GroundedReportIdOf(g) == g.reportId;
    }
  }

  lemma SortedMembers(trajectories: seq<ScoreReport>)
    ensures |Sort(trajectories, EarlierCapture)| == |trajectories|
    ensures forall t :: t in Sort(trajectories, EarlierCapture) <==> t in trajectories
  {
    SortKeepsMembers(trajectories, EarlierCapture);
  }

  lemma ApartReports(trajectories: seq<ScoreReport>)
    ensures DistinctBy(Sort(trajectories, EarlierCapture), IdOf) && DistinctBy(Sort(trajectories, EarlierCapture), CaptureOf) <==>
            forall i, j :: 0 <= i < j < |trajectories| ==>
              trajectories[i].reportId != trajectories[j].reportId && trajectories[i].capturedAt != trajectories[j].capturedAt
  {
    var captures := Sort(trajectories, EarlierCapture);
    DistinctForgetsOrder(captures, trajectories, IdOf);
    DistinctForgetsOrder(captures, trajectories, CaptureOf);
    DistinctPositions(trajectories, IdOf);
    DistinctPositions(trajectories, CaptureOf);
    if Apart(trajectories, IdOf) && Apart(trajectories, CaptureOf) {
      forall i, j | 0 <= i < j < |trajectories|
        ensures trajectories[i].reportId != trajectories[j].reportId && trajectories[i].capturedAt != trajectories[j].capturedAt
      {
        assert IdOf(trajectories[i]) != IdOf(trajectories[j]) && CaptureOf(trajectories[i]) != CaptureOf(trajectories[j]);
      }
    }
  }

  lemma ApartReviews(grounded: seq<GroundedReport>)
    ensures DistinctBy(grounded, GroundedReportIdOf) <==>
            forall i, j :: 0 <= i < j < |grounded| ==> grounded[i].reportId != grounded[j].reportId
  {
    DistinctPositions(grounded, GroundedReportIdOf);
    if Apart(grounded, GroundedReportIdOf) {
      forall i, j | 0 <= i < j < |grounded| ensures grounded[i].reportId != grounded[j].reportId {
        assert GroundedReportIdOf(grounded[i]) != GroundedReportIdOf(grounded[j]);
      }
    }
  }

  lemma ReferencedAlike(trajectories: seq<ScoreReport>, captures: seq<ScoreReport>, g: GroundedReport)
    requires forall t :: t in captures <==> t in trajectories
    ensures Referenced(trajectories, g) <==> Referenced(captures, g)
  {
  }

  lemma ReviewsFit(grounded: seq<GroundedReport>, trajectories: seq<ScoreReport>, captures: seq<ScoreReport>)
    requires DistinctBy(grounded, GroundedReportIdOf) && forall t :: t in captures <==> t in trajectories
    ensures Bind(captures, grounded).Success? && Keys(grounded, GroundedReportIdOf) <= Keys(captures, GroundedIdOf) <==>
            && (forall t :: t in trajectories ==> Reviewed(grounded, t))
            && forall g :: g in grounded ==> Referenced(trajectories, g)
  {
    BindMeaning(captures, grounded);
    ReferencedKeys(grounded, captures);
    forall g ensures Referenced(trajectories, g) <==> Referenced(captures, g) {
      ReferencedAlike(trajectories, captures, g);
    }
  }

  /** Reports that fit together amount to a case, and no others do. */
  lemma CaseFits(
    policy: ReleasePolicy, relationship: RelationshipReport, grounded: seq<GroundedReport>, trajectories: seq<ScoreReport>,
    drifts: seq<DriftReport>)
    ensures CaseOf(policy, relationship, grounded, trajectories, drifts).Success? <==> Fit(grounded, trajectories)
  {
    var captures := Sort(trajectories, EarlierCapture);
    SortedMembers(trajectories);
    ApartReports(trajectories);
    ApartReviews(grounded);
    if DistinctBy(grounded, GroundedReportIdOf) {
      ReviewsFit(grounded, trajectories, captures);
    }
  }

  ghost predicate SameMembersAs<T(!new)>(xs: seq<T>, ys: seq<T>) {
    forall x :: x in xs <==> x in ys
  }

  /** Each capture has its own review beside it. */
  ghost predicate OwnReviews(c: Case, grounded: seq<GroundedReport>) {
    && |c.reviews| == |c.captures| && DistinctBy(grounded, GroundedReportIdOf)
    && forall i :: 0 <= i < |c.captures| ==> ReviewOf(grounded, c.captures[i], c.reviews[i])
  }

  /** The case has the reports as supplied: captures in time order, each with its own review. */
  ghost predicate Arranges(c: Case, grounded: seq<GroundedReport>, trajectories: seq<ScoreReport>) {
    && OrderedCase(c) && c.captures == Sort(trajectories, EarlierCapture) && OwnReviews(c, grounded)
    && SameMembersAs(c.captures, trajectories) && SameMembersAs(c.reviews, grounded)
  }

  lemma ReviewListed(c: Case, grounded: seq<GroundedReport>, g: GroundedReport)
    requires OwnReviews(c, grounded) && g in grounded && Referenced(c.captures, g)
    ensures g in c.reviews
  {
    var t :| t in c.captures && t.groundedId == g.reportId;
    var i :| 0 <= i < |c.captures| && c.captures[i] == t;
    assert ReviewOf(grounded, c.captures[i], c.reviews[i]);
    assert GroundedReportIdOf(c.reviews[i]) == GroundedReportIdOf(g);
    OneWithKey(grounded, GroundedReportIdOf, c.reviews[i], g);
  }

  lemma ReviewsListed(c: Case, grounded: seq<GroundedReport>)
    requires OwnReviews(c, grounded) && Keys(grounded, GroundedReportIdOf) <= Keys(c.captures, GroundedIdOf)
    ensures SameMembersAs(c.reviews, grounded)
  {
    ReferencedKeys(grounded, c.captures);
    forall g | g in grounded ensures g in c.reviews {
      ReviewListed(c, grounded, g);
    }
    forall g | g in c.reviews ensures g in grounded {
      var i :| 0 <= i < |c.reviews| && c.reviews[i] == g;
      assert ReviewOf(grounded, c.captures[i], c.reviews[i]);
    }
  }

  lemma CaseParts(
    policy: ReleasePolicy, relationship: RelationshipReport, grounded: seq<GroundedReport>, trajectories: seq<ScoreReport>,
    drifts: seq<DriftReport>) returns (c: Case)
    requires CaseOf(policy, relationship, grounded, trajectories, drifts).Success?
    ensures c == CaseOf(policy, relationship, grounded, trajectories, drifts).value
    ensures c.policy == policy && c.relationship == relationship && c.drifts == drifts
    ensures c.captures == Sort(trajectories, EarlierCapture) && OwnReviews(c, grounded)
    ensures Keys(grounded, GroundedReportIdOf) <= Keys(c.captures, GroundedIdOf)
  {
    c := CaseOf(policy, relationship, grounded, trajectories, drifts).value;
    BindMeaning(c.captures, grounded);
  }

  lemma CaseArranges(
    policy: ReleasePolicy, relationship: RelationshipReport, grounded: seq<GroundedReport>, trajectories: seq<ScoreReport>,
    drifts: seq<DriftReport>)
    requires relationship.caseCount >= 1 && forall i :: 0 <= i < |grounded| ==> grounded[i].caseCount >= 1
    requires CaseOf(policy, relationship, grounded, trajectories, drifts).Success?
    ensures var c := CaseOf(policy, relationship, grounded, trajectories, drifts).value;
            Arranges(c, grounded, trajectories) && c.policy == policy && c.relationship == relationship && c.drifts == drifts
  {
    var c := CaseParts(policy, relationship, grounded, trajectories, drifts);
    CaseOrdered(policy, relationship, grounded, trajectories, drifts);
    SortedMembers(trajectories);
    ReviewsListed(c, grounded);
  }

  // ---- extremes, one report at a time ----

  lemma WorstAtLeast(c: Case, f: Summary -> real, m: real)
    requires c.captures != []
    ensures Worst(c, f) >= m <==> forall t :: t in c.captures ==> f(t.overall) >= m
  {
    var values := Apply(c.captures, (t: ScoreReport) => f(t.overall));
    var i :| 0 <= i < |values| && values[i] == MinOf(values);
    assert c.captures[i] in c.captures;
    forall t | t in c.captures ensures f(t.overall) >= MinOf(values) {
      var j :| 0 <= j < |c.captures| && c.captures[j] == t;
      assert values[j] == f(t.overall);
    }
  }

  lemma HighestAtMost(c: Case, f: Summary -> real, m: real)
    requires c.captures != []
    ensures Highest(c, f) <= m <==> forall t :: t in c.captures ==> f(t.overall) <= m
  {
    var values := Apply(c.captures, (t: ScoreReport) => f(t.overall));
    var i :| 0 <= i < |values| && values[i] == MaxOf(values);
    assert c.captures[i] in c.captures;
    forall t | t in c.captures ensures f(t.overall) <= MaxOf(values) {
      var j :| 0 <= j < |c.captures| && c.captures[j] == t;
      assert values[j] == f(t.overall);
    }
  }

  lemma LeastAtLeast(reviews: seq<GroundedReport>, f: GroundedReport -> real, m: real)
    requires reviews != []
    ensures MinOf(Apply(reviews, f)) >= m <==> forall g :: g in reviews ==> f(g) >= m
  {
    var values := Apply(reviews, f);
    var i :| 0 <= i < |values| && values[i] == MinOf(values);
    assert reviews[i] in reviews;
    forall g | g in reviews ensures f(g) >= MinOf(values) {
      var j :| 0 <= j < |reviews| && reviews[j] == g;
      assert values[j] == f(g);
    }
  }

  lemma KnownAtMost(reviews: seq<GroundedReport>, f: GroundedReport -> Option<real>, m: real)
    requires reviews != []
    ensures AllAtMost(Apply(reviews, f), m) <==> forall g :: g in reviews ==> f(g).Some? && f(g).value <= m
  {
    var values := Apply(reviews, f);
    assert forall i :: 0 <= i < |values| ==> values[i] == f(reviews[i]) && reviews[i] in reviews;
    if AllKnown(values) {
      var known := Known(values);
      var i :| 0 <= i < |known| && known[i] == MaxOf(known);
      assert f(reviews[i]) == values[i];
      forall g | g in reviews ensures f(g).Some? && f(g).value <= MaxOf(known) {
        var j :| 0 <= j < |reviews| && reviews[j] == g;
        assert known[j] == f(g).value;
      }
    }
  }

  lemma KnownAtLeast(reviews: seq<GroundedReport>, f: GroundedReport -> Option<real>, m: real)
    requires reviews != []
    ensures AllAtLeast(Apply(reviews, f), m) <==> forall g :: g in reviews ==> f(g).Some? && f(g).value >= m
  {
    var values := Apply(reviews, f);
    assert forall i :: 0 <= i < |values| ==> values[i] == f(reviews[i]) && reviews[i] in reviews;
    if AllKnown(values) {
      var known := Known(values);
      var i :| 0 <= i < |known| && known[i] == MinOf(known);
      assert f(reviews[i]) == values[i];
      forall g | g in reviews ensures f(g).Some? && f(g).value >= MinOf(known) {
        var j :| 0 <= j < |reviews| && reviews[j] == g;
        assert known[j] == f(g).value;
      }
    }
  }

  // ---- identities and totals ----

  lemma FirstCapture(c: Case, t: ScoreReport)
    requires SoundCase(c) && SystemsStable(c) && t in c.captures
    ensures t.system == c.captures[0].system && t.benchmark == c.captures[0].benchmark
  {
  }

  lemma SystemsMeaning(c: Case)
    requires SoundCase(c)
    ensures SystemsStable(c) <==>
              && (forall s, t :: s in c.captures && t in c.captures ==> s.system == t.system && s.benchmark == t.benchmark)
              && forall g, t :: g in c.reviews && t in c.captures ==> g.system == t.system
  {
    assert c.captures[0] in c.captures;
    if SystemsStable(c) {
      forall t | t in c.captures ensures t.system == c.captures[0].system && t.benchmark == c.captures[0].benchmark {
        FirstCapture(c, t);
      }
    } else if i :| 0 <= i < |c.captures| && (c.captures[i].system != c.captures[0].system
                                             || c.captures[i].benchmark != c.captures[0].benchmark) {
      assert c.captures[i] in c.captures;
    } else {
      var i :| 0 <= i < |c.reviews| && c.reviews[i].system != c.captures[0].system;
      assert c.reviews[i] in c.reviews;
    }
  }

  lemma CountsOfReview(c: Case, grounded: seq<GroundedReport>, i: nat)
    requires OwnReviews(c, grounded) && i < |c.captures|
    ensures AnsweredIn(grounded, c.captures[i]) == c.reviews[i].answeredCount
    ensures CasesIn(grounded, c.captures[i]) == c.reviews[i].caseCount
  {
    var t := c.captures[i];
    assert ReviewOf(grounded, t, c.reviews[i]);
    forall g | ReviewOf(grounded, t, g) ensures g == c.reviews[i] {
      assert GroundedReportIdOf(g) == GroundedReportIdOf(c.reviews[i]);
      OneWithKey(grounded, GroundedReportIdOf, g, c.reviews[i]);
    }
  }

  lemma TotalOfReviews(
    c: Case, grounded: seq<GroundedReport>, trajectories: seq<ScoreReport>, f: GroundedReport -> int, count: ScoreReport -> int)
    requires Arranges(c, grounded, trajectories)
    requires forall i :: 0 <= i < |c.captures| ==> count(c.captures[i]) == f(c.reviews[i])
    ensures Total(Apply(c.reviews, f)) == SumOver(trajectories, count)
  {
    TotalIsSum(Apply(c.reviews, f), c.captures, count);
    SumSorted(trajectories, EarlierCapture, count);
  }

  lemma ShareReaches(part: int, whole: int, m: real)
    requires whole > 0
    ensures Share(part, whole) >= m <==> Reaches(part, whole, m)
  {
    QuotientBounds(part as real, whole as real, m);
  }

  lemma TotalsMeaning(c: Case, grounded: seq<GroundedReport>, trajectories: seq<ScoreReport>)
    requires Arranges(c, grounded, trajectories)
    ensures Total(Apply(c.reviews, (g: GroundedReport) => g.answeredCount)) == AnsweredCases(grounded, trajectories)
    ensures Total(Apply(c.reviews, (g: GroundedReport) => g.caseCount)) == ReviewedCases(grounded, trajectories)
  {
    var answered, cases := (t: ScoreReport) => AnsweredIn(grounded, t), (t: ScoreReport) => CasesIn(grounded, t);
    forall i | 0 <= i < |c.captures|
      ensures answered(c.captures[i]) == c.reviews[i].answeredCount && cases(c.captures[i]) == c.reviews[i].caseCount
    {
      CountsOfReview(c, grounded, i);
    }
    TotalOfReviews(c, grounded, trajectories, (g: GroundedReport) => g.answeredCount, answered);
    TotalOfReviews(c, grounded, trajectories, (g: GroundedReport) => g.caseCount, cases);
  }

  lemma RateOfTotals(c: Case, grounded: seq<GroundedReport>, trajectories: seq<ScoreReport>)
    requires Arranges(c, grounded, trajectories)
    ensures ReviewedCases(grounded, trajectories) > 0
    ensures AnsweredRate(c) == Share(AnsweredCases(grounded, trajectories), ReviewedCases(grounded, trajectories))
  {
    TotalsMeaning(c, grounded, trajectories);
    TotalPositive(c.reviews);
  }

  lemma CoverageMeaning(c: Case, grounded: seq<GroundedReport>, trajectories: seq<ScoreReport>, m: real)
    requires Arranges(c, grounded, trajectories)
    ensures AnsweredRate(c) >= m <==>
            Reaches(AnsweredCases(grounded, trajectories), ReviewedCases(grounded, trajectories), m)
  {
    RateOfTotals(c, grounded, trajectories);
    ShareReaches(AnsweredCases(grounded, trajectories), ReviewedCases(grounded, trajectories), m);
  }

  lemma TotalCasesMeaning(c: Case, grounded: seq<GroundedReport>, trajectories: seq<ScoreReport>)
    requires Arranges(c, grounded, trajectories)
    ensures Total(Apply(c.captures, (t: ScoreReport) => t.caseCount)) == SumOver(trajectories, (t: ScoreReport) => t.caseCount)
  {
    var count := (t: ScoreReport) => t.caseCount;
    TotalIsSum(Apply(c.captures, count), c.captures, count);
    SumSorted(trajectories, EarlierCapture, count);
  }

  // ---- the drift chain ----

  lemma NextIsFollowing(captures: seq<ScoreReport>, trajectories: seq<ScoreReport>, i: nat)
    requires InTimeOrder(captures) && SameMembersAs(captures, trajectories) && i + 1 < |captures|
    ensures Follows(trajectories, captures[i], captures[i + 1])
  {
    assert captures[i] in captures && captures[i + 1] in captures;
    forall t | t in trajectories ensures !(captures[i].capturedAt < t.capturedAt < captures[i + 1].capturedAt) {
      var j :| 0 <= j < |captures| && captures[j] == t;
    }
  }

  lemma FollowingIsNext(captures: seq<ScoreReport>, trajectories: seq<ScoreReport>, a: ScoreReport, b: ScoreReport)
    returns (i: nat)
    requires InTimeOrder(captures) && SameMembersAs(captures, trajectories) && Follows(trajectories, a, b)
    ensures i + 1 < |captures| && captures[i] == a && captures[i + 1] == b
  {
    assert a in captures && b in captures;
    i :| 0 <= i < |captures| && captures[i] == a;
    var j :| 0 <= j < |captures| && captures[j] == b;
    assert i < j;
    assert captures[i + 1] in captures && captures[i + 1] in trajectories;
  }

  lemma ApartDrifts(drifts: seq<DriftReport>)
    ensures DistinctBy(drifts, PairOf) <==> forall i, j :: 0 <= i < j < |drifts| ==> PairOf(drifts[i]) != PairOf(drifts[j])
  {
    DistinctPositions(drifts, PairOf);
  }

  /** The captures of the case are those supplied, in time order. */
  ghost predicate Chronicles(c: Case, trajectories: seq<ScoreReport>) {
    OrderedCase(c) && SameMembersAs(c.captures, trajectories)
  }

  lemma StepCompared(c: Case, trajectories: seq<ScoreReport>, i: nat)
    requires Chronicles(c, trajectories) && ChainComplete(c) && i + 1 < |c.captures|
    ensures Chain(c)[i] in c.drifts && Compares(Chain(c)[i], c.captures[i], c.captures[i + 1], c.policy.drift)
    ensures ComparesSome(trajectories, Chain(c)[i], c.policy.drift)
    ensures ComparedBySome(c.drifts, c.captures[i], c.captures[i + 1], c.policy.drift)
  {
    assert DriftMatches(c, i);
    ChainStep(c, i);
    NextIsFollowing(c.captures, trajectories, i);
    assert Compares(Chain(c)[i], c.captures[i], c.captures[i + 1], c.policy.drift);
  }

  lemma ChainIsSupplied(c: Case, trajectories: seq<ScoreReport>)
    requires Chronicles(c, trajectories) && ChainComplete(c)
    ensures ChainSupplied(trajectories, c.drifts, c.policy.drift)
  {
    ApartDrifts(c.drifts);
    forall d | d in c.drifts ensures ComparesSome(trajectories, d, c.policy.drift) {
      ChainMembers(c, d);
      var i :| 0 <= i < |Chain(c)| && Chain(c)[i] == d;
      StepCompared(c, trajectories, i);
    }
    forall a, b | Follows(trajectories, a, b) ensures ComparedBySome(c.drifts, a, b, c.policy.drift) {
      var i := FollowingIsNext(c.captures, trajectories, a, b);
      StepCompared(c, trajectories, i);
    }
  }

  lemma ComparedPair(d: DriftReport, a: ScoreReport, b: ScoreReport, t: Thresholds)
    requires Compares(d, a, b, t)
    ensures PairOf(d) == (a.reportId, b.reportId)
  {
  }

  lemma OnlyWithPair(drifts: seq<DriftReport>, d: DriftReport)
    requires DistinctBy(drifts, PairOf) && d in drifts
    ensures Lookup(drifts, PairOf, PairOf(d)) == Some(d) && PairOf(d) in Keys(drifts, PairOf)
  {
    assert HasKey(drifts, PairOf, PairOf(d));
    KeysMember(drifts, PairOf, PairOf(d));
    OneWithKey(drifts, PairOf, d, Lookup(drifts, PairOf, PairOf(d)).value);
  }

  lemma SuppliedAt(c: Case, trajectories: seq<ScoreReport>, i: nat)
    requires Chronicles(c, trajectories) && i + 1 < |c.captures| && DistinctBy(c.drifts, PairOf)
    requires ComparedBySome(c.drifts, c.captures[i], c.captures[i + 1], c.policy.drift)
    ensures DriftMatches(c, i) && ConsecutivePair(c.captures, i) in Keys(c.drifts, PairOf)
  {
    var d :| d in c.drifts && Compares(d, c.captures[i], c.captures[i + 1], c.policy.drift);
    ComparedPair(d, c.captures[i], c.captures[i + 1], c.policy.drift);
    OnlyWithPair(c.drifts, d);
  }

  lemma PairSupplied(c: Case, trajectories: seq<ScoreReport>, k: (string, string))
    requires Chronicles(c, trajectories) && ChainSupplied(trajectories, c.drifts, c.policy.drift) && k in Keys(c.drifts, PairOf)
    ensures k in ConsecutivePairs(c.captures)
  {
    KeysMember(c.drifts, PairOf, k);
    var d :| d in c.drifts && PairOf(d) == k;
    assert ComparesSome(trajectories, d, c.policy.drift);
    var a, b :| Follows(trajectories, a, b) && Compares(d, a, b, c.policy.drift);
    ComparedPair(d, a, b, c.policy.drift);
    var i := FollowingIsNext(c.captures, trajectories, a, b);
    assert ConsecutivePairs(c.captures)[i] == k;
  }

  lemma AllSupplied(c: Case, trajectories: seq<ScoreReport>)
    requires Chronicles(c, trajectories) && ChainSupplied(trajectories, c.drifts, c.policy.drift) && DistinctBy(c.drifts, PairOf)
    ensures forall i :: 0 <= i < |c.captures| - 1 ==> DriftMatches(c, i)
  {
    forall i | 0 <= i < |c.captures| - 1 ensures DriftMatches(c, i) {
      NextIsFollowing(c.captures, trajectories, i);
      SuppliedAt(c, trajectories, i);
    }
  }

  lemma PairsSupplied(c: Case, trajectories: seq<ScoreReport>, k: (string, string))
    requires Chronicles(c, trajectories) && ChainSupplied(trajectories, c.drifts, c.policy.drift) && DistinctBy(c.drifts, PairOf)
    requires k in ConsecutivePairs(c.captures)
    ensures k in Keys(c.drifts, PairOf)
  {
    var i :| 0 <= i < |c.captures| - 1 && ConsecutivePairs(c.captures)[i] == k;
    NextIsFollowing(c.captures, trajectories, i);
    SuppliedAt(c, trajectories, i);
  }

  lemma SuppliedPairs(c: Case, trajectories: seq<ScoreReport>)
    requires Chronicles(c, trajectories) && ChainSupplied(trajectories, c.drifts, c.policy.drift) && DistinctBy(c.drifts, PairOf)
    ensures Keys(c.drifts, PairOf) == set p | p in ConsecutivePairs(c.captures)
  {
    forall k ensures k in Keys(c.drifts, PairOf) <==> k in ConsecutivePairs(c.captures) {
      if k in Keys(c.drifts, PairOf) {
        PairSupplied(c, trajectories, k);
      }
      if k in ConsecutivePairs(c.captures) {
        PairsSupplied(c, trajectories, k);
      }
    }
  }

  lemma SuppliedIsChain(c: Case, trajectories: seq<ScoreReport>)
    requires Chronicles(c, trajectories) && ChainSupplied(trajectories, c.drifts, c.policy.drift)
    ensures ChainComplete(c)
  {
    ApartDrifts(c.drifts);
    AllSupplied(c, trajectories);
    SuppliedPairs(c, trajectories);
  }

  lemma StableMeaning(c: Case)
    requires SoundCase(c) && ChainComplete(c)
    ensures ChainStable(c) <==> forall d :: d in c.drifts ==> d.status == Stable
  {
    forall i | 0 <= i < |c.captures| - 1 ensures StepStable(c, i) <==> Chain(c)[i].status == Stable {
      ChainStep(c, i);
    }
    if ChainStable(c) {
      forall d | d in c.drifts ensures d.status == Stable {
        ChainMembers(c, d);
        var i :| 0 <= i < |Chain(c)| && Chain(c)[i] == d;
        assert StepStable(c, i);
      }
    } else {
      var i :| 0 <= i < |c.captures| - 1 && !StepStable(c, i);
      ChainStep(c, i);
    }
  }

  // ---- the gates ----

  lemma RateGates(c: Case, id: GateId)
    requires SoundCase(c)
    requires id in {PolicyCompliance, EvidenceInspection, ClaimTraceGate, TrajectoryStrictPass, TrajectoryEndToEnd}
    ensures Passes(c, id) <==> CapturesMet(c.policy, c.captures, id)
  {
    var p := c.policy;
    match id
    case PolicyCompliance => WorstAtLeast(c, (s: Summary) => s.compliance, p.minCompliance);
    case EvidenceInspection => WorstAtLeast(c, (s: Summary) => s.evidence, p.minInspection);
    case ClaimTraceGate => WorstAtLeast(c, (s: Summary) => s.claims, p.minClaimTrace);
    case TrajectoryStrictPass => WorstAtLeast(c, (s: Summary) => s.strict, p.minStrictPass);
    case TrajectoryEndToEnd => WorstAtLeast(c, (s: Summary) => s.endToEnd, p.minEndToEnd);
  }

  lemma EachCapture(c: Case)
    requires SoundCase(c)
    ensures Passes(c, CaptureSampleSize) <==> CapturesMet(c.policy, c.captures, CaptureSampleSize)
  {
    assert forall i :: 0 <= i < |c.captures| ==> c.captures[i] in c.captures;
  }

  lemma BudgetGates(c: Case, id: GateId)
    requires SoundCase(c) && id in {CaptureSampleSize, StepBudget, LatencyBudget}
    ensures Passes(c, id) <==> CapturesMet(c.policy, c.captures, id)
  {
    match id
    case CaptureSampleSize => EachCapture(c);
    case StepBudget => HighestAtMost(c, (s: Summary) => s.p95Steps, c.policy.maxP95Steps);
    case LatencyBudget => HighestAtMost(c, (s: Summary) => s.p95Latency, c.policy.maxP95Latency);
  }

  lemma EachReview(c: Case)
    requires SoundCase(c)
    ensures Passes(c, GroundedAdjudication) <==> ReviewsMet(c.policy, c.reviews, GroundedAdjudication)
  {
    assert forall i :: 0 <= i < |c.reviews| ==> c.reviews[i] in c.reviews;
  }

  lemma ReviewGates(c: Case, id: GateId)
    requires SoundCase(c) && id in {GroundedAdjudication, GroundedStrictPass, GroundedUnsupported, GroundedCitations}
    ensures Passes(c, id) <==> ReviewsMet(c.policy, c.reviews, id)
  {
    var p := c.policy;
    match id
    case GroundedAdjudication => EachReview(c);
    case GroundedStrictPass => LeastAtLeast(c.reviews, (g: GroundedReport) => g.strictPass, p.minGroundedPass);
    case GroundedUnsupported => KnownAtMost(c.reviews, (g: GroundedReport) => g.unsupported, p.maxUnsupported);
    case GroundedCitations => KnownAtLeast(c.reviews, (g: GroundedReport) => g.citations, p.minCitations);
  }

  lemma TotalGates(c: Case, grounded: seq<GroundedReport>, trajectories: seq<ScoreReport>, id: GateId)
    requires Arranges(c, grounded, trajectories) && id in {CaptureCount, TotalCases, GroundedCoverage}
    ensures Passes(c, id) <==> TotalsMet(c.policy, grounded, trajectories, id)
  {
    match id
    case CaptureCount => SortedMembers(trajectories);
    case TotalCases => TotalCasesMeaning(c, grounded, trajectories);
    case GroundedCoverage => CoverageMeaning(c, grounded, trajectories, c.policy.minAnsweredRate);
  }

  lemma RelationshipGates(c: Case, id: GateId)
    requires SoundCase(c)
    requires id in {RelationshipSampleSize, RelationshipMacroF1, RelationshipAccuracyDelta, RelationshipRegressionRate}
    ensures Passes(c, id) <==> RelationshipMet(c.policy, c.relationship, id)
  {
    var r := c.relationship;
    QuotientBounds(r.regressions as real, r.caseCount as real, c.policy.maxRegressionRate);
  }

  lemma DriftGates(c: Case, trajectories: seq<ScoreReport>, id: GateId)
    requires Chronicles(c, trajectories) && id in {DriftChain, DriftStability}
    ensures Passes(c, id) <==> DriftMet(c.policy, trajectories, c.drifts, id)
  {
    ChainVerdicts(c);
    if ChainComplete(c) {
      ChainIsSupplied(c, trajectories);
      StableMeaning(c);
    } else if ChainSupplied(trajectories, c.drifts, c.policy.drift) {
      SuppliedIsChain(c, trajectories);
    }
  }

  lemma CapturesAlike(p: ReleasePolicy, xs: seq<ScoreReport>, ys: seq<ScoreReport>, id: GateId)
    requires SameMembersAs(xs, ys)
    ensures CapturesMet(p, xs, id) == CapturesMet(p, ys, id)
  {
  }

  lemma ReviewsAlike(p: ReleasePolicy, xs: seq<GroundedReport>, ys: seq<GroundedReport>, id: GateId)
    requires SameMembersAs(xs, ys)
    ensures ReviewsMet(p, xs, id) == ReviewsMet(p, ys, id)
  {
  }

  lemma IdentityAlike(
    grounded: seq<GroundedReport>, reviews: seq<GroundedReport>, trajectories: seq<ScoreReport>, captures: seq<ScoreReport>,
    id: GateId)
    requires SameMembersAs(grounded, reviews) && SameMembersAs(trajectories, captures)
    ensures IdentityMet(grounded, trajectories, id) == IdentityMet(reviews, captures, id)
  {
  }

  lemma IdentityGate(c: Case, grounded: seq<GroundedReport>, trajectories: seq<ScoreReport>, id: GateId)
    requires Arranges(c, grounded, trajectories) && id == CandidateIdentity
    ensures Passes(c, id) <==> IdentityMet(grounded, trajectories, id)
  {
    SystemsMeaning(c);
    IdentityAlike(grounded, c.reviews, trajectories, c.captures, id);
  }

  /** The gates on single captures and single reviews. */
  predicate OnOneReport(id: GateId) {
    id in {CaptureSampleSize, PolicyCompliance, EvidenceInspection, ClaimTraceGate, TrajectoryStrictPass, TrajectoryEndToEnd,
           StepBudget, LatencyBudget, GroundedAdjudication, GroundedStrictPass, GroundedUnsupported, GroundedCitations}
  }

  lemma SingleGates(c: Case, grounded: seq<GroundedReport>, trajectories: seq<ScoreReport>, id: GateId)
    requires Arranges(c, grounded, trajectories) && OnOneReport(id)
    ensures Passes(c, id) <==> CapturesMet(c.policy, trajectories, id) && ReviewsMet(c.policy, grounded, id)
  {
    CapturesAlike(c.policy, c.captures, trajectories, id);
    ReviewsAlike(c.policy, c.reviews, grounded, id);
    if id in {PolicyCompliance, EvidenceInspection, ClaimTraceGate, TrajectoryStrictPass, TrajectoryEndToEnd} {
      RateGates(c, id);
    } else if id in {CaptureSampleSize, StepBudget, LatencyBudget} {
      BudgetGates(c, id);
    } else {
      ReviewGates(c, id);
    }
  }

  lemma JointGates(c: Case, grounded: seq<GroundedReport>, trajectories: seq<ScoreReport>, id: GateId)
    requires Arranges(c, grounded, trajectories) && !OnOneReport(id)
    ensures Passes(c, id) <==>
              && RelationshipMet(c.policy, c.relationship, id) && TotalsMet(c.policy, grounded, trajectories, id)
              && IdentityMet(grounded, trajectories, id) && DriftMet(c.policy, trajectories, c.drifts, id)
  {
    if id in {CaptureCount, TotalCases, GroundedCoverage} {
      TotalGates(c, grounded, trajectories, id);
    } else if id in {DriftChain, DriftStability} {
      DriftGates(c, trajectories, id);
    } else if id == CandidateIdentity {
      IdentityGate(c, grounded, trajectories, id);
    } else {
      RelationshipGates(c, id);
    }
  }

  lemma SingleMet(
    p: ReleasePolicy, r: RelationshipReport, grounded: seq<GroundedReport>, trajectories: seq<ScoreReport>,
    drifts: seq<DriftReport>, id: GateId)
    ensures OnOneReport(id) ==>
              (Met(p, r, grounded, trajectories, drifts, id) <==> CapturesMet(p, trajectories, id) && ReviewsMet(p, grounded, id))
    ensures !OnOneReport(id) ==> CapturesMet(p, trajectories, id) && ReviewsMet(p, grounded, id)
  {
  }

  lemma GateMeaning(c: Case, grounded: seq<GroundedReport>, trajectories: seq<ScoreReport>, id: GateId)
    requires Arranges(c, grounded, trajectories)
    ensures Passes(c, id) <==> Met(c.policy, c.relationship, grounded, trajectories, c.drifts, id)
  {
    SingleMet(c.policy, c.relationship, grounded, trajectories, c.drifts, id);
    if OnOneReport(id) {
      SingleGates(c, grounded, trajectories, id);
    } else {
      JointGates(c, grounded, trajectories, id);
    }
  }

  lemma {:induction false} ReasonListed(gates: seq<Gate>, id: GateId)
    requires forall i :: 0 <= i < |gates| ==> gates[i].reason == if gates[i].passed then None else Some(gates[i].id)
    ensures id in Reasons(gates) <==> exists i :: 0 <= i < |gates| && gates[i].id == id && !gates[i].passed
  {
    if gates != [] {
      var before, last := gates[..|gates| - 1], gates[|gates| - 1];
      ReasonListed(before, id);
      assert gates == before + [last];
      if !last.passed && last.id == id {
        assert gates[|gates| - 1].id == id;
      }
      if i :| 0 <= i < |before| && before[i].id == id && !before[i].passed {
        assert gates[i] == before[i];
      }
    }
  }

  lemma ReasonsOfGates(c: Case, id: GateId)
    requires SoundCase(c)
    ensures id in Reasons(GatesOf(c)) <==> !Passes(c, id)
  {
    var gates := GatesOf(c);
    ReasonListed(gates, id);
    assert gates[IndexOf(id)] == GateOf(c, id);
    if i :| 0 <= i < |gates| && gates[i].id == id && !gates[i].passed {
      assert gates[i] == GateOf(c, GATE_IDS[i]);
    }
  }

  lemma EligibleAllPass(c: Case, now: int)
    requires SoundCase(c)
    ensures Draft(c, now).status == EligibleForHumanReview <==> forall id: GateId :: Passes(c, id)
  {
    var gates := GatesOf(c);
    AllPassedCount(gates);
    if forall i :: 0 <= i < |gates| ==> gates[i].passed {
      forall id: GateId ensures Passes(c, id) {
        assert gates[IndexOf(id)] == GateOf(c, id);
      }
    }
  }

  /** What an assessment is, over the reports it was made from. */
  ghost predicate Assesses(
    a: Assessment, p: ReleasePolicy, r: RelationshipReport, grounded: seq<GroundedReport>, trajectories: seq<ScoreReport>,
    drifts: seq<DriftReport>)
  {
    && (a.status == EligibleForHumanReview <==> forall id: GateId :: Met(p, r, grounded, trajectories, drifts, id))
    && (forall id: GateId :: GateNamed(a.gates, id) <==> Met(p, r, grounded, trajectories, drifts, id))
    && (forall id: GateId :: id in a.reasons <==> !Met(p, r, grounded, trajectories, drifts, id))
  }

  /**
   An assessment exists exactly for reports that fit together, up to the limits of its lists; it is eligible
   exactly when the reports meet every gate, and names exactly the gates they do not meet.
   */
  lemma EvaluationMeaning(
    p: ReleasePolicy, r: RelationshipReport, grounded: seq<GroundedReport>, trajectories: seq<ScoreReport>,
    drifts: seq<DriftReport>, now: int)
    requires r.caseCount >= 1 && forall i :: 0 <= i < |grounded| ==> grounded[i].caseCount >= 1
    ensures var result := Evaluate(p, r, grounded, trajectories, drifts, now);
            && (result.Success? <==>
                  && Fit(grounded, trajectories) && |trajectories| <= 100 && |drifts| <= 99
                  && forall i, j :: 0 <= i < j < |drifts| ==> PairOf(drifts[i]) != PairOf(drifts[j]))
            && (result.Success? ==> Assesses(result.value, p, r, grounded, trajectories, drifts))
  {
    EvaluationAccepts(p, r, grounded, trajectories, drifts, now);
    CaseFits(p, r, grounded, trajectories, drifts);
    ApartDrifts(drifts);
    if Evaluate(p, r, grounded, trajectories, drifts, now).Success? {
      CaseAssessed(p, r, grounded, trajectories, drifts, now);
    }
  }

  lemma CaseAssessed(
    p: ReleasePolicy, r: RelationshipReport, grounded: seq<GroundedReport>, trajectories: seq<ScoreReport>,
    drifts: seq<DriftReport>, now: int)
    requires r.caseCount >= 1 && forall i :: 0 <= i < |grounded| ==> grounded[i].caseCount >= 1
    requires Evaluate(p, r, grounded, trajectories, drifts, now).Success?
    ensures Assesses(Evaluate(p, r, grounded, trajectories, drifts, now).value, p, r, grounded, trajectories, drifts)
  {
    var c := CaseOf(p, r, grounded, trajectories, drifts).value;
    CaseArranges(p, r, grounded, trajectories, drifts);
    EligibleAllPass(c, now);
    forall id: GateId ensures Passes(c, id) <==> Met(p, r, grounded, trajectories, drifts, id) {
      GateMeaning(c, grounded, trajectories, id);
    }
    forall id: GateId ensures GateNamed(GatesOf(c), id) <==> Met(p, r, grounded, trajectories, drifts, id) {
      GatePasses(c, id);
    }
    forall id: GateId ensures id in Reasons(GatesOf(c)) <==> !Met(p, r, grounded, trajectories, drifts, id) {
      ReasonsOfGates(c, id);
    }
  }
}
