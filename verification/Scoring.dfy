/** Trajectory outcomes of single cases and their summary, with the checks their constructors make. */
module Scoring {
  import opened Percentiles
  import opened RealBounds
  import opened Sorting
  import opened Wrappers

  datatype Action = InspectEvidence | DraftClaim | ChooseAbstention | Finalize

  datatype Step = Step(action: Action, evidenceIds: seq<string>, claimIds: seq<string>)

  datatype Trajectory = Trajectory(
    caseId: string, answered: bool, requiredEvidence: set<string>, steps: seq<Step>, compliant: bool,
    inputTokens: int, outputTokens: int, latency: real)

  datatype Outcome = Outcome(
    caseId: string, answered: bool, stepCount: int, inspected: int, required: int, traced: int, claims: int,
    evidenceRate: real, claimRate: real, policyCompliant: bool, terminationConsistent: bool,
    strictPass: bool, groundedPass: bool, endToEndPass: bool, inputTokens: int, outputTokens: int, latency: real)

  /** What the trajectory's own constructor has checked. */
  predicate ValidTrajectory(t: Trajectory) {
    && 1 <= |t.steps| <= 64 && t.inputTokens >= 1 && t.outputTokens >= 1 && t.latency >= 0.0
    && forall i :: 0 <= i < |t.steps| ==> (t.steps[i].action == DraftClaim ==> |t.steps[i].claimIds| == 1)
  }

  predicate Does(steps: seq<Step>, action: Action) {
    exists i :: 0 <= i < |steps| && steps[i].action == action
  }

  function Inspected(steps: seq<Step>): set<string> {
    set i, j | 0 <= i < |steps| && steps[i].action == InspectEvidence && 0 <= j < |steps[i].evidenceIds| :: steps[i].evidenceIds[j]
  }

  /** The last draft of each claim. */
  function Drafts(steps: seq<Step>): map<string, seq<string>>
    requires forall i :: 0 <= i < |steps| ==> (steps[i].action == DraftClaim ==> |steps[i].claimIds| == 1)
  {
    if steps == [] then map[]
    else
      var last := steps[|steps| - 1];
      var before := Drafts(steps[..|steps| - 1]);
      if last.action == DraftClaim then before[last.claimIds[0] := last.evidenceIds] else before
  }

  /** The claims whose last draft cites exactly the expected evidence. */
  function Traced(drafts: map<string, seq<string>>, expected: map<string, seq<string>>): set<string> {
    set c | c in expected && c in drafts && drafts[c] == expected[c]
  }

  function Share(part: int, whole: int): real
    requires whole != 0
  {
    part as real / whole as real
  }

  function Flag(b: bool): real {
    if b then 1.0 else 0.0
  }

  /** `_trajectory_outcome` */
  function OutcomeOf(t: Trajectory, groundedPass: bool, expected: map<string, seq<string>>): Outcome
    requires ValidTrajectory(t)
  {
    var inspected := Inspected(t.steps) * t.requiredEvidence;
    var traced := |Traced(Drafts(t.steps), expected)|;
    var drafted, abstained := Does(t.steps, DraftClaim), Does(t.steps, ChooseAbstention);
    var consistent := if t.answered then drafted && !abstained else abstained && !drafted;
    var evidenceRate := if t.requiredEvidence != {} then Share(|inspected|, |t.requiredEvidence|) else 1.0;
    var claimRate := if expected != map[] then Share(traced, |expected|) else Flag(consistent);
    var strict := t.compliant && consistent && evidenceRate == 1.0 && claimRate == 1.0;
    Outcome(t.caseId, t.answered, |t.steps|, |inspected|, |t.requiredEvidence|, traced, |expected|, evidenceRate, claimRate,
            t.compliant, consistent, strict, groundedPass, strict && groundedPass, t.inputTokens, t.outputTokens, t.latency)
  }

  predicate Near(a: real, b: real) {
    -0.000000000001 <= a - b <= 0.000000000001
  }

  /** The checks of the outcome's constructor. */
  predicate ValidOutcome(o: Outcome) {
    && 1 <= o.stepCount <= 64 && 0 <= o.inspected <= o.required && 0 <= o.traced <= o.claims
    && 0.0 <= o.evidenceRate <= 1.0 && 0.0 <= o.claimRate <= 1.0
    && Near(o.evidenceRate, if o.required != 0 then Share(o.inspected, o.required) else 1.0)
    && Near(o.claimRate, if o.claims != 0 then Share(o.traced, o.claims) else Flag(o.terminationConsistent))
    && o.strictPass == (o.policyCompliant && o.terminationConsistent && o.evidenceRate == 1.0 && o.claimRate == 1.0)
    && o.endToEndPass == (o.strictPass && o.groundedPass)
    && o.inputTokens >= 1 && o.outputTokens >= 1 && o.latency >= 0.0
  }

  lemma ShareIsRate(part: int, whole: int)
    requires 0 <= part <= whole && whole > 0
    ensures 0.0 <= Share(part, whole) <= 1.0
    ensures Share(part, whole) == 1.0 <==> part == whole
  {
    QuotientBounds(part as real, whole as real, 0.0);
    QuotientBounds(part as real, whole as real, 1.0);
    assert Share(part, whole) * whole as real == part as real;
  }

  lemma SubsetCount<T>(a: set<T>, b: set<T>)
    requires a <= b
    ensures |a| <= |b| && (|a| == |b| <==> a == b)
  {
    assert b == a + (b - a);
  }

  /** Every outcome passes its constructor's checks. */
  lemma OutcomeValid(t: Trajectory, groundedPass: bool, expected: map<string, seq<string>>)
    requires ValidTrajectory(t)
    ensures ValidOutcome(OutcomeOf(t, groundedPass, expected))
  {
    var inspected, traced := Inspected(t.steps) * t.requiredEvidence, Traced(Drafts(t.steps), expected);
    SubsetCount(inspected, t.requiredEvidence);
    SubsetCount(traced, expected.Keys);
    if t.requiredEvidence != {} {
      ShareIsRate(|inspected|, |t.requiredEvidence|);
    }
    if expected != map[] {
      assert |expected.Keys| == |expected|;
      ShareIsRate(|traced|, |expected|);
    }
  }

  /**
   A strict pass means: compliant, ended as it answered, inspected all required evidence, and the last
   draft of every claim of the response cites exactly its evidence.
   */
  lemma StrictPassMeaning(t: Trajectory, groundedPass: bool, expected: map<string, seq<string>>)
    requires ValidTrajectory(t)
    ensures OutcomeOf(t, groundedPass, expected).strictPass <==>
              && t.compliant && Does(t.steps, DraftClaim) == t.answered && Does(t.steps, ChooseAbstention) == !t.answered
              && t.requiredEvidence <= Inspected(t.steps)
              && forall c :: c in expected ==> c in Drafts(t.steps) && Drafts(t.steps)[c] == expected[c]
  {
    var inspected, traced := Inspected(t.steps) * t.requiredEvidence, Traced(Drafts(t.steps), expected);
    SubsetCount(inspected, t.requiredEvidence);
    SubsetCount(traced, expected.Keys);
    assert inspected == t.requiredEvidence <==> t.requiredEvidence <= Inspected(t.steps);
    if t.requiredEvidence != {} {
      ShareIsRate(|inspected|, |t.requiredEvidence|);
    }
    assert |expected.Keys| == |expected|;
    if expected != map[] {
      ShareIsRate(|traced|, |expected|);
    }
    assert traced == expected.Keys <==> forall c :: c in expected ==> c in traced;
  }

  // ---- summaries ----

  datatype Summary = Summary(
    caseCount: int, answeredCount: int, abstainedCount: int,
    compliance: real, termination: real, evidence: real, claims: real, strict: real, grounded: real, endToEnd: real,
    meanSteps: real, p95Steps: real, meanInput: real, meanOutput: real, meanLatency: real, p95Latency: real)

  function Sum(values: seq<real>): real {
    if values == [] then 0.0 else Sum(values[..|values| - 1]) + values[|values| - 1]
  }

  function Mean(values: seq<real>): real
    requires values != []
  {
    Sum(values) / |values| as real
  }

  function Map<T>(xs: seq<T>, f: T -> real): (r: seq<real>)
    ensures |r| == |xs| && forall i :: 0 <= i < |r| ==> r[i] == f(xs[i])
  {
    seq(|xs|, i requires 0 <= i < |xs| => f(xs[i]))
  }

  function Latencies(outcomes: seq<Outcome>): seq<real> {
    Map(outcomes, (o: Outcome) => o.latency)
  }

  function StepCounts(outcomes: seq<Outcome>): seq<real> {
    Map(outcomes, (o: Outcome) => o.stepCount as real)
  }

  function Answered(outcomes: seq<Outcome>): (n: nat)
    ensures n <= |outcomes|
  {
    if outcomes == [] then 0
    else Answered(outcomes[..|outcomes| - 1]) + (if outcomes[|outcomes| - 1].answered then 1 else 0)
  }

  datatype ScoreError = EmptySlice

  /** `_summary` */
  function Summarize(outcomes: seq<Outcome>): Result<Summary, ScoreError> {
    if outcomes == [] then Failure(EmptySlice)
    else
      var n := |outcomes|;
      Success(Summary(
        n, Answered(outcomes), n - Answered(outcomes),
        Mean(Map(outcomes, (o: Outcome) => Flag(o.policyCompliant))),
        Mean(Map(outcomes, (o: Outcome) => Flag(o.terminationConsistent))),
        Mean(Map(outcomes, (o: Outcome) => o.evidenceRate)), Mean(Map(outcomes, (o: Outcome) => o.claimRate)),
        Mean(Map(outcomes, (o: Outcome) => Flag(o.strictPass))), Mean(Map(outcomes, (o: Outcome) => Flag(o.groundedPass))),
        Mean(Map(outcomes, (o: Outcome) => Flag(o.endToEndPass))),
        Mean(StepCounts(outcomes)), Percentile(StepCounts(outcomes), 0.95),
        Mean(Map(outcomes, (o: Outcome) => o.inputTokens as real)), Mean(Map(outcomes, (o: Outcome) => o.outputTokens as real)),
        Mean(Latencies(outcomes)), Percentile(Latencies(outcomes), 0.95)))
  }

  predicate IsRate(x: real) {
    0.0 <= x <= 1.0
  }

  /** The checks of the summary's constructor. */
  predicate ValidSummary(s: Summary) {
    && s.caseCount >= 1 && s.answeredCount >= 0 && s.abstainedCount >= 0 && s.answeredCount + s.abstainedCount == s.caseCount
    && IsRate(s.compliance) && IsRate(s.termination) && IsRate(s.evidence) && IsRate(s.claims)
    && IsRate(s.strict) && IsRate(s.grounded) && IsRate(s.endToEnd)
    && 1.0 <= s.meanSteps <= 64.0 && 1.0 <= s.p95Steps <= 64.0 && s.meanInput >= 1.0 && s.meanOutput >= 1.0
    && s.meanLatency >= 0.0 && s.p95Latency >= 0.0
    && (s.caseCount == 1 ==> s.p95Steps >= s.meanSteps)
  }

  lemma {:induction false} SumWithin(values: seq<real>, lo: real, hi: real)
    requires forall i :: 0 <= i < |values| ==> lo <= values[i] <= hi
    ensures |values| as real * lo <= Sum(values) <= |values| as real * hi
  {
    if values != [] {
      SumWithin(values[..|values| - 1], lo, hi);
    }
  }

  lemma MeanWithin(values: seq<real>, lo: real, hi: real)
    requires values != [] && forall i :: 0 <= i < |values| ==> lo <= values[i] <= hi
    ensures lo <= Mean(values) <= hi
  {
    SumWithin(values, lo, hi);
    QuotientBounds(Sum(values), |values| as real, lo);
    QuotientBounds(Sum(values), |values| as real, hi);
  }

  lemma {:induction false} SumAtLeast(values: seq<real>, lo: real)
    requires forall i :: 0 <= i < |values| ==> lo <= values[i]
    ensures |values| as real * lo <= Sum(values)
  {
    if values != [] {
      SumAtLeast(values[..|values| - 1], lo);
    }
  }

  lemma MeanAtLeast(values: seq<real>, lo: real)
    requires values != [] && forall i :: 0 <= i < |values| ==> lo <= values[i]
    ensures lo <= Mean(values)
  {
    SumAtLeast(values, lo);
    QuotientBounds(Sum(values), |values| as real, lo);
  }

  /** The average of a property that is a rate in every outcome is a rate. */
  lemma RateMean(outcomes: seq<Outcome>, f: Outcome -> real)
    requires outcomes != [] && forall i :: 0 <= i < |outcomes| ==> IsRate(f(outcomes[i]))
    ensures IsRate(Mean(Map(outcomes, f)))
  {
    MeanWithin(Map(outcomes, f), 0.0, 1.0);
  }

  lemma SingleMean(values: seq<real>)
    requires |values| == 1
    ensures Mean(values) == values[0] == Percentile(values, 0.95)
  {
    assert values[..0] == [] && values[1..] == [] && values == [values[0]];
    assert Sum(values) == 0.0 + values[0];
    MixSame(values[0], SpotOf(1, 0.95).weight);
  }

  lemma RatesValid(outcomes: seq<Outcome>)
    requires outcomes != [] && forall i :: 0 <= i < |outcomes| ==> ValidOutcome(outcomes[i])
    ensures var s := Summarize(outcomes).value;
            && IsRate(s.compliance) && IsRate(s.termination) && IsRate(s.evidence) && IsRate(s.claims)
            && IsRate(s.strict) && IsRate(s.grounded) && IsRate(s.endToEnd)
  {
    RateMean(outcomes, (o: Outcome) => Flag(o.policyCompliant));
    RateMean(outcomes, (o: Outcome) => Flag(o.terminationConsistent));
    RateMean(outcomes, (o: Outcome) => o.evidenceRate);
    RateMean(outcomes, (o: Outcome) => o.claimRate);
    RateMean(outcomes, (o: Outcome) => Flag(o.strictPass));
    RateMean(outcomes, (o: Outcome) => Flag(o.groundedPass));
    RateMean(outcomes, (o: Outcome) => Flag(o.endToEndPass));
  }

  /** A non-empty slice of valid outcomes always has a summary, and it passes its constructor's checks. */
  lemma SummaryValid(outcomes: seq<Outcome>)
    requires forall i :: 0 <= i < |outcomes| ==> ValidOutcome(outcomes[i])
    ensures Summarize(outcomes).Success? <==> outcomes != []
    ensures Summarize(outcomes).Success? ==> ValidSummary(Summarize(outcomes).value)
  {
    if outcomes != [] {
      RatesValid(outcomes);
      StepsWithin(outcomes);
      MeanAtLeast(Map(outcomes, (o: Outcome) => o.inputTokens as real), 1.0);
      MeanAtLeast(Map(outcomes, (o: Outcome) => o.outputTokens as real), 1.0);
      LatencyAtLeast(outcomes);
      if |outcomes| == 1 {
        SingleMean(StepCounts(outcomes));
      }
    }
  }

  lemma StepsWithin(outcomes: seq<Outcome>)
    requires outcomes != [] && forall i :: 0 <= i < |outcomes| ==> ValidOutcome(outcomes[i])
    ensures 1.0 <= Mean(StepCounts(outcomes)) <= 64.0 && 1.0 <= Percentile(StepCounts(outcomes), 0.95) <= 64.0
  {
    MeanWithin(StepCounts(outcomes), 1.0, 64.0);
    PercentileWithin(StepCounts(outcomes), 0.95, 1.0, 64.0);
  }

  lemma LatencyAtLeast(outcomes: seq<Outcome>)
    requires outcomes != [] && forall i :: 0 <= i < |outcomes| ==> ValidOutcome(outcomes[i])
    ensures Mean(Latencies(outcomes)) >= 0.0 && Percentile(Latencies(outcomes), 0.95) >= 0.0
  {
    MeanAtLeast(Latencies(outcomes), 0.0);
    PercentileAtLeast(Latencies(outcomes), 0.95, 0.0);
  }

  /** Faster outcomes, case by case: no more steps and no more latency. */
  ghost predicate NoSlower(a: seq<Outcome>, b: seq<Outcome>) {
    |a| == |b| && forall i :: 0 <= i < |a| ==> a[i].stepCount <= b[i].stepCount && a[i].latency <= b[i].latency
  }

  /** If no case takes more steps or time, neither 95th percentile grows. */
  lemma NoSlowerSummary(a: seq<Outcome>, b: seq<Outcome>)
    requires a != [] && NoSlower(a, b)
    ensures Summarize(a).value.p95Steps <= Summarize(b).value.p95Steps
    ensures Summarize(a).value.p95Latency <= Summarize(b).value.p95Latency
  {
    PercentileMonotone(StepCounts(a), StepCounts(b), 0.95);
    PercentileMonotone(Latencies(a), Latencies(b), 0.95);
  }

  // ---- what an outcome and a summary count ----

  /** Step `i` drafts claim `c`, and no later step does. */
  predicate LastDraftAt(steps: seq<Step>, c: string, i: nat) {
    && i < |steps| && steps[i].action == DraftClaim && steps[i].claimIds == [c]
    && forall j :: i < j < |steps| ==> !(steps[j].action == DraftClaim && steps[j].claimIds == [c])
  }

  /** The last draft of the claim cites exactly this evidence. */
  ghost predicate LastCites(steps: seq<Step>, c: string, evidence: seq<string>) {
    exists i: nat :: LastDraftAt(steps, c, i) && steps[i].evidenceIds == evidence
  }

  lemma {:induction false} DraftsMeaning(steps: seq<Step>, c: string, evidence: seq<string>)
    requires forall i :: 0 <= i < |steps| ==> (steps[i].action == DraftClaim ==> |steps[i].claimIds| == 1)
    ensures c in Drafts(steps) && Drafts(steps)[c] == evidence <==> LastCites(steps, c, evidence)
  {
    if steps != [] {
      var n := |steps| - 1;
      var before, last := steps[..n], steps[n];
      DraftsMeaning(before, c, evidence);
      if last.action == DraftClaim && last.claimIds == [c] {
        assert LastDraftAt(steps, c, n);
      } else {
        if LastCites(before, c, evidence) {
          var i: nat :| LastDraftAt(before, c, i) && before[i].evidenceIds == evidence;
          assert LastDraftAt(steps, c, i);
        }
        if LastCites(steps, c, evidence) {
          var i: nat :| LastDraftAt(steps, c, i) && steps[i].evidenceIds == evidence;
          assert LastDraftAt(before, c, i);
        }
      }
    }
  }

  /** Some step inspects this evidence. */
  ghost predicate InspectedAt(steps: seq<Step>, evidence: string) {
    exists i :: 0 <= i < |steps| && steps[i].action == InspectEvidence && evidence in steps[i].evidenceIds
  }

  lemma InspectedMeaning(steps: seq<Step>, evidence: string)
    ensures evidence in Inspected(steps) <==> InspectedAt(steps, evidence)
  {
    if InspectedAt(steps, evidence) {
      var i :| 0 <= i < |steps| && steps[i].action == InspectEvidence && evidence in steps[i].evidenceIds;
      var j :| 0 <= j < |steps[i].evidenceIds| && steps[i].evidenceIds[j] == evidence;
    }
  }

  /** `part` of `whole`; all of it when there is nothing. */
  predicate IsShare(rate: real, part: int, whole: int, none: real) {
    rate == if whole != 0 then part as real / whole as real else none
  }

  /** What is counted: required evidence that was inspected, and expected claims whose last draft cites just their evidence. */
  lemma OutcomeMeaning(t: Trajectory, groundedPass: bool, expected: map<string, seq<string>>)
    requires ValidTrajectory(t)
    ensures var o := OutcomeOf(t, groundedPass, expected);
            && o.inspected == |set e | e in t.requiredEvidence && InspectedAt(t.steps, e)| && o.required == |t.requiredEvidence|
            && o.traced == |set c | c in expected && LastCites(t.steps, c, expected[c])| && o.claims == |expected|
            && IsShare(o.evidenceRate, o.inspected, o.required, 1.0)
            && IsShare(o.claimRate, o.traced, o.claims, if o.terminationConsistent then 1.0 else 0.0)
            && (o.terminationConsistent <==> Does(t.steps, DraftClaim) == t.answered && Does(t.steps, ChooseAbstention) == !t.answered)
            && o.caseId == t.caseId && o.answered == t.answered && o.stepCount == |t.steps| && o.policyCompliant == t.compliant
            && o.groundedPass == groundedPass && (o.endToEndPass <==> o.strictPass && groundedPass)
            && o.inputTokens == t.inputTokens && o.outputTokens == t.outputTokens && o.latency == t.latency
  {
    forall e | e in t.requiredEvidence ensures e in Inspected(t.steps) <==> InspectedAt(t.steps, e) {
      InspectedMeaning(t.steps, e);
    }
    assert Inspected(t.steps) * t.requiredEvidence == set e | e in t.requiredEvidence && InspectedAt(t.steps, e);
    forall c | c in expected
      ensures c in Drafts(t.steps) && Drafts(t.steps)[c] == expected[c] <==> LastCites(t.steps, c, expected[c])
    {
      DraftsMeaning(t.steps, c, expected[c]);
    }
    assert Traced(Drafts(t.steps), expected) == set c | c in expected && LastCites(t.steps, c, expected[c]);
    assert |expected| == 0 <==> expected == map[];
    assert |t.requiredEvidence| == 0 <==> t.requiredEvidence == {};
  }

  /** The positions of the outcomes with this property. */
  function Having(outcomes: seq<Outcome>, p: Outcome -> bool): set<nat> {
    set i: nat | i < |outcomes| && p(outcomes[i])
  }

  /** `rate` is the share of the outcomes with this property. */
  ghost predicate ShareHaving(rate: real, outcomes: seq<Outcome>, p: Outcome -> bool)
    requires outcomes != []
  {
    rate == |Having(outcomes, p)| as real / |outcomes| as real
  }

  function Amount(outcomes: seq<Outcome>, f: Outcome -> real): real {
    if outcomes == [] then 0.0 else f(outcomes[0]) + Amount(outcomes[1..], f)
  }

  /** `mean` is the mean of this measure of the outcomes. */
  predicate IsMean(mean: real, outcomes: seq<Outcome>, f: Outcome -> real)
    requires outcomes != []
  {
    mean == Amount(outcomes, f) / |outcomes| as real
  }

  lemma HavingAppend(outcomes: seq<Outcome>, o: Outcome, p: Outcome -> bool)
    ensures |Having(outcomes + [o], p)| == |Having(outcomes, p)| + if p(o) then 1 else 0
  {
    assert Having(outcomes + [o], p) == Having(outcomes, p) + if p(o) then {|outcomes|} else {};
  }

  lemma {:induction false} FlagSum(outcomes: seq<Outcome>, values: seq<real>, p: Outcome -> bool)
    requires |values| == |outcomes| && forall i :: 0 <= i < |values| ==> values[i] == Flag(p(outcomes[i]))
    ensures Sum(values) == |Having(outcomes, p)| as real
  {
    if values != [] {
      var n := |values| - 1;
      FlagSum(outcomes[..n], values[..n], p);
      HavingAppend(outcomes[..n], outcomes[n], p);
      assert outcomes == outcomes[..n] + [outcomes[n]];
    } else {
      assert Having(outcomes, p) == {};
    }
  }

  lemma FlagMean(outcomes: seq<Outcome>, values: seq<real>, p: Outcome -> bool)
    requires outcomes != [] && |values| == |outcomes| && forall i :: 0 <= i < |values| ==> values[i] == Flag(p(outcomes[i]))
    ensures ShareHaving(Mean(values), outcomes, p)
  {
    FlagSum(outcomes, values, p);
  }

  lemma {:induction false} AmountAppend(outcomes: seq<Outcome>, o: Outcome, f: Outcome -> real)
    ensures Amount(outcomes + [o], f) == Amount(outcomes, f) + f(o)
  {
    if outcomes == [] {
      assert outcomes + [o] == [o];
    } else {
      assert (outcomes + [o])[1..] == outcomes[1..] + [o];
      AmountAppend(outcomes[1..], o, f);
    }
  }

  lemma {:induction false} AmountSum(outcomes: seq<Outcome>, f: Outcome -> real)
    ensures Sum(Map(outcomes, f)) == Amount(outcomes, f)
  {
    if outcomes != [] {
      var n := |outcomes| - 1;
      AmountSum(outcomes[..n], f);
      AmountAppend(outcomes[..n], outcomes[n], f);
      assert Map(outcomes, f)[..n] == Map(outcomes[..n], f);
      assert outcomes == outcomes[..n] + [outcomes[n]];
    }
  }

  lemma AmountMean(outcomes: seq<Outcome>, f: Outcome -> real)
    requires outcomes != []
    ensures IsMean(Mean(Map(outcomes, f)), outcomes, f)
  {
    AmountSum(outcomes, f);
  }

  lemma {:induction false} AnsweredHaving(outcomes: seq<Outcome>)
    ensures Answered(outcomes) == |Having(outcomes, (o: Outcome) => o.answered)|
  {
    if outcomes != [] {
      var n := |outcomes| - 1;
      AnsweredHaving(outcomes[..n]);
      HavingAppend(outcomes[..n], outcomes[n], (o: Outcome) => o.answered);
      assert outcomes == outcomes[..n] + [outcomes[n]];
    } else {
      assert Having(outcomes, (o: Outcome) => o.answered) == {};
    }
  }

  /** Which outcomes each share of a summary counts. */
  lemma SummaryShares(outcomes: seq<Outcome>)
    requires outcomes != []
    ensures var s := Summarize(outcomes).value;
            && s.caseCount == |outcomes| && s.answeredCount == |Having(outcomes, (o: Outcome) => o.answered)|
            && s.abstainedCount == |outcomes| - |Having(outcomes, (o: Outcome) => o.answered)|
            && ShareHaving(s.compliance, outcomes, (o: Outcome) => o.policyCompliant)
            && ShareHaving(s.termination, outcomes, (o: Outcome) => o.terminationConsistent)
            && ShareHaving(s.strict, outcomes, (o: Outcome) => o.strictPass)
            && ShareHaving(s.grounded, outcomes, (o: Outcome) => o.groundedPass)
            && ShareHaving(s.endToEnd, outcomes, (o: Outcome) => o.endToEndPass)
  {
    AnsweredHaving(outcomes);
    FlagMean(outcomes, Map(outcomes, (o: Outcome) => Flag(o.policyCompliant)), (o: Outcome) => o.policyCompliant);
    FlagMean(outcomes, Map(outcomes, (o: Outcome) => Flag(o.terminationConsistent)), (o: Outcome) => o.terminationConsistent);
    FlagMean(outcomes, Map(outcomes, (o: Outcome) => Flag(o.strictPass)), (o: Outcome) => o.strictPass);
    FlagMean(outcomes, Map(outcomes, (o: Outcome) => Flag(o.groundedPass)), (o: Outcome) => o.groundedPass);
    FlagMean(outcomes, Map(outcomes, (o: Outcome) => Flag(o.endToEndPass)), (o: Outcome) => o.endToEndPass);
  }

  /** What each mean of a summary is the mean of. */
  lemma SummaryMeans(outcomes: seq<Outcome>)
    requires outcomes != []
    ensures var s := Summarize(outcomes).value;
            && IsMean(s.evidence, outcomes, (o: Outcome) => o.evidenceRate)
            && IsMean(s.claims, outcomes, (o: Outcome) => o.claimRate)
            && IsMean(s.meanSteps, outcomes, (o: Outcome) => o.stepCount as real)
            && IsMean(s.meanInput, outcomes, (o: Outcome) => o.inputTokens as real)
            && IsMean(s.meanOutput, outcomes, (o: Outcome) => o.outputTokens as real)
            && IsMean(s.meanLatency, outcomes, (o: Outcome) => o.latency)
  {
    AmountMean(outcomes, (o: Outcome) => o.evidenceRate);
    AmountMean(outcomes, (o: Outcome) => o.claimRate);
    AmountMean(outcomes, (o: Outcome) => o.stepCount as real);
    AmountMean(outcomes, (o: Outcome) => o.inputTokens as real);
    AmountMean(outcomes, (o: Outcome) => o.outputTokens as real);
    AmountMean(outcomes, (o: Outcome) => o.latency);
  }

  /** `p` lies 95 hundredths of the way from the least value to the greatest, rank by rank. */
  ghost predicate Is95th(values: seq<real>, p: real)
    requires values != []
  {
    exists k: nat, a, b :: LiesBetween(values, Position(|values|, 0.95), k, a, b, p)
  }

  lemma Percentile95(values: seq<real>)
    requires values != []
    ensures Is95th(values, Percentile(values, 0.95))
  {
    var k, a, b := PercentileMeaning(values, 0.95);
  }

  /** What the two percentiles of a summary are of. */
  lemma SummaryPercentiles(outcomes: seq<Outcome>, steps: seq<real>, latencies: seq<real>)
    requires outcomes != [] && |steps| == |outcomes| == |latencies|
    requires forall i :: 0 <= i < |outcomes| ==> steps[i] == outcomes[i].stepCount as real && latencies[i] == outcomes[i].latency
    ensures Is95th(steps, Summarize(outcomes).value.p95Steps) && Is95th(latencies, Summarize(outcomes).value.p95Latency)
  {
    assert steps == StepCounts(outcomes) && latencies == Latencies(outcomes);
    Percentile95(steps);
    Percentile95(latencies);
  }
}
