/** Deterioration between two comparable captures, check by check, and over whole chains of captures. */
module Drift {
  import opened RealBounds
  import opened Scoring
  import opened Wrappers

  const SLACK := 0.000000000001

  /** A scored capture; `system`, `slices` and the digests stand for content compared as a whole. */
  datatype ScoreReport = ScoreReport(
    reportId: string, reportSha: string, benchmark: string, system: string, slices: set<string>, capturedAt: int,
    taskId: string, taskSha: string, batchId: string, batchSha: string, groundedId: string, groundedSha: string,
    caseCount: int, overall: Summary)

  datatype Metric = StrictPass | EndToEndPass | Compliance | Inspection | ClaimTrace | P95Latency | P95Steps

  datatype Thresholds = Thresholds(
    strictDrop: real, endToEndDrop: real, complianceDrop: real, inspectionDrop: real, claimDrop: real,
    latencyIncrease: real, stepIncrease: real)

  datatype Check = Check(
    metric: Metric, baseline: real, current: real, deterioration: Option<real>, maximum: real, passed: bool)

  datatype Status = Stable | DriftDetected

  datatype DriftReport = DriftReport(
    generatedAt: int, benchmark: string, system: string,
    baselineId: string, baselineSha: string, baselineCapturedAt: int,
    currentId: string, currentSha: string, currentCapturedAt: int,
    thresholds: Thresholds, status: Status, failedMetrics: seq<Metric>, checks: seq<Check>)

  datatype DriftError = SameReport | OtherBenchmark | OtherSystem | OtherSlices | NotChronological

  predicate ValidThresholds(t: Thresholds) {
    && IsRate(t.strictDrop) && IsRate(t.endToEndDrop) && IsRate(t.complianceDrop) && IsRate(t.inspectionDrop)
    && IsRate(t.claimDrop) && 0.0 <= t.latencyIncrease <= 10.0 && 0.0 <= t.stepIncrease <= 10.0
  }

  function AtLeastZero(x: real): real {
    if x < 0.0 then 0.0 else x
  }

  predicate Tolerated(deterioration: Option<real>, maximum: real) {
    deterioration.Some? && deterioration.value <= maximum + SLACK
  }

  /** `_rate_check` */
  function RateCheck(metric: Metric, baseline: real, current: real, maximum: real): Check {
    var deterioration := Some(AtLeastZero(baseline - current));
    Check(metric, baseline, current, deterioration, maximum, Tolerated(deterioration, maximum))
  }

  /** `_relative_increase_check`; a non-zero value over a zero baseline has no finite increase. */
  function IncreaseCheck(metric: Metric, baseline: real, current: real, maximum: real): Check {
    var deterioration :=
      if baseline > 0.0 then Some(AtLeastZero(current / baseline - 1.0))
      else if current == 0.0 then Some(0.0)
      else None;
    Check(metric, baseline, current, deterioration, maximum, Tolerated(deterioration, maximum))
  }

  function Checks(before: Summary, after: Summary, t: Thresholds): (r: seq<Check>)
    ensures |r| == 7
  {
    [RateCheck(StrictPass, before.strict, after.strict, t.strictDrop),
     RateCheck(EndToEndPass, before.endToEnd, after.endToEnd, t.endToEndDrop),
     RateCheck(Compliance, before.compliance, after.compliance, t.complianceDrop),
     RateCheck(Inspection, before.evidence, after.evidence, t.inspectionDrop),
     RateCheck(ClaimTrace, before.claims, after.claims, t.claimDrop),
     IncreaseCheck(P95Latency, before.p95Latency, after.p95Latency, t.latencyIncrease),
     IncreaseCheck(P95Steps, before.p95Steps, after.p95Steps, t.stepIncrease)]
  }

  function FailedMetrics(checks: seq<Check>): seq<Metric> {
    if checks == [] then []
    else (if checks[0].passed then [] else [checks[0].metric]) + FailedMetrics(checks[1..])
  }

  /** `compare_agent_trajectory_reports` */
  function Compare(baseline: ScoreReport, current: ScoreReport, t: Thresholds, now: int): Result<DriftReport, DriftError> {
    if baseline.reportId == current.reportId then Failure(SameReport)
    else if baseline.benchmark != current.benchmark then Failure(OtherBenchmark)
    else if baseline.system != current.system then Failure(OtherSystem)
    else if baseline.slices != current.slices then Failure(OtherSlices)
    else if current.capturedAt <= baseline.capturedAt then Failure(NotChronological)
    else
      var checks := Checks(baseline.overall, current.overall, t);
      var failed := FailedMetrics(checks);
      Success(DriftReport(
                now, baseline.benchmark, baseline.system, baseline.reportId, baseline.reportSha, baseline.capturedAt,
                current.reportId, current.reportSha, current.capturedAt, t,
                if failed == [] then Stable else DriftDetected, failed, checks))
  }

  /** The check its constructor makes. */
  predicate ValidCheck(c: Check) {
    && (c.deterioration.Some? ==> c.deterioration.value >= 0.0) && c.maximum >= 0.0
    && c.passed == Tolerated(c.deterioration, c.maximum)
  }

  predicate Covers(checks: seq<Check>, m: Metric) {
    exists i :: 0 <= i < |checks| && checks[i].metric == m
  }

  /** Seven checks that cover the seven metrics, so each metric occurs once. */
  ghost predicate ValidDriftReport(r: DriftReport) {
    && r.currentCapturedAt > r.baselineCapturedAt && |r.checks| == 7
    && (forall i :: 0 <= i < |r.checks| ==> ValidCheck(r.checks[i]))
    && (forall m: Metric :: Covers(r.checks, m))
    && r.failedMetrics == FailedMetrics(r.checks)
    && r.status == (if r.failedMetrics == [] then Stable else DriftDetected)
  }

  /** Comparing succeeds on comparable reports only, and what it builds passes the constructors' checks. */
  lemma ComparisonValid(baseline: ScoreReport, current: ScoreReport, t: Thresholds, now: int)
    requires ValidThresholds(t)
    ensures Compare(baseline, current, t, now).Success? <==>
              && baseline.reportId != current.reportId && baseline.benchmark == current.benchmark
              && baseline.system == current.system && baseline.slices == current.slices
              && baseline.capturedAt < current.capturedAt
    ensures Compare(baseline, current, t, now).Success? ==> ValidDriftReport(Compare(baseline, current, t, now).value)
  {
    if Compare(baseline, current, t, now).Success? {
      var checks := Compare(baseline, current, t, now).value.checks;
      forall m: Metric ensures Covers(checks, m) {
        var i := match m
          case StrictPass => 0
          case EndToEndPass => 1
          case Compliance => 2
          case Inspection => 3
          case ClaimTrace => 4
          case P95Latency => 5
          case P95Steps => 6;
        assert checks[i].metric == m;
      }
    }
  }

  lemma {:induction false} StableMeansAllPassed(checks: seq<Check>)
    ensures FailedMetrics(checks) == [] <==> forall i :: 0 <= i < |checks| ==> checks[i].passed
  {
    if checks != [] {
      StableMeansAllPassed(checks[1..]);
      assert checks == [checks[0]] + checks[1..];
    }
  }

  // ---- what stability of a chain bounds ----

  /** Consecutive captures compare as stable. */
  ghost predicate StableChain(captures: seq<ScoreReport>, t: Thresholds) {
    forall i :: 0 <= i < |captures| - 1 ==>
      Compare(captures[i], captures[i + 1], t, 0).Success? && Compare(captures[i], captures[i + 1], t, 0).value.status == Stable
  }

  /** The rate a metric watches, with the drop one step may have. */
  function Rate(s: Summary, m: Metric): real {
    match m
    case StrictPass => s.strict
    case EndToEndPass => s.endToEnd
    case Compliance => s.compliance
    case Inspection => s.evidence
    case ClaimTrace => s.claims
    case P95Latency => s.p95Latency
    case P95Steps => s.p95Steps
  }

  predicate IsIncrease(m: Metric) {
    m == P95Latency || m == P95Steps
  }

  function Limit(t: Thresholds, m: Metric): real {
    match m
    case StrictPass => t.strictDrop
    case EndToEndPass => t.endToEndDrop
    case Compliance => t.complianceDrop
    case Inspection => t.inspectionDrop
    case ClaimTrace => t.claimDrop
    case P95Latency => t.latencyIncrease
    case P95Steps => t.stepIncrease
  }

  lemma PassedRate(m: Metric, baseline: real, current: real, maximum: real)
    ensures RateCheck(m, baseline, current, maximum).passed ==> baseline - current <= maximum + SLACK
  {
  }

  lemma PassedIncrease(m: Metric, baseline: real, current: real, maximum: real)
    requires baseline >= 0.0 && IncreaseCheck(m, baseline, current, maximum).passed
    ensures current <= baseline * (1.0 + maximum + SLACK)
    ensures baseline == 0.0 ==> current == 0.0
  {
    if baseline > 0.0 {
      var q := current / baseline;
      assert q * baseline == current;
      assert q <= 1.0 + maximum + SLACK;
      SignOfProduct(1.0 + maximum + SLACK - q, baseline);
    }
  }

  function CheckFor(before: Summary, after: Summary, t: Thresholds, m: Metric): Check {
    if IsIncrease(m) then IncreaseCheck(m, Rate(before, m), Rate(after, m), Limit(t, m))
    else RateCheck(m, Rate(before, m), Rate(after, m), Limit(t, m))
  }

  lemma CheckListed(before: Summary, after: Summary, t: Thresholds, m: Metric)
    ensures exists i :: 0 <= i < 7 && Checks(before, after, t)[i] == CheckFor(before, after, t, m)
  {
    var checks := Checks(before, after, t);
    match m
    case StrictPass => assert checks[0] == CheckFor(before, after, t, m);
    case EndToEndPass => assert checks[1] == CheckFor(before, after, t, m);
    case Compliance => assert checks[2] == CheckFor(before, after, t, m);
    case Inspection => assert checks[3] == CheckFor(before, after, t, m);
    case ClaimTrace => assert checks[4] == CheckFor(before, after, t, m);
    case P95Latency => assert checks[5] == CheckFor(before, after, t, m);
    case P95Steps => assert checks[6] == CheckFor(before, after, t, m);
  }

  lemma StableStep(a: ScoreReport, b: ScoreReport, t: Thresholds, m: Metric)
    requires Compare(a, b, t, 0).Success? && Compare(a, b, t, 0).value.status == Stable
    ensures CheckFor(a.overall, b.overall, t, m).passed
  {
    StableMeansAllPassed(Checks(a.overall, b.overall, t));
    CheckListed(a.overall, b.overall, t, m);
  }

  function Power(x: real, n: nat): real {
    if n == 0 then 1.0 else x * Power(x, n - 1)
  }

  /** The values of one metric along a chain. */
  function Values(captures: seq<ScoreReport>, m: Metric): (r: seq<real>)
    ensures |r| == |captures| && forall i :: 0 <= i < |r| ==> r[i] == Rate(captures[i].overall, m)
  {
    seq(|captures|, i requires 0 <= i < |captures| => Rate(captures[i].overall, m))
  }

  lemma {:induction false} DropsAdd(values: seq<real>, d: real, i: nat, j: nat)
    requires i <= j < |values| && forall k :: 0 <= k < |values| - 1 ==> values[k] - values[k + 1] <= d
    ensures values[i] - values[j] <= (j - i) as real * d
    decreases j
  {
    if i < j {
      DropsAdd(values, d, i, j - 1);
      assert values[j - 1] - values[j - 1 + 1] <= d;
      OneMore(j - 1 - i, d);
    }
  }

  lemma OneMore(n: nat, d: real)
    ensures (n + 1) as real * d == n as real * d + d
  {
    assert (n + 1) as real == n as real + 1.0;
  }

  predicate Grows(a: real, b: real, f: real) {
    b <= a * f && (a == 0.0 ==> b == 0.0)
  }

  lemma {:induction false} GrowthCompounds(values: seq<real>, f: real, i: nat, j: nat)
    requires i <= j < |values| && f >= 0.0
    requires forall k :: 0 <= k < |values| - 1 ==> Grows(values[k], values[k + 1], f)
    ensures values[j] <= values[i] * Power(f, j - i)
    ensures values[i] == 0.0 ==> values[j] == 0.0
    decreases j
  {
    if i < j {
      GrowthCompounds(values, f, i, j - 1);
      assert Grows(values[j - 1], values[j - 1 + 1], f);
      Compound(values[i], values[j - 1], values[j], f, Power(f, j - 1 - i));
    }
  }

  lemma Compound(a: real, b: real, c: real, f: real, p: real)
    requires f >= 0.0 && b <= a * p && c <= b * f
    ensures c <= a * (f * p)
  {
    SignOfProduct(a * p - b, f);
    assert (a * p - b) * f == a * (f * p) - b * f;
  }

  /** Over a stable chain a rate loses at most one allowance per step. */
  lemma RateBound(captures: seq<ScoreReport>, t: Thresholds, m: Metric, i: nat, j: nat)
    requires ValidThresholds(t) && StableChain(captures, t) && i <= j < |captures| && !IsIncrease(m)
    ensures Rate(captures[i].overall, m) - Rate(captures[j].overall, m) <= (j - i) as real * (Limit(t, m) + SLACK)
  {
    var values := Values(captures, m);
    forall k | 0 <= k < |values| - 1 ensures values[k] - values[k + 1] <= Limit(t, m) + SLACK {
      StableStep(captures[k], captures[k + 1], t, m);
      PassedRate(m, values[k], values[k + 1], Limit(t, m));
    }
    DropsAdd(values, Limit(t, m) + SLACK, i, j);
  }

  lemma IncreaseStep(a: ScoreReport, b: ScoreReport, t: Thresholds, m: Metric, f: real)
    requires Compare(a, b, t, 0).Success? && Compare(a, b, t, 0).value.status == Stable
    requires IsIncrease(m) && Rate(a.overall, m) >= 0.0 && f == 1.0 + Limit(t, m) + SLACK
    ensures Grows(Rate(a.overall, m), Rate(b.overall, m), f)
  {
    StableStep(a, b, t, m);
    PassedIncrease(m, Rate(a.overall, m), Rate(b.overall, m), Limit(t, m));
  }

  lemma LimitPositive(t: Thresholds, m: Metric)
    requires ValidThresholds(t)
    ensures Limit(t, m) >= 0.0
  {
  }

  /** Over a stable chain a 95th percentile grows at most geometrically, and zero stays zero. */
  lemma IncreaseBound(captures: seq<ScoreReport>, t: Thresholds, m: Metric, i: nat, j: nat)
    requires ValidThresholds(t) && StableChain(captures, t) && i <= j < |captures| && IsIncrease(m)
    requires forall k :: 0 <= k < |captures| ==> Rate(captures[k].overall, m) >= 0.0
    ensures Rate(captures[j].overall, m) <= Rate(captures[i].overall, m) * Power(1.0 + Limit(t, m) + SLACK, j - i)
    ensures Rate(captures[i].overall, m) == 0.0 ==> Rate(captures[j].overall, m) == 0.0
  {
    var values, f := Values(captures, m), 1.0 + Limit(t, m) + SLACK;
    LimitPositive(t, m);
    forall k | 0 <= k < |values| - 1 ensures Grows(values[k], values[k + 1], f) {
      IncreaseStep(captures[k], captures[k + 1], t, m, f);
    }
    GrowthCompounds(values, f, i, j);
  }

  /** What `steps` stable steps allow a metric to do. */
  predicate WithinAllowance(before: real, after: real, t: Thresholds, m: Metric, steps: nat) {
    if IsIncrease(m) then after <= before * Power(1.0 + Limit(t, m) + SLACK, steps) && (before == 0.0 ==> after == 0.0)
    else before - after <= steps as real * (Limit(t, m) + SLACK)
  }

  lemma ChainWithinAllowance(captures: seq<ScoreReport>, t: Thresholds, m: Metric, i: nat, j: nat)
    requires ValidThresholds(t) && StableChain(captures, t) && i <= j < |captures|
    requires forall k :: 0 <= k < |captures| ==> ValidSummary(captures[k].overall)
    ensures WithinAllowance(Rate(captures[i].overall, m), Rate(captures[j].overall, m), t, m, j - i)
  {
    if IsIncrease(m) {
      IncreaseBound(captures, t, m, i, j);
    } else {
      RateBound(captures, t, m, i, j);
    }
  }

  // ---- what a verdict says of the two captures ----

  /** A rate has dropped by at most the allowance, up to the slack. */
  predicate DroppedAtMost(before: real, after: real, allowance: real) {
    before - after <= allowance + SLACK
  }

  /** A percentile has grown by at most this share of itself; from zero it has not grown. */
  predicate GrownAtMost(before: real, after: real, allowance: real) {
    if before > 0.0 then after <= before * (1.0 + allowance + SLACK) else after == 0.0
  }

  /** The metric is within its own allowance. */
  predicate Holds(before: Summary, after: Summary, t: Thresholds, m: Metric) {
    match m
    case StrictPass => DroppedAtMost(before.strict, after.strict, t.strictDrop)
    case EndToEndPass => DroppedAtMost(before.endToEnd, after.endToEnd, t.endToEndDrop)
    case Compliance => DroppedAtMost(before.compliance, after.compliance, t.complianceDrop)
    case Inspection => DroppedAtMost(before.evidence, after.evidence, t.inspectionDrop)
    case ClaimTrace => DroppedAtMost(before.claims, after.claims, t.claimDrop)
    case P95Latency => GrownAtMost(before.p95Latency, after.p95Latency, t.latencyIncrease)
    case P95Steps => GrownAtMost(before.p95Steps, after.p95Steps, t.stepIncrease)
  }

  lemma RatePasses(m: Metric, before: real, after: real, allowance: real)
    requires allowance >= 0.0
    ensures RateCheck(m, before, after, allowance).passed <==> DroppedAtMost(before, after, allowance)
  {
  }

  lemma IncreasePasses(m: Metric, before: real, after: real, allowance: real)
    requires allowance >= 0.0
    ensures IncreaseCheck(m, before, after, allowance).passed <==> GrownAtMost(before, after, allowance)
  {
    if before > 0.0 {
      var q, f := after / before, 1.0 + allowance + SLACK;
      assert q * before == after;
      if q <= f {
        SignOfProduct(f - q, before);
      } else {
        SignOfFactor(q - f, before);
        if after <= before * f {
          SignOfFactor(f - q, before);
        }
      }
    }
  }

  lemma CheckMeaning(before: Summary, after: Summary, t: Thresholds, m: Metric)
    requires ValidThresholds(t)
    ensures CheckFor(before, after, t, m).passed <==> Holds(before, after, t, m)
  {
    LimitPositive(t, m);
    if IsIncrease(m) {
      IncreasePasses(m, Rate(before, m), Rate(after, m), Limit(t, m));
    } else {
      RatePasses(m, Rate(before, m), Rate(after, m), Limit(t, m));
    }
  }

  lemma {:induction false} FailedListed(checks: seq<Check>, m: Metric)
    ensures m in FailedMetrics(checks) <==> exists i :: 0 <= i < |checks| && checks[i].metric == m && !checks[i].passed
  {
    if checks != [] {
      FailedListed(checks[1..], m);
      assert checks == [checks[0]] + checks[1..];
      if i :| 0 <= i < |checks[1..]| && checks[1..][i].metric == m && !checks[1..][i].passed {
        assert checks[i + 1].metric == m;
      }
    }
  }

  lemma OneCheckEach(before: Summary, after: Summary, t: Thresholds, m: Metric, i: nat)
    requires i < 7 && Checks(before, after, t)[i].metric == m
    ensures Checks(before, after, t)[i] == CheckFor(before, after, t, m)
  {
  }

  /** The failed metrics are those outside their allowance, and a comparison is stable exactly without any. */
  lemma ComparisonMeaning(baseline: ScoreReport, current: ScoreReport, t: Thresholds, now: int)
    requires ValidThresholds(t) && Compare(baseline, current, t, now).Success?
    ensures var r := Compare(baseline, current, t, now).value;
            && (forall m: Metric :: m in r.failedMetrics <==> !Holds(baseline.overall, current.overall, t, m))
            && (r.status == Stable <==> forall m: Metric :: Holds(baseline.overall, current.overall, t, m))
            && r.baselineId == baseline.reportId && r.baselineSha == baseline.reportSha
            && r.currentId == current.reportId && r.currentSha == current.reportSha
            && r.baselineCapturedAt == baseline.capturedAt && r.currentCapturedAt == current.capturedAt
            && r.system == current.system && r.benchmark == current.benchmark && r.thresholds == t && r.generatedAt == now
  {
    var checks := Checks(baseline.overall, current.overall, t);
    forall m: Metric ensures m in FailedMetrics(checks) <==> !Holds(baseline.overall, current.overall, t, m) {
      FailedListed(checks, m);
      CheckMeaning(baseline.overall, current.overall, t, m);
      CheckListed(baseline.overall, current.overall, t, m);
      if i :| 0 <= i < 7 && checks[i].metric == m && !checks[i].passed {
        OneCheckEach(baseline.overall, current.overall, t, m, i);
      }
    }
    assert FailedMetrics(checks) == [] || FailedMetrics(checks)[0] in FailedMetrics(checks);
  }
}
