/** Poll and data freshness at a moment: how it is evaluated, and the contracts its readers check. */
module Freshness {
  import opened SourcePoll
  import opened UtcTime
  import opened Wrappers

  datatype PollStatus = Healthy | Degraded | PollStale | Starting | ClockSkew
  datatype DataStatus = Current | DataStale | NotReported | FutureClockSkew

  datatype Item = Item(
    source: Source, interval: real, pollStaleAfter: real, sourceStaleAfter: real,
    pollStatus: PollStatus, dataStatus: DataStatus,
    lastOutcome: Option<Outcome>, lastStage: Option<Stage>, lastFailureCode: Option<FailureCode>,
    lastAttemptAt: Option<Utc>, lastSuccessAt: Option<Utc>, lastGeneratedAt: Option<Utc>,
    lastSuccessAge: Option<real>, sourceAge: Option<real>,
    failures: int, transportAttempts: int, basis: Option<Basis>, passed: bool)

  datatype Response = Response(generatedAt: Utc, items: seq<Item>, passed: bool)

  datatype FreshnessError = PoliciesNotCanonical | StatesNotMatched | PolicyMismatch | ItemRejected | ResponseRejected

  /** `(now - then).total_seconds()` */
  function Age(now: Utc, since: Utc): real {
    (Instant(now) - Instant(since)) as real / 1_000_000.0
  }

  // ---- the contract of the server ----

  /** The checks of `validate_freshness` and the field constraints. */
  predicate ValidItem(i: Item) {
    && i.interval > 0.0 && i.pollStaleAfter > 0.0 && i.sourceStaleAfter > 0.0
    && i.failures >= 0 && 0 <= i.transportAttempts <= 20
    && (i.lastAttemptAt.None? <==> i.lastOutcome.None?) && (i.lastOutcome.None? <==> i.lastStage.None?)
    && OptionalUtc(i.lastAttemptAt)
    && (i.lastSuccessAt.None? <==> i.lastGeneratedAt.None?) && (i.lastGeneratedAt.None? <==> i.lastSuccessAge.None?)
    && (i.lastSuccessAge.None? <==> i.sourceAge.None?) && (i.sourceAge.None? <==> i.basis.None?)
    && OptionalUtc(i.lastSuccessAt) && OptionalUtc(i.lastGeneratedAt)
    && (i.lastFailureCode.Some? <==> i.lastOutcome == Some(Failed))
    && i.passed == (i.pollStatus == Healthy && i.dataStatus == Current)
  }

  predicate Close(a: real, b: real, tolerance: real) {
    -tolerance <= a - b <= tolerance
  }

  predicate AgesMatch(i: Item, now: Utc, tolerance: real) {
    i.lastSuccessAt.Some? && i.lastGeneratedAt.Some? && i.lastSuccessAge.Some? && i.sourceAge.Some? ==>
      && Close(i.lastSuccessAge.value, Age(now, i.lastSuccessAt.value), tolerance)
      && Close(i.sourceAge.value, Age(now, i.lastGeneratedAt.value), tolerance)
  }

  predicate AllPassed(items: seq<Item>) {
    forall k :: 0 <= k < |items| ==> items[k].passed
  }

  predicate CanonicalItems(items: seq<Item>) {
    forall j, k :: 0 <= j < k < |items| ==> Rank(items[j].source) < Rank(items[k].source)
  }

  /** The checks of `validate_response`. */
  predicate ValidResponse(r: Response) {
    && Valid(r.generatedAt) && 1 <= |r.items| <= 4 && CanonicalItems(r.items)
    && (forall k :: 0 <= k < |r.items| ==> AgesMatch(r.items[k], r.generatedAt, 0.000001))
    && r.passed == AllPassed(r.items)
  }

  // ---- the stricter contract of the browser ----

  predicate BrowserItem(i: Item) {
    && ValidItem(i)
    && (i.lastSuccessAt.None? <==> i.dataStatus == NotReported)
    && (i.pollStatus == Degraded ==> i.lastOutcome == Some(Failed))
    && (i.lastAttemptAt.None? ==>
          && i.lastSuccessAt.None? && i.pollStatus == Starting && i.dataStatus == NotReported
          && i.failures == 0 && i.transportAttempts == 0)
    && (i.lastOutcome == Some(Succeeded) ==> i.lastSuccessAt.Some? && i.failures == 0)
    && (i.lastOutcome == Some(Failed) ==> i.failures > 0)
    && (i.sourceAge.Some? ==>
          i.dataStatus == if i.sourceAge.value < 0.0 then FutureClockSkew
                          else if i.sourceAge.value > i.sourceStaleAfter then DataStale
                          else Current)
    && i.pollStaleAfter > i.interval && i.sourceStaleAfter > i.interval
  }

  /** `Date.parse` keeps whole milliseconds. */
  function BrowserAge(now: Utc, since: Utc): real {
    (Instant(now) / 1000 - Instant(since) / 1000) as real / 1000.0
  }

  predicate BrowserAgesMatch(i: Item, now: Utc) {
    i.lastSuccessAt.Some? && i.lastGeneratedAt.Some? && i.lastSuccessAge.Some? && i.sourceAge.Some? ==>
      && Close(BrowserAge(now, i.lastSuccessAt.value), i.lastSuccessAge.value, 0.002)
      && Close(BrowserAge(now, i.lastGeneratedAt.value), i.sourceAge.value, 0.002)
  }

  predicate BrowserAccepts(r: Response) {
    && 1 <= |r.items| <= 4 && CanonicalItems(r.items)
    && (forall k :: 0 <= k < |r.items| ==> BrowserItem(r.items[k]) && BrowserAgesMatch(r.items[k], r.generatedAt))
    && r.passed == AllPassed(r.items)
  }

  // ---- evaluation ----

  predicate CanonicalPolicies(policies: seq<Policy>) {
    forall j, k :: 0 <= j < k < |policies| ==> Rank(policies[j].source) < Rank(policies[k].source)
  }

  function PollStatusOf(policy: Policy, state: PollState, now: Utc): PollStatus {
    var current := state.current;
    if state.lastSuccess.Some? && state.lastSuccess.value.completedAt.Some?
       && Age(now, state.lastSuccess.value.completedAt.value) < 0.0 then ClockSkew
    else if Age(now, current.startedAt) < 0.0 then ClockSkew
    else if current.completedAt.Some? && Age(now, current.completedAt.value) < 0.0 then ClockSkew
    else if Age(now, current.startedAt) > policy.pollStaleAfter then PollStale
    else if current.outcome == Failed then Degraded
    else if current.outcome == InProgress && state.lastSuccess.None? then Starting
    else Healthy
  }

  function DataStatusOf(policy: Policy, generatedAt: Utc, now: Utc): DataStatus {
    if Age(now, generatedAt) < 0.0 then FutureClockSkew
    else if Age(now, generatedAt) > policy.sourceStaleAfter then DataStale
    else Current
  }

  function ItemOf(policy: Policy, state: Option<PollState>, now: Utc): Item
    requires state.Some? ==> SoundState(state.value)
  {
    if state.None? then
      Item(policy.source, policy.interval, policy.pollStaleAfter, policy.sourceStaleAfter, Starting, NotReported,
           None, None, None, None, None, None, None, None, 0, 0, None, false)
    else
      var st := state.value;
      var poll := PollStatusOf(policy, st, now);
      if st.lastSuccess.None? then
        Item(policy.source, policy.interval, policy.pollStaleAfter, policy.sourceStaleAfter, poll, NotReported,
             Some(st.current.outcome), Some(st.current.stage), st.current.failureCode, Some(st.current.startedAt),
             None, None, None, None, st.failures, st.current.transportAttempts, None, false)
      else
        var success := st.lastSuccess.value;
        var data := DataStatusOf(policy, success.sourceGeneratedAt.value, now);
        Item(policy.source, policy.interval, policy.pollStaleAfter, policy.sourceStaleAfter, poll, data,
             Some(st.current.outcome), Some(st.current.stage), st.current.failureCode, Some(st.current.startedAt),
             success.completedAt, success.sourceGeneratedAt,
             Some(Age(now, success.completedAt.value)), Some(Age(now, success.sourceGeneratedAt.value)),
             st.failures, st.current.transportAttempts, success.timestampBasis, poll == Healthy && data == Current)
  }

  /** Every item the evaluation can build meets both contracts. */
  lemma ItemMeetsContracts(policy: Policy, state: Option<PollState>, now: Utc)
    requires ValidPolicy(policy) && (state.Some? ==> SoundState(state.value))
    ensures ValidItem(ItemOf(policy, state, now)) && BrowserItem(ItemOf(policy, state, now))
    ensures AgesMatch(ItemOf(policy, state, now), now, 0.000001) && BrowserAgesMatch(ItemOf(policy, state, now), now)
  {
    if state.Some? && state.value.lastSuccess.Some? {
      TruncationIsSmall(now, state.value.lastSuccess.value.completedAt.value);
      TruncationIsSmall(now, state.value.lastSuccess.value.sourceGeneratedAt.value);
    }
  }

  lemma TruncationIsSmall(now: Utc, since: Utc)
    ensures Close(BrowserAge(now, since), Age(now, since), 0.001)
  {
    var a, b := Instant(now), Instant(since);
    assert -1000 < (a / 1000 - b / 1000) * 1000 - (a - b) < 1000;
    var d, e := a / 1000 - b / 1000, a - b;
    assert d as real * 1000.0 - e as real == (d * 1000 - e) as real;
  }

  /** `{state.source: state for state in states}` */
  function BySource(states: seq<PollState>): map<Source, PollState> {
    if states == [] then map[]
    else
      var last := states[|states| - 1];
      BySource(states[..|states| - 1])[last.source := last]
  }

  function StateFor(states: seq<PollState>, source: Source): Option<PollState> {
    if source in BySource(states) then Some(BySource(states)[source]) else None
  }

  predicate HasPolicy(policies: seq<Policy>, source: Source) {
    exists k :: 0 <= k < |policies| && policies[k].source == source
  }

  /** No source twice, and none without a policy. */
  predicate StatesMatched(policies: seq<Policy>, states: seq<PollState>) {
    |BySource(states)| == |states| && forall source :: source in BySource(states) ==> HasPolicy(policies, source)
  }

  predicate SoundInput(policies: seq<Policy>, states: seq<PollState>) {
    && (forall k :: 0 <= k < |policies| ==> ValidPolicy(policies[k]))
    && (forall k :: 0 <= k < |states| ==> SoundState(states[k]))
  }

  lemma {:induction false} StatesForAreSound(states: seq<PollState>, source: Source)
    requires forall k :: 0 <= k < |states| ==> SoundState(states[k])
    ensures StateFor(states, source).Some? ==> SoundState(StateFor(states, source).value) && StateFor(states, source).value.source == source
    ensures StateFor(states, source).Some? <==> exists k :: 0 <= k < |states| && states[k].source == source
  {
    if states != [] {
      var n := |states| - 1;
      StatesForAreSound(states[..n], source);
      assert forall k :: 0 <= k < n ==> states[..n][k] == states[k];
      if states[n].source != source && StateFor(states, source).Some? {
        var k :| 0 <= k < n && states[..n][k].source == source;
        assert states[k].source == source;
      }
    }
  }

  /** One policy's item, or the reason there is none. */
  function Assess(policy: Policy, states: seq<PollState>, now: Utc): Result<Item, FreshnessError>
    requires forall k :: 0 <= k < |states| ==> SoundState(states[k])
  {
    StatesForAreSound(states, policy.source);
    var state := StateFor(states, policy.source);
    if state.Some? && state.value.policy != policy then Failure(PolicyMismatch)
    else
      var item := ItemOf(policy, state, now);
      if ValidItem(item) then Success(item) else Failure(ItemRejected)
  }

  /** The items in policy order, or the first reason to stop. */
  function Items(policies: seq<Policy>, states: seq<PollState>, now: Utc): Result<seq<Item>, FreshnessError>
    requires forall k :: 0 <= k < |states| ==> SoundState(states[k])
  {
    if policies == [] then Success([])
    else
      var n := |policies| - 1;
      match Items(policies[..n], states, now)
      case Failure(e) => Failure(e)
      case Success(items) =>
        match Assess(policies[n], states, now)
        case Failure(e) => Failure(e)
        case Success(item) => Success(items + [item])
  }

  /** `evaluate_source_freshness` */
  function Evaluate(policies: seq<Policy>, states: seq<PollState>, now: Utc): Result<Response, FreshnessError>
    requires SoundInput(policies, states)
  {
    if !CanonicalPolicies(policies) then Failure(PoliciesNotCanonical)
    else if !StatesMatched(policies, states) then Failure(StatesNotMatched)
    else
      match Items(policies, states, now)
      case Failure(e) => Failure(e)
      case Success(items) =>
        var r := Response(now, items, AllPassed(items));
        if ValidResponse(r) then Success(r) else Failure(ResponseRejected)
  }

  lemma {:induction false} FailureSticks(policies: seq<Policy>, states: seq<PollState>, now: Utc, i: nat)
    requires (forall k :: 0 <= k < |states| ==> SoundState(states[k])) && i <= |policies|
    requires Items(policies[..i], states, now).Failure?
    ensures Items(policies, states, now) == Items(policies[..i], states, now)
    decreases |policies|
  {
    var n := |policies| - 1;
    if i == |policies| {
      assert policies[..i] == policies;
    } else {
      assert policies[..n][..i] == policies[..i];
      FailureSticks(policies[..n], states, now, i);
    }
  }

  method EvaluateSourceFreshness(policies: seq<Policy>, states: seq<PollState>, now: Utc)
    returns (r: Result<Response, FreshnessError>)
    requires SoundInput(policies, states)
    ensures r == Evaluate(policies, states, now)
  {
    if !CanonicalPolicies(policies) {
      return Failure(PoliciesNotCanonical);
    }
    if !StatesMatched(policies, states) {
      return Failure(StatesNotMatched);
    }
    var items: seq<Item> := [];
    for i := 0 to |policies|
      invariant Items(policies[..i], states, now) == Success(items)
    {
      assert policies[..i + 1][..i] == policies[..i];
      var item := Assess(policies[i], states, now);
      if item.Failure? {
        FailureSticks(policies, states, now, i + 1);
        return Failure(item.error);
      }
      items := items + [item.value];
    }
    assert policies[..|policies|] == policies;
    var response := Response(now, items, AllPassed(items));
    r := if ValidResponse(response) then Success(response) else Failure(ResponseRejected);
  }

  // ---- when evaluation succeeds ----

  /** Every stored state was written under the policy now in force. */
  ghost predicate PoliciesInForce(policies: seq<Policy>, states: seq<PollState>) {
    forall k :: 0 <= k < |policies| ==>
      var state := StateFor(states, policies[k].source);
      state.Some? ==> state.value.policy == policies[k]
  }

  ghost predicate ItemsShape(policies: seq<Policy>, states: seq<PollState>, now: Utc, items: seq<Item>)
    requires forall k :: 0 <= k < |states| ==> SoundState(states[k])
  {
    |items| == |policies| && forall k :: 0 <= k < |items| ==> Assess(policies[k], states, now) == Success(items[k])
  }

  lemma {:induction false} ItemsSucceed(policies: seq<Policy>, states: seq<PollState>, now: Utc)
    requires SoundInput(policies, states)
    ensures Items(policies, states, now).Success? <==> PoliciesInForce(policies, states)
    ensures Items(policies, states, now).Success? ==> ItemsShape(policies, states, now, Items(policies, states, now).value)
  {
    if policies != [] {
      var n := |policies| - 1;
      var before := policies[..n];
      ItemsSucceed(before, states, now);
      StatesForAreSound(states, policies[n].source);
      ItemMeetsContracts(policies[n], StateFor(states, policies[n].source), now);
      assert PoliciesInForce(policies, states) <==> PoliciesInForce(before, states) && Assess(policies[n], states, now).Success? by {
        assert policies == before + [policies[n]];
      }
    }
  }

  lemma {:induction false} RanksCount(policies: seq<Policy>, k: nat)
    requires CanonicalPolicies(policies) && k < |policies|
    ensures Rank(policies[k].source) >= k
  {
    if k > 0 {
      RanksCount(policies, k - 1);
    }
  }

  lemma AtMostFour(policies: seq<Policy>)
    requires CanonicalPolicies(policies)
    ensures |policies| <= 4
  {
    if policies != [] {
      RanksCount(policies, |policies| - 1);
    }
  }

  predicate Fits(item: Item, policy: Policy, now: Utc) {
    && item.source == policy.source && AgesMatch(item, now, 0.000001)
    && BrowserItem(item) && BrowserAgesMatch(item, now)
  }

  lemma AssessedFits(policy: Policy, states: seq<PollState>, now: Utc, item: Item)
    requires ValidPolicy(policy) && forall k :: 0 <= k < |states| ==> SoundState(states[k])
    requires Assess(policy, states, now) == Success(item)
    ensures Fits(item, policy, now)
  {
    StatesForAreSound(states, policy.source);
    ItemMeetsContracts(policy, StateFor(states, policy.source), now);
  }

  lemma FittingItemsAccepted(policies: seq<Policy>, items: seq<Item>, now: Utc)
    requires CanonicalPolicies(policies) && 1 <= |items| == |policies| <= 4 && Valid(now)
    requires forall k :: 0 <= k < |items| ==> Fits(items[k], policies[k], now)
    ensures ValidResponse(Response(now, items, AllPassed(items))) && BrowserAccepts(Response(now, items, AllPassed(items)))
  {
    forall j, k | 0 <= j < k < |items| ensures Rank(items[j].source) < Rank(items[k].source) {
      assert Fits(items[j], policies[j], now) && Fits(items[k], policies[k], now);
    }
  }

  /**
   For at least one policy, evaluation fails only for the three documented reasons; otherwise the
   response passes the server's own validators and the browser's stricter contract.
   */
  lemma EvaluationMeetsContracts(policies: seq<Policy>, states: seq<PollState>, now: Utc)
    requires SoundInput(policies, states) && policies != [] && Valid(now)
    ensures Evaluate(policies, states, now).Success? <==>
              CanonicalPolicies(policies) && StatesMatched(policies, states) && PoliciesInForce(policies, states)
    ensures Evaluate(policies, states, now).Success? ==>
              var r := Evaluate(policies, states, now).value;
              ValidResponse(r) && BrowserAccepts(r) && |r.items| == |policies|
  {
    ItemsSucceed(policies, states, now);
    if CanonicalPolicies(policies) && Items(policies, states, now).Success? {
      AtMostFour(policies);
      var items := Items(policies, states, now).value;
      forall k | 0 <= k < |items| ensures Fits(items[k], policies[k], now) {
        assert Assess(policies[k], states, now) == Success(items[k]);
        AssessedFits(policies[k], states, now, items[k]);
      }
      FittingItemsAccepted(policies, items, now);
    }
  }

  // ---- passing as a function of the clock ----

  function Max(a: real, b: real): real {
    if a < b then b else a
  }

  function Min(a: real, b: real): real {
    if a < b then a else b
  }

  datatype Window = Never | Between(start: real, end: real)

  predicate Within(w: Window, now: Utc) {
    w.Between? && w.start <= Instant(now) as real <= w.end
  }

  /** When the item of a fixed state passes. */
  function PassWindow(policy: Policy, state: Option<PollState>): Window
    requires state.Some? ==> SoundState(state.value)
  {
    if state.None? || state.value.lastSuccess.None? || state.value.current.outcome == Failed then Never
    else
      var current, success := state.value.current, state.value.lastSuccess.value;
      var started, generated := Instant(current.startedAt) as real, Instant(success.sourceGeneratedAt.value) as real;
      var finished := Max(started, if current.completedAt.Some? then Instant(current.completedAt.value) as real else started);
      Between(Max(Max(finished, Instant(success.completedAt.value) as real), generated),
              Min(started + policy.pollStaleAfter * 1_000_000.0, generated + policy.sourceStaleAfter * 1_000_000.0))
  }

  lemma AgeBounds(now: Utc, since: Utc, limit: real)
    ensures Age(now, since) < 0.0 <==> Instant(now) < Instant(since)
    ensures Age(now, since) > limit <==> Instant(now) as real > Instant(since) as real + limit * 1_000_000.0
  {
    var d := Instant(now) - Instant(since);
    assert d as real == Instant(now) as real - Instant(since) as real;
    assert Age(now, since) * 1_000_000.0 == d as real;
  }

  lemma ItemPassesWithin(policy: Policy, state: Option<PollState>, now: Utc)
    requires state.Some? ==> SoundState(state.value)
    ensures ItemOf(policy, state, now).passed <==> Within(PassWindow(policy, state), now)
  {
    if state.Some? && state.value.lastSuccess.Some? {
      var current, success := state.value.current, state.value.lastSuccess.value;
      AgeBounds(now, current.startedAt, policy.pollStaleAfter);
      AgeBounds(now, success.sourceGeneratedAt.value, policy.sourceStaleAfter);
      AgeBounds(now, success.completedAt.value, 0.0);
      if current.completedAt.Some? {
        AgeBounds(now, current.completedAt.value, 0.0);
      }
    }
  }

  function Both(a: Window, b: Window): Window {
    if a.Between? && b.Between? then Between(Max(a.start, b.start), Min(a.end, b.end)) else Never
  }

  /** When every source passes; with no policy there is nothing to pass. */
  function CommonWindow(policies: seq<Policy>, states: seq<PollState>): Window
    requires SoundInput(policies, states) && policies != []
  {
    var n := |policies| - 1;
    StatesForAreSound(states, policies[n].source);
    var last := PassWindow(policies[n], StateFor(states, policies[n].source));
    if n == 0 then last else Both(CommonWindow(policies[..n], states), last)
  }

  lemma WithinBoth(a: Window, b: Window, now: Utc)
    ensures Within(Both(a, b), now) <==> Within(a, now) && Within(b, now)
  {
  }

  lemma AllPassedSplits(items: seq<Item>, item: Item)
    ensures AllPassed(items + [item]) <==> AllPassed(items) && item.passed
  {
    assert (items + [item])[|items|] == item;
    assert forall k :: 0 <= k < |items| ==> (items + [item])[k] == items[k];
  }

  lemma AssessedPasses(policy: Policy, states: seq<PollState>, now: Utc, item: Item)
    requires (forall k :: 0 <= k < |states| ==> SoundState(states[k])) && Assess(policy, states, now) == Success(item)
    ensures StateFor(states, policy.source).Some? ==> SoundState(StateFor(states, policy.source).value)
    ensures item.passed <==> Within(PassWindow(policy, StateFor(states, policy.source)), now)
  {
    StatesForAreSound(states, policy.source);
    ItemPassesWithin(policy, StateFor(states, policy.source), now);
  }

  lemma ShapePrefix(policies: seq<Policy>, states: seq<PollState>, now: Utc, items: seq<Item>, n: nat)
    requires SoundInput(policies, states) && ItemsShape(policies, states, now, items) && n <= |policies|
    ensures SoundInput(policies[..n], states) && ItemsShape(policies[..n], states, now, items[..n])
  {
    forall k | 0 <= k < n ensures Assess(policies[..n][k], states, now) == Success(items[..n][k]) {
      assert Assess(policies[k], states, now) == Success(items[k]);
    }
  }

  lemma OnePassesWithin(policies: seq<Policy>, states: seq<PollState>, now: Utc, items: seq<Item>)
    requires SoundInput(policies, states) && |policies| == 1 && ItemsShape(policies, states, now, items)
    ensures AllPassed(items) <==> Within(CommonWindow(policies, states), now)
  {
    AssessedPasses(policies[0], states, now, items[0]);
    assert AllPassed(items) <==> items[0].passed;
  }

  lemma CommonNext(policies: seq<Policy>, states: seq<PollState>, n: nat, last: Window)
    requires SoundInput(policies, states) && n == |policies| - 1 > 0 && SoundInput(policies[..n], states)
    requires (StateFor(states, policies[n].source).Some? ==> SoundState(StateFor(states, policies[n].source).value))
             && last == PassWindow(policies[n], StateFor(states, policies[n].source))
    ensures CommonWindow(policies, states) == Both(CommonWindow(policies[..n], states), last)
  {
  }

  lemma LastPasses(items: seq<Item>, n: nat)
    requires n == |items| - 1
    ensures AllPassed(items) <==> AllPassed(items[..n]) && items[n].passed
  {
    assert items == items[..n] + [items[n]];
    AllPassedSplits(items[..n], items[n]);
  }

  lemma MorePassWithin(policies: seq<Policy>, states: seq<PollState>, now: Utc, items: seq<Item>, n: nat)
    requires SoundInput(policies, states) && n == |policies| - 1 > 0 && ItemsShape(policies, states, now, items)
    requires SoundInput(policies[..n], states) && (AllPassed(items[..n]) <==> Within(CommonWindow(policies[..n], states), now))
    ensures AllPassed(items) <==> Within(CommonWindow(policies, states), now)
  {
    StatesForAreSound(states, policies[n].source);
    var last := PassWindow(policies[n], StateFor(states, policies[n].source));
    AssessedPasses(policies[n], states, now, items[n]);
    LastPasses(items, n);
    CommonNext(policies, states, n, last);
    WithinBoth(CommonWindow(policies[..n], states), last, now);
  }

  lemma {:induction false} AllPassWithin(policies: seq<Policy>, states: seq<PollState>, now: Utc, items: seq<Item>)
    requires SoundInput(policies, states) && policies != [] && ItemsShape(policies, states, now, items)
    ensures AllPassed(items) <==> Within(CommonWindow(policies, states), now)
  {
    var n := |policies| - 1;
    if n == 0 {
      OnePassesWithin(policies, states, now, items);
    } else {
      ShapePrefix(policies, states, now, items, n);
      AllPassWithin(policies[..n], states, now, items[..n]);
      MorePassWithin(policies, states, now, items, n);
    }
  }

  predicate PassesAt(policies: seq<Policy>, states: seq<PollState>, now: Utc)
    requires SoundInput(policies, states)
  {
    var r := Evaluate(policies, states, now);
    r.Success? && r.value.passed
  }

  ghost predicate Accepted(policies: seq<Policy>, states: seq<PollState>) {
    CanonicalPolicies(policies) && StatesMatched(policies, states) && PoliciesInForce(policies, states)
  }

  /** For fixed states, the times at which freshness passes form one closed interval. */
  lemma PassingTimes(policies: seq<Policy>, states: seq<PollState>, now: Utc)
    requires SoundInput(policies, states) && policies != [] && Valid(now)
    ensures PassesAt(policies, states, now) <==> Accepted(policies, states) && Within(CommonWindow(policies, states), now)
  {
    EvaluationMeetsContracts(policies, states, now);
    ItemsSucceed(policies, states, now);
    if Accepted(policies, states) {
      AllPassWithin(policies, states, now, Items(policies, states, now).value);
    }
  }

  /** So a pass that was lost is not regained without a new transition. */
  lemma LostPassStaysLost(policies: seq<Policy>, states: seq<PollState>, passed: Utc, lost: Utc, later: Utc)
    requires SoundInput(policies, states) && policies != [] && Valid(passed) && Valid(lost) && Valid(later)
    requires Instant(passed) <= Instant(lost) <= Instant(later)
    requires PassesAt(policies, states, passed) && !PassesAt(policies, states, lost)
    ensures !PassesAt(policies, states, later)
  {
    PassingTimes(policies, states, passed);
    PassingTimes(policies, states, lost);
    PassingTimes(policies, states, later);
  }
}
