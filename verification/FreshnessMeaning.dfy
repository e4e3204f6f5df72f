/** What each reported status means: over the polls as stored, on the clock, in microseconds. */
module FreshnessMeaning {
  import opened Freshness
  import opened SourcePoll
  import opened UtcTime
  import opened Wrappers

  /** Some time the state has recorded lies in the future. */
  predicate Ahead(state: PollState, now: Utc) {
    || Instant(now) < Instant(state.current.startedAt)
    || (state.current.completedAt.Some? && Instant(now) < Instant(state.current.completedAt.value))
    || (state.lastSuccess.Some? && state.lastSuccess.value.completedAt.Some?
        && Instant(now) < Instant(state.lastSuccess.value.completedAt.value))
  }

  /** More than `seconds` have passed. */
  predicate Longer(since: Utc, now: Utc, seconds: real) {
    Instant(now) as real > Instant(since) as real + seconds * 1_000_000.0
  }

  /** The last poll began too long ago. */
  predicate Overdue(policy: Policy, state: PollState, now: Utc) {
    Longer(state.current.startedAt, now, policy.pollStaleAfter)
  }

  predicate PollIs(status: PollStatus, policy: Policy, state: PollState, now: Utc) {
    match status
    case ClockSkew => Ahead(state, now)
    case PollStale => !Ahead(state, now) && Overdue(policy, state, now)
    case Degraded => !Ahead(state, now) && !Overdue(policy, state, now) && state.current.outcome == Failed
    case Starting =>
      !Ahead(state, now) && !Overdue(policy, state, now) && state.current.outcome == InProgress && state.lastSuccess.None?
    case Healthy =>
      && !Ahead(state, now) && !Overdue(policy, state, now)
      && (state.current.outcome == Succeeded || (state.current.outcome == InProgress && state.lastSuccess.Some?))
  }

  /** What the last successful poll said of its data. */
  ghost predicate DataIs(status: DataStatus, policy: Policy, state: PollState, now: Utc) {
    match status
    case NotReported => state.lastSuccess.None?
    case FutureClockSkew =>
      exists t :: GeneratedAt(state, t) && Instant(now) < Instant(t)
    case DataStale => exists t :: GeneratedAt(state, t) && Longer(t, now, policy.sourceStaleAfter)
    case Current =>
      exists t :: GeneratedAt(state, t) && Instant(t) <= Instant(now) && !Longer(t, now, policy.sourceStaleAfter)
  }

  predicate GeneratedAt(state: PollState, t: Utc) {
    state.lastSuccess.Some? && state.lastSuccess.value.sourceGeneratedAt == Some(t)
  }

  lemma PollStatusExactly(policy: Policy, state: PollState, now: Utc)
    requires SoundState(state)
    ensures forall status :: PollStatusOf(policy, state, now) == status <==> PollIs(status, policy, state, now)
  {
    AgeBounds(now, state.current.startedAt, policy.pollStaleAfter);
    if state.current.completedAt.Some? {
      AgeBounds(now, state.current.completedAt.value, 0.0);
    }
    if state.lastSuccess.Some? {
      AgeBounds(now, state.lastSuccess.value.completedAt.value, 0.0);
    }
  }

  lemma DataStatusExactly(policy: Policy, state: PollState, now: Utc)
    requires SoundState(state) && ValidPolicy(policy)
    ensures forall status :: ItemOf(policy, Some(state), now).dataStatus == status <==> DataIs(status, policy, state, now)
  {
    if state.lastSuccess.Some? {
      var t := state.lastSuccess.value.sourceGeneratedAt.value;
      assert GeneratedAt(state, t);
      AgeBounds(now, t, policy.sourceStaleAfter);
    }
  }

  lemma BySourceNext(states: seq<PollState>)
    requires states != []
    ensures var before, last := BySource(states[..|states| - 1]), states[|states| - 1];
            |BySource(states)| == |before| + if last.source in before then 0 else 1
  {
    var before, last := BySource(states[..|states| - 1]), states[|states| - 1];
    if last.source in before {
      assert BySource(states).Keys == before.Keys;
    } else {
      assert BySource(states).Keys == before.Keys + {last.source};
    }
  }

  lemma {:induction false} CountBySource(states: seq<PollState>)
    ensures |BySource(states)| <= |states|
    ensures forall state :: state in states ==> state.source in BySource(states)
  {
    if states != [] {
      CountBySource(states[..|states| - 1]);
      BySourceNext(states);
      assert states == states[..|states| - 1] + [states[|states| - 1]];
    }
  }

  /** With no source twice, every state is found by its source. */
  lemma {:induction false} FoundBySource(states: seq<PollState>, state: PollState)
    requires |BySource(states)| == |states| && state in states
    ensures StateFor(states, state.source) == Some(state)
  {
    var before, last := states[..|states| - 1], states[|states| - 1];
    assert states == before + [last];
    CountBySource(before);
    BySourceNext(states);
    if state != last {
      FoundBySource(before, state);
    }
  }

  /** The item reports this state of its source. */
  ghost predicate Reports(item: Item, policy: Policy, state: PollState, now: Utc) {
    && PollIs(item.pollStatus, policy, state, now) && DataIs(item.dataStatus, policy, state, now)
    && item.lastOutcome == Some(state.current.outcome) && item.lastStage == Some(state.current.stage)
    && item.lastFailureCode == state.current.failureCode && item.lastAttemptAt == Some(state.current.startedAt)
    && item.failures == state.failures && item.transportAttempts == state.current.transportAttempts
    && item.lastSuccessAt == (if state.lastSuccess.Some? then state.lastSuccess.value.completedAt else None)
    && item.lastGeneratedAt == (if state.lastSuccess.Some? then state.lastSuccess.value.sourceGeneratedAt else None)
    && (item.passed <==> PollIs(Healthy, policy, state, now) && DataIs(Current, policy, state, now))
  }

  /** Nothing is known of the source yet. */
  predicate ReportsNothing(item: Item) {
    && item.pollStatus == Starting && item.dataStatus == NotReported && !item.passed
    && item.lastOutcome.None? && item.lastAttemptAt.None? && item.lastSuccessAt.None? && item.lastGeneratedAt.None?
    && item.failures == 0 && item.transportAttempts == 0
  }

  lemma ItemReports(policy: Policy, state: PollState, now: Utc)
    requires SoundState(state) && ValidPolicy(policy)
    ensures Reports(ItemOf(policy, Some(state), now), policy, state, now)
  {
    PollStatusExactly(policy, state, now);
    DataStatusExactly(policy, state, now);
  }

  /** Each item of a response reports the stored state of its policy's source, and nothing if there is none. */
  lemma ResponseMeaning(policies: seq<Policy>, states: seq<PollState>, now: Utc, k: nat)
    requires SoundInput(policies, states) && Evaluate(policies, states, now).Success? && k < |policies|
    ensures var items := Evaluate(policies, states, now).value.items;
            && |items| == |policies| && items[k].source == policies[k].source
            && (forall state :: state in states && state.source == policies[k].source ==> Reports(items[k], policies[k], state, now))
            && ((forall state :: state in states ==> state.source != policies[k].source) ==> ReportsNothing(items[k]))
  {
    ItemsSucceed(policies, states, now);
    var items := Evaluate(policies, states, now).value.items;
    var policy := policies[k];
    assert Assess(policy, states, now) == Success(items[k]);
    StatesForAreSound(states, policy.source);
    forall state | state in states && state.source == policy.source ensures Reports(items[k], policy, state, now) {
      FoundBySource(states, state);
      ItemReports(policy, state, now);
    }
    if forall state :: state in states ==> state.source != policy.source {
      assert forall j :: 0 <= j < |states| ==> states[j] in states;
    }
  }
}
