/** Poll attempts, states and transitions with the checks their constructors make. */
module SourcePoll {
  import opened Ordering
  import opened UtcTime
  import opened Wrappers

  datatype Source = Firms | Gdelt | Nws | Usgs

  datatype Outcome = InProgress | Succeeded | Failed
  datatype Stage = Fetch | Snapshot | Normalize | Publish | Complete
  datatype Basis = SourceMetadata | LatestRecord | FetchFallback
  datatype FailureCode =
    TransportExhausted | SourceRejected | PayloadInvalid | SnapshotWriteFailed | PublicationUnavailable | Unexpected

  datatype Policy = Policy(source: Source, interval: real, pollStaleAfter: real, sourceStaleAfter: real)

  datatype Attempt = Attempt(
    attemptId: string, source: Source, startedAt: Utc, completedAt: Option<Utc>, outcome: Outcome, stage: Stage,
    transportAttempts: int, sourceGeneratedAt: Option<Utc>, timestampBasis: Option<Basis>,
    fetched: Option<int>, published: Option<int>, deduplicated: Option<int>, failureCode: Option<FailureCode>)

  datatype PollState = PollState(
    source: Source, policy: Policy, current: Attempt, lastSuccess: Option<Attempt>, failures: int)

  function Name(s: Source): string {
    match s
    case Firms => "firms"
    case Gdelt => "gdelt"
    case Nws => "nws"
    case Usgs => "usgs"
  }

  function Rank(s: Source): int {
    match s
    case Firms => 0
    case Gdelt => 1
    case Nws => 2
    case Usgs => 3
  }

  /** The canonical order of sources is the order of their names. */
  lemma RankOrdersNames(a: Source, b: Source)
    ensures Less(Name(a), Name(b)) <==> Rank(a) < Rank(b)
  {
    LessIrreflexive(Name(a));
    assert Name(a)[0] == ['f', 'g', 'n', 'u'][Rank(a)] && Name(b)[0] == ['f', 'g', 'n', 'u'][Rank(b)];
  }

  predicate ValidPolicy(p: Policy) {
    0.0 < p.interval < p.pollStaleAfter && p.interval < p.sourceStaleAfter
  }

  predicate OptionalUtc(t: Option<Utc>) {
    t.Some? ==> Valid(t.value)
  }

  predicate OptionalCount(n: Option<int>) {
    n.Some? ==> n.value >= 0
  }

  /** Field constraints, then the checks of `validate_attempt` in its order. */
  predicate ValidAttempt(a: Attempt) {
    && 0 <= a.transportAttempts <= 20
    && OptionalCount(a.fetched) && OptionalCount(a.published) && OptionalCount(a.deduplicated)
    && Valid(a.startedAt) && OptionalUtc(a.completedAt) && OptionalUtc(a.sourceGeneratedAt)
    && (a.completedAt.Some? ==> Instant(a.startedAt) <= Instant(a.completedAt.value))
    && (a.sourceGeneratedAt.Some? <==> a.timestampBasis.Some?)
    && match a.outcome
       case InProgress =>
         && a.completedAt.None? && a.failureCode.None? && a.stage != Complete
         && a.fetched.None? && a.published.None? && a.deduplicated.None? && a.transportAttempts == 0
       case Succeeded =>
         && a.completedAt.Some? && a.stage == Complete && a.failureCode.None? && a.sourceGeneratedAt.Some?
         && a.transportAttempts >= 1 && a.fetched.Some? && a.published.Some? && a.deduplicated.Some?
         && a.published.value + a.deduplicated.value == a.fetched.value
       case Failed =>
         && a.completedAt.Some? && a.failureCode.Some? && a.stage != Complete
         && (a.fetched.Some? <==> a.published.Some?) && (a.published.Some? <==> a.deduplicated.Some?)
  }

  /** The checks of `validate_state`. */
  predicate ValidState(s: PollState) {
    && s.failures >= 0
    && s.policy.source == s.source && s.current.source == s.source
    && (s.lastSuccess.Some? ==>
          && s.lastSuccess.value.source == s.source && s.lastSuccess.value.outcome == Succeeded
          && Instant(s.lastSuccess.value.startedAt) <= Instant(s.current.startedAt))
    && (s.current.outcome == Succeeded ==> s.failures == 0 && s.lastSuccess == Some(s.current))
    && (s.current.outcome == Failed ==> s.failures >= 1)
  }

  /** Every part of a state passed its own constructor. */
  predicate SoundState(s: PollState) {
    ValidState(s) && ValidPolicy(s.policy) && ValidAttempt(s.current) && (s.lastSuccess.Some? ==> ValidAttempt(s.lastSuccess.value))
  }

  // ---- the transition history ----

  datatype Kind = StartedKind | SucceededKind | FailedKind

  datatype Transition = Transition(streamId: string, source: Source, kind: Kind, attempt: Attempt)

  function KindOf(o: Outcome): Kind {
    match o
    case InProgress => StartedKind
    case Succeeded => SucceededKind
    case Failed => FailedKind
  }

  /** The checks of `validate_transition`. */
  predicate ValidTransition(t: Transition) {
    t.source == t.attempt.source && t.kind == KindOf(t.attempt.outcome)
  }

  /** The transitions of one source, oldest first. */
  function SourceLog(log: seq<Transition>, s: Source): seq<Transition> {
    if log == [] then []
    else
      var last := log[|log| - 1];
      SourceLog(log[..|log| - 1], s) + (if last.source == s then [last] else [])
  }

  lemma SourceLogAppend(log: seq<Transition>, t: Transition, s: Source)
    ensures SourceLog(log + [t], s) == if t.source == s then SourceLog(log, s) + [t] else SourceLog(log, s)
  {
    assert (log + [t])[..|log|] == log;
  }

  // ---- what a state remembers of a history ----

  function LastSuccess(log: seq<Transition>): Option<Attempt> {
    if log == [] then None
    else
      var last := log[|log| - 1];
      if last.kind == SucceededKind then Some(last.attempt) else LastSuccess(log[..|log| - 1])
  }

  function FailuresSince(log: seq<Transition>): int {
    if log == [] then 0
    else
      var last, before := log[|log| - 1], log[..|log| - 1];
      match last.kind
      case StartedKind => FailuresSince(before)
      case SucceededKind => 0
      case FailedKind => FailuresSince(before) + 1
  }

  /** The state is the fold of the history of its source. */
  predicate Folds(state: PollState, log: seq<Transition>) {
    && log != [] && state.current == log[|log| - 1].attempt
    && state.lastSuccess == LastSuccess(log) && state.failures == FailuresSince(log)
  }

  lemma FoldAppend(log: seq<Transition>, t: Transition)
    ensures LastSuccess(log + [t]) == if t.kind == SucceededKind then Some(t.attempt) else LastSuccess(log)
    ensures FailuresSince(log + [t]) ==
            match t.kind
            case StartedKind => FailuresSince(log)
            case SucceededKind => 0
            case FailedKind => FailuresSince(log) + 1
  {
    assert (log + [t])[..|log|] == log;
  }

  /** `i` is the position of the last success, or -1 when there is none. */
  predicate LastSuccessAt(log: seq<Transition>, i: int) {
    && -1 <= i < |log| && (i >= 0 ==> log[i].kind == SucceededKind)
    && forall j :: i < j < |log| ==> log[j].kind != SucceededKind
  }

  lemma {:induction false} LastSuccessExists(log: seq<Transition>)
    ensures exists i :: LastSuccessAt(log, i)
  {
    if log == [] {
      assert LastSuccessAt(log, -1);
    } else {
      var n := |log| - 1;
      LastSuccessExists(log[..n]);
      var i :| LastSuccessAt(log[..n], i);
      assert LastSuccessAt(log, if log[n].kind == SucceededKind then n else i);
    }
  }

  function FailedAfter(log: seq<Transition>, i: int): set<int> {
    set j | i < j < |log| && 0 <= j && log[j].kind == FailedKind
  }

  lemma FailedAfterStep(log: seq<Transition>, i: int)
    requires log != [] && -1 <= i < |log| - 1
    ensures |FailedAfter(log, i)| == |FailedAfter(log[..|log| - 1], i)| + if log[|log| - 1].kind == FailedKind then 1 else 0
  {
    var n := |log| - 1;
    assert FailedAfter(log, i) == FailedAfter(log[..n], i) + if log[n].kind == FailedKind then {n} else {};
  }

  lemma {:induction false} FoldAt(log: seq<Transition>, i: int)
    requires LastSuccessAt(log, i)
    ensures LastSuccess(log) == if i >= 0 then Some(log[i].attempt) else None
    ensures FailuresSince(log) == |FailedAfter(log, i)|
  {
    if i == |log| - 1 {
      assert FailedAfter(log, i) == {};
    } else {
      assert LastSuccessAt(log[..|log| - 1], i);
      FoldAt(log[..|log| - 1], i);
      FailedAfterStep(log, i);
    }
  }

  /**
   The fold in plain terms, for every log: the remembered success is the most recent succeeded transition,
   if there is one, and the counter is the number of failed transitions after it.
   */
  lemma FoldMeaning(log: seq<Transition>)
    ensures exists i ::
              && LastSuccessAt(log, i)
              && LastSuccess(log) == (if i >= 0 then Some(log[i].attempt) else None)
              && FailuresSince(log) == |FailedAfter(log, i)|
  {
    LastSuccessExists(log);
    var i :| LastSuccessAt(log, i);
    FoldAt(log, i);
  }

  /** Each terminal transition directly follows the start it completes. */
  ghost predicate Alternates(log: seq<Transition>) {
    forall i :: 0 <= i < |log| && log[i].kind != StartedKind ==>
      0 < i && log[i - 1].kind == StartedKind && log[i - 1].attempt.attemptId == log[i].attempt.attemptId
  }

  /** Each start is later than everything before it. */
  ghost predicate StartsIncrease(log: seq<Transition>) {
    forall i, j :: 0 <= i < j < |log| && log[j].kind == StartedKind ==>
      Instant(log[i].attempt.startedAt) < Instant(log[j].attempt.startedAt)
  }

  /** Each terminal transition shows the start time of the start it completes. */
  ghost predicate StartsKept(log: seq<Transition>) {
    forall i :: 0 < i < |log| && log[i].kind != StartedKind ==> log[i].attempt.startedAt == log[i - 1].attempt.startedAt
  }
}
