/** The in-memory poll store, its specification on values, and what every run of it keeps. */
module PollStore {
  import opened Paging
  import opened PollHistory
  import opened SourcePoll
  import opened StreamId
  import opened UtcTime
  import opened Wrappers

  datatype Op = Start(attempt: Attempt, policy: Policy) | Finish(attempt: Attempt)

  /** Why a transition is refused; `Invalid` is a state its own constructor would reject. */
  datatype Verdict = Accepted | Malformed | Stale | Invalid

  datatype Store = Store(states: map<Source, PollState>, log: Log)

  predicate SoundOp(op: Op) {
    ValidAttempt(op.attempt) && (op.Start? ==> ValidPolicy(op.policy))
  }

  function Current(s: Store, source: Source): Option<PollState> {
    if source in s.states then Some(s.states[source]) else None
  }

  function NextState(s: Store, op: Op): PollState
    requires op.Finish? ==> op.attempt.source in s.states
  {
    var a := op.attempt;
    var existing := Current(s, a.source);
    match op
    case Start(_, policy) =>
      PollState(a.source, policy, a, if existing.Some? then existing.value.lastSuccess else None,
                if existing.Some? then existing.value.failures else 0)
    case Finish(_) =>
      var old' := existing.value;
      if a.outcome == Succeeded then PollState(a.source, old'.policy, a, Some(a), 0)
      else PollState(a.source, old'.policy, a, old'.lastSuccess, old'.failures + 1)
  }

  function Judge(s: Store, op: Op): Verdict {
    var a := op.attempt;
    var existing := Current(s, a.source);
    match op
    case Start(_, policy) =>
      if a.outcome != InProgress || a.source != policy.source then Malformed
      else if existing.Some? && Instant(existing.value.current.startedAt) >= Instant(a.startedAt) then Stale
      else if !ValidState(NextState(s, op)) then Invalid
      else Accepted
    case Finish(_) =>
      if a.outcome == InProgress || a.completedAt.None? then Malformed
      else if existing.None? || existing.value.current.attemptId != a.attemptId || existing.value.current.outcome != InProgress
      then Stale
      else if !ValidState(NextState(s, op)) then Invalid
      else Accepted
  }

  /** The transition a store appends; its identifier counts the history from one. */
  function Record(s: Store, a: Attempt): Transition {
    Transition(Format(Position(0, |s.log| + 1)), a.source, KindOf(a.outcome), a)
  }

  function Apply(s: Store, op: Op): Store {
    if Judge(s, op) == Accepted then
      Store(s.states[op.attempt.source := NextState(s, op)], s.log + [Record(s, op.attempt)])
    else s
  }

  // ---- the store itself ----

  class InMemorySourcePollStore {
    var states: map<Source, PollState>
    var history: Log
    var historySequence: nat

    ghost predicate Valid()
      reads this
    {
      historySequence == |history|
    }

    ghost function Contents(): Store
      reads this
    {
      Store(states, history)
    }

    constructor ()
      ensures Valid() && Contents() == Store(map[], [])
    {
      states, history, historySequence := map[], [], 0;
    }

    method AppendTransition(kind: Kind, attempt: Attempt)
      requires Valid() && kind == KindOf(attempt.outcome)
      modifies this`history, this`historySequence
      ensures Valid() && history == old(history) + [Record(old(Contents()), attempt)]
    {
      historySequence := historySequence + 1;
      history := history + [Transition(Format(Position(0, historySequence)), attempt.source, kind, attempt)];
    }

    method RecordStarted(attempt: Attempt, policy: Policy) returns (verdict: Verdict)
      requires Valid()
      modifies this
      ensures Valid() && verdict == Judge(old(Contents()), Start(attempt, policy))
      ensures Contents() == Apply(old(Contents()), Start(attempt, policy))
    {
      if attempt.outcome != InProgress || attempt.source != policy.source {
        return Malformed;
      }
      var lastSuccess, failures := None, 0;
      if attempt.source in states {
        var existing := states[attempt.source];
        if Instant(existing.current.startedAt) >= Instant(attempt.startedAt) {
          return Stale;
        }
        lastSuccess, failures := existing.lastSuccess, existing.failures;
      }
      var next := PollState(attempt.source, policy, attempt, lastSuccess, failures);
      if !ValidState(next) {
        return Invalid;
      }
      states := states[attempt.source := next];
      AppendTransition(StartedKind, attempt);
      verdict := Accepted;
    }

    method RecordCompleted(attempt: Attempt) returns (verdict: Verdict)
      requires Valid()
      modifies this
      ensures Valid() && verdict == Judge(old(Contents()), Finish(attempt))
      ensures Contents() == Apply(old(Contents()), Finish(attempt))
    {
      if attempt.outcome == InProgress || attempt.completedAt.None? {
        return Malformed;
      }
      if attempt.source !in states {
        return Stale;
      }
      var existing := states[attempt.source];
      if existing.current.attemptId != attempt.attemptId || existing.current.outcome != InProgress {
        return Stale;
      }
      var succeeded := attempt.outcome == Succeeded;
      var next := PollState(
        attempt.source, existing.policy, attempt, if succeeded then Some(attempt) else existing.lastSuccess,
        if succeeded then 0 else existing.failures + 1);
      if !ValidState(next) {
        return Invalid;
      }
      states := states[attempt.source := next];
      AppendTransition(if succeeded then SucceededKind else FailedKind, attempt);
      verdict := Accepted;
    }

    method LoadStates(sources: seq<Source>) returns (result: seq<PollState>)
      ensures result == Loaded(Contents(), sources)
    {
      result := [];
      for i := 0 to |sources|
        invariant result == Loaded(Contents(), sources[..i])
      {
        assert sources[..i + 1][..i] == sources[..i];
        if sources[i] in states {
          result := result + [states[sources[i]]];
        }
      }
      assert sources[..|sources|] == sources;
    }

    method LoadRecentTransitions(before: Option<string>, limit: int) returns (answer: Result<Log, HistoryError>)
      ensures answer == Answer(history, before, limit)
    {
      if limit < 1 {
        return Failure(LimitNotPositive);
      }
      var position := None;
      if before.Some? {
        position := Parse(before.value);
        if position.None? {
          return Failure(BadCursor);
        }
      }
      var result, i := [], |history|;
      while i > 0 && |result| < limit
        invariant 0 <= i <= |history| && |result| <= limit
        invariant result + Recent(At, history, i, position, limit - |result|) == Recent(At, history, |history|, position, limit)
      {
        i := i - 1;
        if Visible(At, history[i], position) {
          result := result + [history[i]];
        }
      }
      assert result + Recent(At, history, i, position, limit - |result|) == result;
      answer := Success(result);
    }
  }

  /** The states of the sources that have one, in the order asked for. */
  function Loaded(s: Store, sources: seq<Source>): seq<PollState> {
    if sources == [] then []
    else
      var last := sources[|sources| - 1];
      Loaded(s, sources[..|sources| - 1]) + (if last in s.states then [s.states[last]] else [])
  }

  // ---- runs ----

  function Run(ops: seq<Op>): Store {
    if ops == [] then Store(map[], []) else Apply(Run(ops[..|ops| - 1]), ops[|ops| - 1])
  }

  /** The state of a source, if it has one, is its own and sound. */
  predicate SoundAt(s: Store, source: Source) {
    source in s.states ==> s.states[source].source == source && SoundState(s.states[source])
  }

  /** What the store keeps about one source. */
  ghost predicate Tracks(s: Store, source: Source) {
    && SoundAt(s, source)
    && if source in s.states then Folds(s.states[source], SourceLog(s.log, source)) else SourceLog(s.log, source) == []
  }

  ghost predicate WellKept(log: Log) {
    && Alternates(log)
    && (forall i :: 0 <= i < |log| ==> ValidTransition(log[i]))
  }

  ghost predicate Kept(s: Store) {
    forall source :: Tracks(s, source) && WellKept(SourceLog(s.log, source))
  }

  /** The identifiers of the in-memory history are 0-1, 0-2, and so on. */
  ghost predicate Numbered(log: Log) {
    forall i :: 0 <= i < |log| ==> At(log[i]) == Some(Position(0, i + 1))
  }

  lemma NextStateSound(s: Store, op: Op)
    requires SoundAt(s, op.attempt.source) && SoundOp(op) && Judge(s, op) == Accepted
    ensures SoundState(NextState(s, op)) && NextState(s, op).source == op.attempt.source
  {
  }

  lemma SoundStep(s: Store, op: Op, source: Source)
    requires SoundAt(s, source) && SoundOp(op) && Judge(s, op) == Accepted
    ensures SoundAt(Apply(s, op), source)
  {
    if op.attempt.source == source {
      NextStateSound(s, op);
    }
  }

  /** Taking over an attempt is one step of the fold. */
  lemma NextStateFolds(s: Store, op: Op, log: Log, t: Transition)
    requires Judge(s, op) == Accepted && t.attempt == op.attempt && t.kind == KindOf(op.attempt.outcome)
    requires if op.attempt.source in s.states then Folds(s.states[op.attempt.source], log) else log == []
    ensures Folds(NextState(s, op), log + [t])
  {
    FoldAppend(log, t);
  }

  lemma TrackStep(s: Store, op: Op, source: Source)
    requires Tracks(s, source) && SoundOp(op) && Judge(s, op) == Accepted
    ensures Tracks(Apply(s, op), source)
  {
    var r := Record(s, op.attempt);
    SourceLogAppend(s.log, r, source);
    if op.attempt.source == source {
      NextStateSound(s, op);
      NextStateFolds(s, op, SourceLog(s.log, source), r);
    }
  }

  /** A terminal transition finds its own start at the end of the log. */
  ghost predicate Continues(log: Log, t: Transition) {
    t.kind != StartedKind ==>
      log != [] && log[|log| - 1].kind == StartedKind && log[|log| - 1].attempt.attemptId == t.attempt.attemptId
  }

  lemma WellKeptAppend(log: Log, t: Transition)
    requires WellKept(log) && ValidTransition(t) && Continues(log, t)
    ensures WellKept(log + [t])
  {
  }

  lemma AcceptedContinues(s: Store, op: Op, log: Log)
    requires Judge(s, op) == Accepted && log == SourceLog(s.log, op.attempt.source)
    requires Tracks(s, op.attempt.source) && WellKept(log)
    ensures Continues(log, Record(s, op.attempt))
  {
    if op.Finish? {
      assert ValidTransition(log[|log| - 1]);
    }
  }

  lemma AlternationStep(s: Store, op: Op, source: Source)
    requires Tracks(s, source) && WellKept(SourceLog(s.log, source)) && Judge(s, op) == Accepted
    ensures WellKept(SourceLog(Apply(s, op).log, source))
  {
    var r, log := Record(s, op.attempt), SourceLog(s.log, source);
    SourceLogAppend(s.log, r, source);
    if op.attempt.source == source {
      AcceptedContinues(s, op, log);
      WellKeptAppend(log, r);
    }
  }

  /**
   Over every run: the state of a source is the fold of its accepted history and passes its own
   checks, and each terminal transition directly follows its own start.
   */
  lemma {:induction false} RunKeepsFold(ops: seq<Op>)
    requires forall i :: 0 <= i < |ops| ==> SoundOp(ops[i])
    ensures Kept(Run(ops))
  {
    if ops != [] {
      var before, op := ops[..|ops| - 1], ops[|ops| - 1];
      RunKeepsFold(before);
      var s := Run(before);
      forall source ensures Tracks(Apply(s, op), source) && WellKept(SourceLog(Apply(s, op).log, source)) {
        assert Tracks(s, source) && WellKept(SourceLog(s.log, source));
        if Judge(s, op) == Accepted {
          TrackStep(s, op, source);
          AlternationStep(s, op, source);
        }
      }
    }
  }

  /** So every state is sound after every run. */
  lemma RunSound(ops: seq<Op>, source: Source)
    requires forall i :: 0 <= i < |ops| ==> SoundOp(ops[i])
    ensures SoundAt(Run(ops), source)
  {
    RunKeepsFold(ops);
    assert Tracks(Run(ops), source) && WellKept(SourceLog(Run(ops).log, source));
  }

  lemma NumberedAppend(log: Log, t: Transition)
    requires Numbered(log) && At(t) == Some(Position(0, |log| + 1))
    ensures Numbered(log + [t])
  {
  }

  lemma NumberedNext(s: Store, op: Op)
    requires Numbered(s.log)
    ensures Numbered(Apply(s, op).log)
  {
    var r := Record(s, op.attempt);
    ParseFormat(Position(0, |s.log| + 1));
    assert At(r) == Some(Position(0, |s.log| + 1));
    NumberedAppend(s.log, r);
  }

  /** The history is append-only and its identifiers ascend, so every later history is grown from an earlier one. */
  lemma {:induction false} RunNumbers(ops: seq<Op>)
    ensures Numbered(Run(ops).log)
  {
    if ops != [] {
      RunNumbers(ops[..|ops| - 1]);
      NumberedNext(Run(ops[..|ops| - 1]), ops[|ops| - 1]);
    }
  }

  lemma NumberedAscends(log: Log)
    requires Numbered(log)
    ensures Ascends(At, log)
  {
    forall i, j | 0 <= i < j < |log| ensures Older(At, log[i], log[j]) {
      assert At(log[i]) == Some(Position(0, i + 1)) && At(log[j]) == Some(Position(0, j + 1));
    }
  }

  lemma {:induction false} RunAppends(ops: seq<Op>, cut: nat)
    requires cut <= |ops|
    ensures Run(ops[..cut]).log <= Run(ops).log
  {
    if cut == |ops| {
      assert ops[..cut] == ops;
    } else {
      RunAppends(ops[..|ops| - 1], cut);
      assert ops[..|ops| - 1][..cut] == ops[..cut];
    }
  }

  lemma RunGrows(ops: seq<Op>, from': nat, cut: nat)
    requires from' <= cut <= |ops|
    ensures GrownFrom(At, Run(ops[..from']).log, Run(ops[..cut]).log, 0)
  {
    RunAppends(ops[..cut], from');
    assert ops[..cut][..from'] == ops[..from'];
    RunNumbers(ops[..cut]);
    var first, now := Run(ops[..from']).log, Run(ops[..cut]).log;
    forall i, k | 0 <= i < |first| && |first| <= k < |now| ensures Older(At, first[i], now[k]) {
      assert At(now[i]) == Some(Position(0, i + 1)) && At(now[k]) == Some(Position(0, k + 1));
    }
  }

  /** The histories seen by requests made after the first `cuts[0]`, `cuts[1]`, ... operations of a run. */
  function HistoriesAt(ops: seq<Op>, cuts: seq<nat>): (moments: seq<Moment<Transition>>)
    requires forall i :: 0 <= i < |cuts| ==> cuts[i] <= |ops|
    ensures |moments| == |cuts|
    ensures forall i :: 0 <= i < |cuts| ==> moments[i] == Moment(Run(ops[..cuts[i]]).log, 0)
  {
    seq(|cuts|, i requires 0 <= i < |cuts| => Moment(Run(ops[..cuts[i]]).log, 0))
  }

  /**
   Paging through the in-memory history while the run goes on: a client that follows cursors to the end
   sees exactly the history of its first request, newest first.
   */
  lemma PagingSeesFirstHistory(ops: seq<Op>, cuts: seq<nat>, limit: nat, responses: seq<Response>)
    requires cuts != [] && 1 <= limit <= 100
    requires forall i :: 0 <= i < |cuts| ==> cuts[0] <= cuts[i] <= |ops|
    requires Session(HistoriesAt(ops, cuts), None, limit, responses)
    ensures var first := Run(ops[..cuts[0]]).log;
            Shown(responses) == Down(first, 0, |first|)
  {
    var first, moments := Run(ops[..cuts[0]]).log, HistoriesAt(ops, cuts);
    RunNumbers(ops[..cuts[0]]);
    NumberedAscends(first);
    forall i | 0 <= i < |cuts| ensures GrownFrom(At, first, moments[i].log, moments[i].dropped) {
      RunGrows(ops, cuts[0], cuts[i]);
    }
    CursorSessionSeesAll(first, moments, limit, responses);
  }

  // ---- runs whose completions keep the start time of their start ----

  predicate Completes(finish: Op, start: Op) {
    && start.Start? && finish.Finish?
    && start.attempt.source == finish.attempt.source && start.attempt.attemptId == finish.attempt.attemptId
  }

  /** A completion shows the start time its start had. */
  ghost predicate KeepsStarts(ops: seq<Op>) {
    forall start, finish :: start in ops && finish in ops && Completes(finish, start) ==>
      start.attempt.startedAt == finish.attempt.startedAt
  }

  /** The same for one operation at the moment it is applied. */
  predicate KeepsStart(s: Store, op: Op) {
    var existing := Current(s, op.attempt.source);
    op.Finish? && existing.Some? && existing.value.current.outcome == InProgress
      && existing.value.current.attemptId == op.attempt.attemptId ==>
        existing.value.current.startedAt == op.attempt.startedAt
  }

  /** A running attempt is one that was started. */
  ghost predicate CameFromStart(ops: seq<Op>, s: Store, source: Source) {
    source in s.states ==>
      && s.states[source].current.source == source
      && (s.states[source].current.outcome == InProgress ==>
            Start(s.states[source].current, s.states[source].policy) in ops)
  }

  lemma {:induction false} RunCameFromStarts(ops: seq<Op>, source: Source)
    ensures CameFromStart(ops, Run(ops), source)
  {
    if ops != [] {
      RunCameFromStarts(ops[..|ops| - 1], source);
    }
  }

  lemma RunKeepsStart(ops: seq<Op>, i: nat)
    requires KeepsStarts(ops) && i < |ops|
    ensures KeepsStart(Run(ops[..i]), ops[i])
  {
    var existing := Current(Run(ops[..i]), ops[i].attempt.source);
    RunCameFromStarts(ops[..i], ops[i].attempt.source);
    if existing.Some? && existing.value.current.outcome == InProgress {
      var start := Start(existing.value.current, existing.value.policy);
      assert start in ops && (Completes(ops[i], start) ==> start.attempt.startedAt == ops[i].attempt.startedAt);
    }
  }

  /** Start times along one source's history: starts increase, completions repeat their start's. */
  ghost predicate Timed(log: Log) {
    && StartsIncrease(log) && StartsKept(log)
    && forall i :: 0 <= i < |log| ==> Instant(log[i].attempt.startedAt) <= Instant(log[|log| - 1].attempt.startedAt)
  }

  lemma TimedAppend(log: Log, t: Transition)
    requires Timed(log)
    requires log != [] && t.kind == StartedKind ==> Instant(log[|log| - 1].attempt.startedAt) < Instant(t.attempt.startedAt)
    requires t.kind != StartedKind ==> log != [] && t.attempt.startedAt == log[|log| - 1].attempt.startedAt
    ensures Timed(log + [t])
  {
  }

  /** An accepted operation comes after the last transition of its source. */
  lemma AcceptedInTime(s: Store, op: Op, log: Log)
    requires Judge(s, op) == Accepted && KeepsStart(s, op)
    requires if op.attempt.source in s.states then Folds(s.states[op.attempt.source], log) else log == []
    ensures op.Start? && log != [] ==> Instant(log[|log| - 1].attempt.startedAt) < Instant(op.attempt.startedAt)
    ensures op.Finish? ==> log != [] && op.attempt.startedAt == log[|log| - 1].attempt.startedAt
    ensures op.Start? <==> KindOf(op.attempt.outcome) == StartedKind
  {
  }

  lemma TimedStep(s: Store, op: Op, source: Source)
    requires Tracks(s, source) && Timed(SourceLog(s.log, source)) && Judge(s, op) == Accepted && KeepsStart(s, op)
    ensures Timed(SourceLog(Apply(s, op).log, source))
  {
    var r, log := Record(s, op.attempt), SourceLog(s.log, source);
    SourceLogAppend(s.log, r, source);
    if op.attempt.source == source {
      AcceptedInTime(s, op, log);
      TimedAppend(log, r);
    }
  }

  lemma NeverInvalid(s: Store, op: Op)
    requires SoundAt(s, op.attempt.source) && SoundOp(op) && KeepsStart(s, op)
    ensures Judge(s, op) != Invalid
  {
  }

  /**
   When completions keep their start's time, start times strictly increase along each source's history
   and completions repeat them.
   */
  lemma {:induction false} RunKeepsTime(ops: seq<Op>, source: Source)
    requires (forall i :: 0 <= i < |ops| ==> SoundOp(ops[i])) && KeepsStarts(ops)
    ensures Timed(SourceLog(Run(ops).log, source))
  {
    if ops != [] {
      var n := |ops| - 1;
      var s := Run(ops[..n]);
      RunKeepsTime(ops[..n], source);
      RunKeepsFold(ops[..n]);
      RunKeepsStart(ops, n);
      assert Tracks(s, source);
      if Judge(s, ops[n]) == Accepted {
        TimedStep(s, ops[n], source);
      }
    }
  }

  /** Then no transition is ever refused for an inconsistent state either. */
  lemma RunNeverInvalid(ops: seq<Op>, i: nat)
    requires (forall k :: 0 <= k < |ops| ==> SoundOp(ops[k])) && KeepsStarts(ops) && i < |ops|
    ensures Judge(Run(ops[..i]), ops[i]) != Invalid
  {
    RunKeepsFold(ops[..i]);
    RunKeepsStart(ops, i);
    assert Tracks(Run(ops[..i]), ops[i].attempt.source);
    NeverInvalid(Run(ops[..i]), ops[i]);
  }

  // ---- what loading gives ----

  /** Loading goes source by source. */
  lemma {:induction false} LoadedSplits(s: Store, first: seq<Source>, second: seq<Source>)
    ensures Loaded(s, first + second) == Loaded(s, first) + Loaded(s, second)
  {
    if second == [] {
      assert first + second == first;
    } else {
      var n := |second| - 1;
      LoadedSplits(s, first, second[..n]);
      assert (first + second)[..|first| + n] == first + second[..n];
      assert (first + second)[|first| + n] == second[n];
    }
  }

  /** A source that has a state is loaded with it, and one that has none is left out. */
  lemma LoadedOne(s: Store, source: Source)
    ensures Loaded(s, [source]) == if source in s.states then [s.states[source]] else []
  {
    assert [source][..0] == [];
  }
}
