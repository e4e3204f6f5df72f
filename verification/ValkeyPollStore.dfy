/**
 The Valkey poll store: a hash of optional fields and a bounded stream changed by two scripts, which
 compare start times as text.  Step for step it does what the in-memory store does.
 */
module ValkeyPollStore {
  import opened Ordering
  import opened Paging
  import opened PollHistory
  import opened PollStore
  import opened SourcePoll
  import opened StreamId
  import opened UtcTime
  import opened Wrappers

  /** The hash of one source; a field that was never set is `None`. */
  datatype Hash = Hash(
    source: Option<Source>, policy: Option<Policy>, attemptId: Option<string>, startedAt: Option<string>,
    outcome: Option<Outcome>, attempt: Option<Attempt>, lastSuccess: Option<Attempt>, failures: Option<int>)

  function NoHash(): Hash {
    Hash(None, None, None, None, None, None, None, None)
  }

  /** The server: hashes by source, the stream, and the largest identifier it has given out. */
  datatype Server = Server(hashes: map<Source, Hash>, stream: Log, lastId: Position)

  function HashAt(s: Server, source: Source): Hash {
    if source in s.hashes then s.hashes[source] else NoHash()
  }

  /** What the server chooses when it appends: a larger identifier, and how many old entries it trims. */
  datatype Choice = Choice(id: Position, trimmed: nat)

  /** `XADD ... MAXLEN ~ bound *`: identifiers grow, and trimming leaves at least `bound` entries. */
  predicate Permitted(s: Server, bound: nat, c: Choice) {
    Precedes(s.lastId, c.id) && (c.trimmed > 0 ==> c.trimmed + bound <= |s.stream| + 1)
  }

  function StartHash(h: Hash, a: Attempt, policy: Policy): Hash
    requires ValidAttempt(a)
  {
    h.(source := Some(a.source), policy := Some(policy), attemptId := Some(a.attemptId),
       startedAt := Some(Iso(a.startedAt)), outcome := Some(InProgress), attempt := Some(a))
  }

  function CompletionHash(h: Hash, a: Attempt): Hash {
    var ended := h.(outcome := Some(a.outcome), attempt := Some(a));
    if a.outcome == Succeeded then ended.(lastSuccess := Some(a), failures := Some(0))
    else ended.(failures := Some((if h.failures.Some? then h.failures.value else 0) + 1))
  }

  function ServerJudge(s: Server, op: Op): Verdict
    requires SoundOp(op)
  {
    var a, h := op.attempt, HashAt(s, op.attempt.source);
    match op
    case Start(_, policy) =>
      if a.outcome != InProgress || a.source != policy.source then Malformed
      else if h.startedAt.Some? && AtMost(Iso(a.startedAt), h.startedAt.value) then Stale
      else Accepted
    case Finish(_) =>
      if a.outcome == InProgress || a.completedAt.None? then Malformed
      else if h.attemptId.None? || h.attemptId.value != a.attemptId || h.outcome != Some(InProgress) then Stale
      else Accepted
  }

  function Appended(stream: Log, a: Attempt, c: Choice): Log
    requires c.trimmed <= |stream| + 1
  {
    (stream + [Transition(Format(c.id), a.source, KindOf(a.outcome), a)])[c.trimmed..]
  }

  function ServerApply(s: Server, bound: nat, op: Op, c: Choice): Server
    requires SoundOp(op) && Permitted(s, bound, c)
  {
    if ServerJudge(s, op) == Accepted then
      var h := HashAt(s, op.attempt.source);
      var h' := if op.Start? then StartHash(h, op.attempt, op.policy) else CompletionHash(h, op.attempt);
      Server(s.hashes[op.attempt.source := h'], Appended(s.stream, op.attempt, c), c.id)
    else s
  }

  // ---- the store, as its client and the two scripts run it ----

  class ValkeySourcePollStore {
    const historyMaxLength: nat
    var hashes: map<Source, Hash>
    var stream: Log
    var lastId: Position

    ghost function Contents(): Server
      reads this
    {
      Server(hashes, stream, lastId)
    }

    constructor (historyMaxLength: nat)
      requires historyMaxLength >= 1
      ensures this.historyMaxLength == historyMaxLength
      ensures Contents() == Server(map[], [], Position(0, 0))
    {
      this.historyMaxLength := historyMaxLength;
      hashes, stream, lastId := map[], [], Position(0, 0);
    }

    method Hget(source: Source) returns (h: Hash)
      ensures h == HashAt(Contents(), source)
    {
      h := NoHash();
      if source in hashes {
        h := hashes[source];
      }
    }

    method Xadd(kind: Kind, attempt: Attempt, choice: Choice)
      requires Permitted(Contents(), historyMaxLength, choice) && kind == KindOf(attempt.outcome)
      modifies this`stream, this`lastId
      ensures stream == Appended(old(stream), attempt, choice) && lastId == choice.id
    {
      stream := stream + [Transition(Format(choice.id), attempt.source, kind, attempt)];
      stream := stream[choice.trimmed..];
      lastId := choice.id;
    }

    method RecordStarted(attempt: Attempt, policy: Policy, choice: Choice) returns (verdict: Verdict)
      requires SoundOp(Start(attempt, policy)) && Permitted(Contents(), historyMaxLength, choice)
      modifies this
      ensures verdict == ServerJudge(old(Contents()), Start(attempt, policy))
      ensures Contents() == ServerApply(old(Contents()), historyMaxLength, Start(attempt, policy), choice)
    {
      if attempt.outcome != InProgress || attempt.source != policy.source {
        return Malformed;
      }
      var h := Hget(attempt.source);
      if h.startedAt.Some? && AtMost(Iso(attempt.startedAt), h.startedAt.value) {
        return Stale;
      }
      hashes := hashes[attempt.source := h.(
        source := Some(attempt.source), policy := Some(policy), attemptId := Some(attempt.attemptId),
        startedAt := Some(Iso(attempt.startedAt)), outcome := Some(InProgress), attempt := Some(attempt))];
      Xadd(StartedKind, attempt, choice);
      verdict := Accepted;
    }

    method RecordCompleted(attempt: Attempt, choice: Choice) returns (verdict: Verdict)
      requires SoundOp(Finish(attempt)) && Permitted(Contents(), historyMaxLength, choice)
      modifies this
      ensures verdict == ServerJudge(old(Contents()), Finish(attempt))
      ensures Contents() == ServerApply(old(Contents()), historyMaxLength, Finish(attempt), choice)
    {
      if attempt.outcome == InProgress || attempt.completedAt.None? {
        return Malformed;
      }
      var h := Hget(attempt.source);
      if h.attemptId.None? || h.attemptId.value != attempt.attemptId || h.outcome != Some(InProgress) {
        return Stale;
      }
      h := h.(outcome := Some(attempt.outcome), attempt := Some(attempt));
      if attempt.outcome == Succeeded {
        h := h.(lastSuccess := Some(attempt), failures := Some(0));
      } else {
        h := h.(failures := Some((if h.failures.Some? then h.failures.value else 0) + 1));
      }
      hashes := hashes[attempt.source := h];
      Xadd(KindOf(attempt.outcome), attempt, choice);
      verdict := Accepted;
    }
  }

  // ---- reading the hash back ----

  datatype LoadError = Incomplete | WrongSource | Inconsistent

  /** `load_states` for one source; an empty hash is a source without a state. */
  function Load(h: Hash, source: Source): Result<Option<PollState>, LoadError> {
    if h == NoHash() then Success(None)
    else if h.source.None? || h.policy.None? || h.attempt.None? then Failure(Incomplete)
    else if h.source.value != source then Failure(WrongSource)
    else
      var state := PollState(
        source, h.policy.value, h.attempt.value, h.lastSuccess, if h.failures.Some? then h.failures.value else 0);
      if SoundState(state) then Success(Some(state)) else Failure(Inconsistent)
  }

  function LoadAll(s: Server, sources: seq<Source>): Result<seq<PollState>, LoadError> {
    if sources == [] then Success([])
    else
      var last := sources[|sources| - 1];
      match LoadAll(s, sources[..|sources| - 1])
      case Failure(e) => Failure(e)
      case Success(states) =>
        match Load(HashAt(s, last), last)
        case Failure(e) => Failure(e)
        case Success(None) => Success(states)
        case Success(Some(state)) => Success(states + [state])
  }

  // ---- simulation ----

  /** The hash holds the state. */
  ghost predicate Holds(h: Hash, state: Option<PollState>) {
    if state.None? then h == NoHash()
    else
      var st := state.value;
      && st.current.source == st.source && Valid(st.current.startedAt)
      && h.source == Some(st.source) && h.policy == Some(st.policy)
      && h.attemptId == Some(st.current.attemptId) && h.startedAt == Some(Iso(st.current.startedAt))
      && h.outcome == Some(st.current.outcome) && h.attempt == Some(st.current)
      && h.lastSuccess == st.lastSuccess && (if h.failures.Some? then h.failures.value else 0) == st.failures
  }

  predicate SameEvent(a: Transition, b: Transition) {
    a.source == b.source && a.kind == b.kind && a.attempt == b.attempt
  }

  /** The stream is the newest part of the log, up to identifiers, and at least `bound` long if the log is. */
  ghost predicate Retains(stream: Log, log: Log, bound: nat) {
    && |stream| <= |log| && (|stream| >= bound || |stream| == |log|)
    && forall k {:trigger stream[k]} :: 0 <= k < |stream| ==> SameEvent(stream[k], log[|log| - |stream| + k])
  }

  ghost predicate Simulates(s: Server, m: Store, bound: nat) {
    && (forall source :: Holds(HashAt(s, source), Current(m, source)))
    && Retains(s.stream, m.log, bound)
  }

  lemma StartsJudgedAlike(s: Server, m: Store, op: Op)
    requires SoundOp(op) && op.Start?
    requires SoundAt(m, op.attempt.source) && Holds(HashAt(s, op.attempt.source), Current(m, op.attempt.source))
    ensures ServerJudge(s, op) == Judge(m, op)
  {
    NeverInvalid(m, op);
    var existing := Current(m, op.attempt.source);
    if existing.Some? {
      IsoOrder(op.attempt.startedAt, existing.value.current.startedAt);
    }
  }

  lemma FinishesJudgedAlike(s: Server, m: Store, op: Op)
    requires SoundOp(op) && op.Finish? && KeepsStart(m, op)
    requires SoundAt(m, op.attempt.source) && Holds(HashAt(s, op.attempt.source), Current(m, op.attempt.source))
    ensures ServerJudge(s, op) == Judge(m, op)
  {
    NeverInvalid(m, op);
  }

  lemma StartHolds(h: Hash, m: Store, op: Op)
    requires op.Start? && ValidAttempt(op.attempt) && op.attempt.outcome == InProgress
    requires Holds(h, Current(m, op.attempt.source))
    ensures Holds(StartHash(h, op.attempt, op.policy), Some(NextState(m, op)))
  {
  }

  lemma FinishHolds(h: Hash, m: Store, op: Op)
    requires op.Finish? && KeepsStart(m, op) && Judge(m, op) == Accepted
    requires Holds(h, Current(m, op.attempt.source)) && Current(m, op.attempt.source).value.source == op.attempt.source
    ensures Holds(CompletionHash(h, op.attempt), Some(NextState(m, op)))
  {
  }

  lemma HashStep(s: Server, m: Store, bound: nat, op: Op, c: Choice, source: Source)
    requires SoundOp(op) && Permitted(s, bound, c) && KeepsStart(m, op) && SoundAt(m, source)
    requires Holds(HashAt(s, source), Current(m, source))
    requires ServerJudge(s, op) == Accepted && Judge(m, op) == Accepted
    ensures Holds(HashAt(ServerApply(s, bound, op, c), source), Current(Apply(m, op), source))
  {
    if op.attempt.source == source {
      if op.Start? {
        StartHolds(HashAt(s, source), m, op);
      } else {
        FinishHolds(HashAt(s, source), m, op);
      }
    }
  }

  lemma StreamStep(stream: Log, log: Log, bound: nat, a: Attempt, c: Choice, r: Transition)
    requires Retains(stream, log, bound) && (c.trimmed > 0 ==> c.trimmed + bound <= |stream| + 1)
    requires SameEvent(Transition(Format(c.id), a.source, KindOf(a.outcome), a), r)
    ensures Retains(Appended(stream, a, c), log + [r], bound)
  {
  }

  /** One step: the same verdict, and the stores still hold the same. */
  lemma StepSimulates(s: Server, m: Store, bound: nat, op: Op, c: Choice)
    requires SoundOp(op) && Permitted(s, bound, c) && KeepsStart(m, op)
    requires Simulates(s, m, bound) && (forall source :: SoundAt(m, source))
    ensures ServerJudge(s, op) == Judge(m, op)
    ensures Simulates(ServerApply(s, bound, op, c), Apply(m, op), bound)
  {
    assert SoundAt(m, op.attempt.source) && Holds(HashAt(s, op.attempt.source), Current(m, op.attempt.source));
    if op.Start? {
      StartsJudgedAlike(s, m, op);
    } else {
      FinishesJudgedAlike(s, m, op);
    }
    if Judge(m, op) == Accepted {
      forall source ensures Holds(HashAt(ServerApply(s, bound, op, c), source), Current(Apply(m, op), source)) {
        HashStep(s, m, bound, op, c, source);
      }
      StreamStep(s.stream, m.log, bound, op.attempt, c, Record(m, op.attempt));
    }
  }

  /** Loading from the hashes gives the states of the in-memory store. */
  lemma {:induction false} LoadsAlike(s: Server, m: Store, sources: seq<Source>)
    requires forall source :: SoundAt(m, source) && Holds(HashAt(s, source), Current(m, source))
    ensures LoadAll(s, sources) == Success(Loaded(m, sources))
  {
    if sources != [] {
      var last := sources[|sources| - 1];
      LoadsAlike(s, m, sources[..|sources| - 1]);
      assert SoundAt(m, last) && Holds(HashAt(s, last), Current(m, last));
      assert Loaded(m, sources[..|sources| - 1]) + [] == Loaded(m, sources[..|sources| - 1]);
    }
  }

  // ---- runs ----

  /** A run as the server sees it: sound operations, and its choice at each. */
  datatype Trace = Trace(bound: nat, ops: seq<Op>, choices: seq<Choice>)

  ghost predicate SoundTrace(t: Trace) {
    |t.ops| == |t.choices| && forall i :: 0 <= i < |t.ops| ==> SoundOp(t.ops[i])
  }

  /** The server after `n` operations, if every choice up to there was one it may make. */
  ghost function ServerAfter(t: Trace, n: nat): Option<Server>
    requires SoundTrace(t) && n <= |t.ops|
  {
    if n == 0 then Some(Server(map[], [], Position(0, 0)))
    else
      var s := ServerAfter(t, n - 1);
      if s.Some? && Permitted(s.value, t.bound, t.choices[n - 1]) then
        Some(ServerApply(s.value, t.bound, t.ops[n - 1], t.choices[n - 1]))
      else None
  }

  ghost predicate Possible(t: Trace, n: nat) {
    SoundTrace(t) && n <= |t.ops| && ServerAfter(t, n).Some?
  }

  lemma Prefixes(ops: seq<Op>, n: nat)
    requires n < |ops|
    ensures ops[..n + 1][..n] == ops[..n] && ops[..n + 1][n] == ops[n]
  {
  }

  lemma EarlierPossible(t: Trace, i: nat, n: nat)
    requires Possible(t, n) && i <= n
    ensures Possible(t, i)
  {
    if i < n {
      EarlierPossible(t, i, n - 1);
    }
  }

  /** The in-memory store has a sound state for every source after `n` operations. */
  lemma SoundAll(t: Trace, n: nat)
    requires SoundTrace(t) && n <= |t.ops|
    ensures forall source :: SoundAt(Run(t.ops[..n]), source)
  {
    forall source ensures SoundAt(Run(t.ops[..n]), source) {
      RunSound(t.ops[..n], source);
    }
  }

  /** After `n` operations the server simulates the in-memory store. */
  ghost predicate SimulatesAfter(t: Trace, n: nat)
    requires Possible(t, n)
  {
    Simulates(ServerAfter(t, n).value, Run(t.ops[..n]), t.bound)
  }

  /** `s'` and `m'` are what one permitted operation makes of `s` and `m`. */
  ghost predicate Moves(s: Server, m: Store, bound: nat, op: Op, c: Choice, s': Server, m': Store) {
    SoundOp(op) && Permitted(s, bound, c) && s' == ServerApply(s, bound, op, c) && m' == Apply(m, op)
  }

  lemma MoveSimulates(s: Server, m: Store, bound: nat, op: Op, c: Choice, s': Server, m': Store)
    requires Moves(s, m, bound, op, c, s', m') && KeepsStart(m, op)
    requires Simulates(s, m, bound) && (forall source :: SoundAt(m, source))
    ensures Simulates(s', m', bound)
  {
    StepSimulates(s, m, bound, op, c);
  }

  lemma TraceMoves(t: Trace, n: nat)
    requires Possible(t, n + 1) && Possible(t, n)
    ensures Moves(ServerAfter(t, n).value, Run(t.ops[..n]), t.bound, t.ops[n], t.choices[n],
                  ServerAfter(t, n + 1).value, Run(t.ops[..n + 1]))
  {
    Prefixes(t.ops, n);
  }

  lemma StartSimulates(t: Trace)
    requires Possible(t, 0)
    ensures SimulatesAfter(t, 0)
  {
    assert t.ops[..0] == [];
  }

  lemma TraceStep(t: Trace, n: nat)
    requires Possible(t, n + 1) && KeepsStarts(t.ops) && Possible(t, n) && SimulatesAfter(t, n)
    ensures SimulatesAfter(t, n + 1)
  {
    SoundAll(t, n);
    RunKeepsStart(t.ops, n);
    TraceMoves(t, n);
    MoveSimulates(ServerAfter(t, n).value, Run(t.ops[..n]), t.bound, t.ops[n], t.choices[n],
                  ServerAfter(t, n + 1).value, Run(t.ops[..n + 1]));
  }

  /**
   On every run whose completions keep their start's time, whatever identifiers and trimming the server
   chooses, the hashes hold the in-memory states and the stream the newest part of the in-memory history.
   */
  lemma {:induction false} RunSimulates(t: Trace, n: nat)
    requires Possible(t, n) && KeepsStarts(t.ops)
    ensures SimulatesAfter(t, n)
  {
    if n == 0 {
      StartSimulates(t);
    } else {
      EarlierPossible(t, n - 1, n);
      RunSimulates(t, n - 1);
      TraceStep(t, n - 1);
    }
  }

  /** Both stores accept and refuse the same operations for the same reasons, and load the same states. */
  lemma StoresAgree(t: Trace, n: nat, sources: seq<Source>)
    requires Possible(t, n) && KeepsStarts(t.ops)
    ensures n < |t.ops| ==> ServerJudge(ServerAfter(t, n).value, t.ops[n]) == Judge(Run(t.ops[..n]), t.ops[n])
    ensures LoadAll(ServerAfter(t, n).value, sources) == Success(Loaded(Run(t.ops[..n]), sources))
  {
    RunSimulates(t, n);
    SoundAll(t, n);
    var s, m := ServerAfter(t, n).value, Run(t.ops[..n]);
    LoadsAlike(s, m, sources);
    if n < |t.ops| {
      RunKeepsStart(t.ops, n);
      var source := t.ops[n].attempt.source;
      assert SoundAt(m, source) && Holds(HashAt(s, source), Current(m, source));
      if t.ops[n].Start? {
        StartsJudgedAlike(s, m, t.ops[n]);
      } else {
        FinishesJudgedAlike(s, m, t.ops[n]);
      }
    }
  }

  // ---- what a completion that moves its start time does ----

  /** Both stores judge every later start of the source alike. */
  ghost predicate AgreeOnStarts(s: Server, m: Store, source: Source) {
    forall op: Op :: op.Start? && SoundOp(op) && op.attempt.source == source ==> ServerJudge(s, op) == Judge(m, op)
  }

  function FreshAttempt(source: Source, startedAt: Utc): (a: Attempt)
    ensures Valid(startedAt) ==> ValidAttempt(a)
  {
    Attempt("source-poll-0", source, startedAt, None, InProgress, Fetch, 0, None, None, None, None, None, None)
  }

  lemma KeptStartAgrees(s: Server, m: Store, bound: nat, op: Op, c: Choice)
    requires SoundOp(op) && op.Finish? && Permitted(s, bound, c) && SoundAt(m, op.attempt.source)
    requires Holds(HashAt(s, op.attempt.source), Current(m, op.attempt.source))
    requires ServerJudge(s, op) == Accepted && KeepsStart(m, op)
    ensures Judge(m, op) == Accepted
    ensures AgreeOnStarts(ServerApply(s, bound, op, c), Apply(m, op), op.attempt.source)
  {
    var source := op.attempt.source;
    FinishesJudgedAlike(s, m, op);
    HashStep(s, m, bound, op, c, source);
    SoundStep(m, op, source);
    forall next: Op | next.Start? && SoundOp(next) && next.attempt.source == source
      ensures ServerJudge(ServerApply(s, bound, op, c), next) == Judge(Apply(m, op), next)
    {
      StartsJudgedAlike(ServerApply(s, bound, op, c), Apply(m, op), next);
    }
  }

  /** A start at the later of the two times is judged differently. */
  lemma MovedStartDiffers(s: Server, m: Store, bound: nat, op: Op, c: Choice) returns (next: Op)
    requires SoundOp(op) && op.Finish? && Permitted(s, bound, c) && SoundAt(m, op.attempt.source)
    requires Holds(HashAt(s, op.attempt.source), Current(m, op.attempt.source))
    requires ServerJudge(s, op) == Accepted && Judge(m, op) == Accepted && !KeepsStart(m, op)
    ensures next.Start? && SoundOp(next) && next.attempt.source == op.attempt.source
    ensures ServerJudge(ServerApply(s, bound, op, c), next) != Judge(Apply(m, op), next)
  {
    var existing := m.states[op.attempt.source];
    var started, moved := existing.current.startedAt, op.attempt.startedAt;
    BeforeIffEarlier(started, moved);
    var later := if Instant(started) < Instant(moved) then moved else started;
    next := Start(FreshAttempt(op.attempt.source, later), existing.policy);
    IsoOrder(later, started);
    SoundStep(m, op, op.attempt.source);
    NeverInvalid(Apply(m, op), next);
  }

  /**
   After a completion the scripts accept, the two stores judge it and all later starts alike exactly
   when the completion keeps its start's time: the in-memory store takes over the completion's
   `started_at`, the hash keeps the start's.
   */
  lemma AgreementNeedsKeptStart(s: Server, m: Store, bound: nat, op: Op, c: Choice)
    requires SoundOp(op) && op.Finish? && Permitted(s, bound, c) && SoundAt(m, op.attempt.source)
    requires Holds(HashAt(s, op.attempt.source), Current(m, op.attempt.source))
    requires ServerJudge(s, op) == Accepted
    ensures KeepsStart(m, op) <==>
              && Judge(m, op) == Accepted
              && AgreeOnStarts(ServerApply(s, bound, op, c), Apply(m, op), op.attempt.source)
  {
    if KeepsStart(m, op) {
      KeptStartAgrees(s, m, bound, op, c);
    } else if Judge(m, op) == Accepted {
      var next := MovedStartDiffers(s, m, bound, op, c);
    }
  }

  /** The last operation of the trace is accepted by both stores, which then disagree on some start. */
  ghost predicate EndsInDisagreement(t: Trace, n: nat) {
    && Possible(t, n + 1)
    && ServerJudge(ServerAfter(t, n).value, t.ops[n]) == Accepted && Judge(Run(t.ops[..n]), t.ops[n]) == Accepted
    && !AgreeOnStarts(ServerAfter(t, n + 1).value, Run(t.ops[..n + 1]), t.ops[n].attempt.source)
  }

  lemma StartedOnce(start: Op, c: Choice, bound: nat, rest: seq<Op>, choices: seq<Choice>)
    requires start.Start? && SoundOp(start) && start.attempt.outcome == InProgress
    requires start.attempt.source == start.policy.source
    requires SoundTrace(Trace(bound, [start] + rest, [c] + choices)) && Permitted(Server(map[], [], Position(0, 0)), bound, c)
    ensures Possible(Trace(bound, [start] + rest, [c] + choices), 1)
    ensures var a := start.attempt;
            Run(([start] + rest)[..1]).states == map[a.source := PollState(a.source, start.policy, a, None, 0)]
    ensures ServerAfter(Trace(bound, [start] + rest, [c] + choices), 1).value.lastId == c.id
    ensures Holds(HashAt(ServerAfter(Trace(bound, [start] + rest, [c] + choices), 1).value, start.attempt.source),
                  Current(Run(([start] + rest)[..1]), start.attempt.source))
  {
    var t := Trace(bound, [start] + rest, [c] + choices);
    assert ServerAfter(t, 0) == Some(Server(map[], [], Position(0, 0)));
    assert t.ops[..1] == [start] && [start][..0] == [];
    assert Run([]) == Store(map[], []) && Run([start]) == Apply(Run([]), start);
  }

  /** On the first poll of a source, a failure with another start time ends in disagreement. */
  lemma FirstPollDisagrees(start: Op, finish: Op, c: Choice, c': Choice, bound: nat) returns (t: Trace)
    requires start.Start? && SoundOp(start) && start.attempt.outcome == InProgress && start.attempt.source == start.policy.source
    requires SoundOp(finish) && Completes(finish, start) && finish.attempt.outcome == Failed
    requires start.attempt.startedAt != finish.attempt.startedAt
    requires bound >= 1 && c.trimmed == c'.trimmed == 0 && Precedes(Position(0, 0), c.id) && Precedes(c.id, c'.id)
    ensures EndsInDisagreement(t, 1)
  {
    t := Trace(bound, [start] + [finish], [c] + [c']);
    StartedOnce(start, c, bound, [finish], [c']);
    SoundAll(t, 1);
    Prefixes(t.ops, 1);
    var s, m := ServerAfter(t, 1).value, Run(t.ops[..1]);
    assert SoundAt(m, finish.attempt.source);
    var next := MovedStartDiffers(s, m, bound, finish, c');
    assert Run(t.ops[..2]) == Apply(m, finish);
  }

  /** A failed poll that took no time. */
  function FailedAttempt(source: Source, at: Utc): (a: Attempt)
    ensures Valid(at) ==> ValidAttempt(a)
  {
    Attempt("source-poll-0", source, at, Some(at), Failed, Fetch, 1, None, None, None, None, None, Some(TransportExhausted))
  }

  /** The difference is real: a poll is started, and its failure is dated a year before its start. */
  lemma MovedStartExample()
    ensures exists t, n :: EndsInDisagreement(t, n)
  {
    var early, late := Utc(2024, 1, 1, 0, 0, 0, 0), Utc(2025, 1, 1, 0, 0, 0, 0);
    var start := Start(FreshAttempt(Usgs, late), Policy(Usgs, 60.0, 180.0, 3600.0));
    var t := FirstPollDisagrees(start, Finish(FailedAttempt(Usgs, early)), Choice(Position(1, 0), 0), Choice(Position(2, 0), 0), 10);
  }
}
