/** Which poll transitions are accepted, over every run of either store, in terms of the history alone. */
module PollAcceptance {
  import opened PollHistory
  import opened PollStore
  import opened SourcePoll
  import opened UtcTime
  import opened ValkeyPollStore
  import opened Wrappers

  /** `i` is the position of the last transition of the source. */
  ghost predicate LastOf(log: Log, source: Source, i: nat) {
    i < |log| && log[i].source == source && forall j :: i < j < |log| ==> log[j].source != source
  }

  /** A start is well formed and later than every start time its source has in the log. */
  ghost predicate MayStart(log: Log, a: Attempt, policy: Policy) {
    && a.outcome == InProgress && a.source == policy.source
    && forall t :: t in log && t.source == a.source ==> Instant(t.attempt.startedAt) < Instant(a.startedAt)
  }

  /** A completion ends the attempt whose start is the last transition of its source. */
  ghost predicate MayFinish(log: Log, a: Attempt) {
    && a.outcome != InProgress
    && exists i: nat :: LastOf(log, a.source, i) && log[i].kind == StartedKind && log[i].attempt.attemptId == a.attemptId
  }

  ghost predicate MayApply(log: Log, op: Op) {
    match op
    case Start(a, policy) => MayStart(log, a, policy)
    case Finish(a) => MayFinish(log, a)
  }

  predicate ShapedWrongly(op: Op) {
    match op
    case Start(a, policy) => a.outcome != InProgress || a.source != policy.source
    case Finish(a) => a.outcome == InProgress
  }

  lemma {:induction false} SourceLogMember(log: Log, source: Source, t: Transition)
    ensures t in SourceLog(log, source) <==> t in log && t.source == source
  {
    if log != [] {
      var before, last := log[..|log| - 1], log[|log| - 1];
      SourceLogMember(before, source, t);
      assert log == before + [last];
    }
  }

  lemma {:induction false} SourceLogLast(log: Log, source: Source)
    ensures SourceLog(log, source) == [] ==> forall i: nat :: !LastOf(log, source, i)
    ensures SourceLog(log, source) != [] ==>
              exists i: nat :: LastOf(log, source, i) && log[i] == SourceLog(log, source)[|SourceLog(log, source)| - 1]
  {
    if log != [] {
      var n := |log| - 1;
      var before, last := log[..n], log[n];
      SourceLogLast(before, source);
      if last.source == source {
        assert LastOf(log, source, n);
      } else {
        forall i: nat | LastOf(log, source, i) ensures LastOf(before, source, i) {
          assert before[i] == log[i];
        }
        if SourceLog(before, source) != [] {
          var i: nat :| LastOf(before, source, i) && before[i] == SourceLog(before, source)[|SourceLog(before, source)| - 1];
          assert LastOf(log, source, i) && log[i] == before[i];
        }
      }
    }
  }

  lemma LastUnique(log: Log, source: Source, i: nat, j: nat)
    requires LastOf(log, source, i) && LastOf(log, source, j)
    ensures i == j
  {
  }

  /** The state of a source shows the last transition of its source. */
  lemma CurrentIsLast(s: Store, source: Source)
    requires Tracks(s, source)
    ensures source !in s.states ==> forall i: nat :: !LastOf(s.log, source, i)
    ensures source in s.states ==> exists i: nat :: LastOf(s.log, source, i) && s.log[i].attempt == s.states[source].current
  {
    SourceLogLast(s.log, source);
  }

  /** In a log in time order, later than the last start time is later than all. */
  lemma LaterThanAll(log: Log, source: Source, t: Utc)
    requires Timed(SourceLog(log, source)) && SourceLog(log, source) != []
    ensures Instant(SourceLog(log, source)[|SourceLog(log, source)| - 1].attempt.startedAt) < Instant(t) <==>
            forall x :: x in log && x.source == source ==> Instant(x.attempt.startedAt) < Instant(t)
  {
    var own := SourceLog(log, source);
    var last := own[|own| - 1];
    assert last in own;
    SourceLogMember(log, source, last);
    if Instant(last.attempt.startedAt) < Instant(t) {
      forall x | x in log && x.source == source ensures Instant(x.attempt.startedAt) < Instant(t) {
        SourceLogMember(log, source, x);
      }
    }
  }

  lemma StartMeaning(s: Store, op: Op)
    requires op.Start? && SoundOp(op) && Tracks(s, op.attempt.source) && Timed(SourceLog(s.log, op.attempt.source))
    ensures Judge(s, op) == if ShapedWrongly(op) then Malformed else if MayApply(s.log, op) then Accepted else Stale
  {
    var source := op.attempt.source;
    NeverInvalid(s, op);
    if source in s.states {
      LaterThanAll(s.log, source, op.attempt.startedAt);
    } else {
      forall t | t in s.log ensures t.source != source {
        SourceLogMember(s.log, source, t);
      }
    }
  }

  lemma FinishMeaning(s: Store, op: Op)
    requires op.Finish? && SoundOp(op) && KeepsStart(s, op) && Tracks(s, op.attempt.source)
    requires WellKept(SourceLog(s.log, op.attempt.source))
    ensures Judge(s, op) == if ShapedWrongly(op) then Malformed else if MayApply(s.log, op) then Accepted else Stale
  {
    var source := op.attempt.source;
    NeverInvalid(s, op);
    CurrentIsLast(s, source);
    if source in s.states {
      var i: nat :| LastOf(s.log, source, i) && s.log[i].attempt == s.states[source].current;
      assert s.log[i] in s.log;
      SourceLogMember(s.log, source, s.log[i]);
      assert ValidTransition(s.log[i]);
      forall j: nat | LastOf(s.log, source, j) ensures j == i {
        LastUnique(s.log, source, i, j);
      }
    }
  }

  /**
   Over every run whose completions keep their start's time, a transition is refused as malformed for its
   own shape alone, and otherwise accepted exactly when the history lets it follow.
   */
  lemma AcceptedExactly(ops: seq<Op>, n: nat)
    requires (forall i :: 0 <= i < |ops| ==> SoundOp(ops[i])) && KeepsStarts(ops) && n < |ops|
    ensures Judge(Run(ops[..n]), ops[n]) ==
            if ShapedWrongly(ops[n]) then Malformed else if MayApply(Run(ops[..n]).log, ops[n]) then Accepted else Stale
  {
    var s, op := Run(ops[..n]), ops[n];
    RunKeepsFold(ops[..n]);
    RunKeepsTime(ops[..n], op.attempt.source);
    RunKeepsStart(ops, n);
    assert Tracks(s, op.attempt.source) && WellKept(SourceLog(s.log, op.attempt.source));
    if op.Start? {
      StartMeaning(s, op);
    } else {
      FinishMeaning(s, op);
    }
  }

  /** The scripts of the server accept by the same history. */
  lemma ServerAcceptsExactly(t: Trace, n: nat)
    requires Possible(t, n) && KeepsStarts(t.ops) && n < |t.ops|
    ensures ServerJudge(ServerAfter(t, n).value, t.ops[n]) ==
            if ShapedWrongly(t.ops[n]) then Malformed else if MayApply(Run(t.ops[..n]).log, t.ops[n]) then Accepted else Stale
  {
    StoresAgree(t, n, []);
    AcceptedExactly(t.ops, n);
  }

  // ---- the policy of a state ----

  /** Operation `i` of the run is a start of the source that was accepted. */
  ghost predicate StartedAt(ops: seq<Op>, source: Source, i: nat) {
    && i < |ops| && ops[i].Start? && ops[i].attempt.source == source
    && |Run(ops[..i + 1]).log| > |Run(ops[..i]).log|
  }

  ghost predicate LastStartedAt(ops: seq<Op>, source: Source, i: nat) {
    StartedAt(ops, source, i) && forall j :: i < j < |ops| ==> !StartedAt(ops, source, j)
  }

  lemma StartedBefore(ops: seq<Op>, n: nat, source: Source, i: nat)
    requires i < n <= |ops|
    ensures StartedAt(ops, source, i) <==> StartedAt(ops[..n], source, i)
  {
    assert ops[..n][..i + 1] == ops[..i + 1] && ops[..n][..i] == ops[..i];
  }

  lemma LastStartKept(ops: seq<Op>, source: Source, i: nat)
    requires ops != [] && LastStartedAt(ops[..|ops| - 1], source, i) && !StartedAt(ops, source, |ops| - 1)
    ensures LastStartedAt(ops, source, i)
  {
    var n := |ops| - 1;
    StartedBefore(ops, n, source, i);
    forall j | i < j < |ops| ensures !StartedAt(ops, source, j) {
      if j < n {
        StartedBefore(ops, n, source, j);
      }
    }
  }

  /** Over every run, a state has the policy of the last accepted start of its source. */
  lemma {:induction false} PolicyOfLastStart(ops: seq<Op>, source: Source)
    requires source in Run(ops).states
    ensures exists i: nat :: LastStartedAt(ops, source, i) && Run(ops).states[source].policy == ops[i].policy
  {
    var n := |ops| - 1;
    var s, op := Run(ops[..n]), ops[n];
    assert ops[..n + 1] == ops;
    if StartedAt(ops, source, n) {
      assert LastStartedAt(ops, source, n);
    } else {
      PolicyOfLastStart(ops[..n], source);
      var i: nat :| LastStartedAt(ops[..n], source, i) && s.states[source].policy == ops[..n][i].policy;
      LastStartKept(ops, source, i);
    }
  }
}
