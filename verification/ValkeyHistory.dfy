/** The bounded Valkey stream as a history to page through: it ascends, grows at the new end and expires at the old. */
module ValkeyHistory {
  import opened Paging
  import opened PollHistory
  import opened PollStore
  import opened SourcePoll
  import opened StreamId
  import opened ValkeyPollStore
  import opened Wrappers

  ghost predicate AtOrBelow(log: Log, id: Position) {
    && Ascends(At, log)
    && forall i :: 0 <= i < |log| ==> At(log[i]).Some? && !Precedes(id, At(log[i]).value)
  }

  lemma AppendAbove(stream: Log, id: Position, a: Attempt, c: Choice)
    requires AtOrBelow(stream, id) && Precedes(id, c.id) && c.trimmed <= |stream| + 1
    ensures AtOrBelow(Appended(stream, a, c), c.id)
  {
    var t := Transition(Format(c.id), a.source, KindOf(a.outcome), a);
    ParseFormat(c.id);
    var all := stream + [t];
    forall i, j | 0 <= i < j < |all| ensures Older(At, all[i], all[j]) {
      assert j == |stream| || Older(At, stream[i], stream[j]);
    }
    var now := Appended(stream, a, c);
    forall i, j | 0 <= i < j < |now| ensures Older(At, now[i], now[j]) {
      assert Older(At, all[c.trimmed + i], all[c.trimmed + j]);
    }
  }

  function Min(a: nat, b: nat): nat {
    if a < b then a else b
  }

  lemma GrownAppend(first: Log, now: Log, dropped: nat, t: Transition, trimmed: nat)
    requires GrownFrom(At, first, now, dropped) && trimmed <= |now| + 1
    requires forall i :: 0 <= i < |first| ==> Older(At, first[i], t)
    ensures GrownFrom(At, first, (now + [t])[trimmed..], Min(|first|, dropped + trimmed))
  {
    var all, dropped' := now + [t], Min(|first|, dropped + trimmed);
    var later := all[trimmed..];
    forall k | 0 <= k < |first| - dropped' ensures later[k] == first[dropped' + k] {
      assert now[trimmed + k] == first[dropped + (trimmed + k)];
    }
    forall i, k | 0 <= i < |first| && |first| - dropped' <= k < |later| ensures Older(At, first[i], later[k]) {
      assert later[k] == all[trimmed + k];
      assert trimmed + k == |now| || Older(At, first[i], now[trimmed + k]);
    }
  }

  lemma NewAboveAll(first: Log, id: Position, t: Transition, next: Position)
    requires AtOrBelow(first, id) && Precedes(id, next) && At(t) == Some(next)
    ensures forall i :: 0 <= i < |first| ==> Older(At, first[i], t)
    ensures AtOrBelow(first, next)
  {
    forall i | 0 <= i < |first| ensures Older(At, first[i], t) && !Precedes(next, At(first[i]).value) {
      assert At(first[i]).Some? && !Precedes(id, At(first[i]).value);
    }
  }

  lemma GrowthStep(first: Log, dropped: nat, stream: Log, id: Position, a: Attempt, c: Choice)
    requires AtOrBelow(first, id) && GrownFrom(At, first, stream, dropped)
    requires Precedes(id, c.id) && c.trimmed <= |stream| + 1
    ensures AtOrBelow(first, c.id)
    ensures GrownFrom(At, first, Appended(stream, a, c), Min(|first|, dropped + c.trimmed))
  {
    var t := Transition(Format(c.id), a.source, KindOf(a.outcome), a);
    ParseFormat(c.id);
    NewAboveAll(first, id, t, c.id);
    GrownAppend(first, stream, dropped, t, c.trimmed);
  }

  // ---- a history as the states its stream goes through ----

  datatype StreamState = StreamState(stream: Log, lastId: Position)

  datatype Move = Move(attempt: Attempt, choice: Choice, accepted: bool)

  /** One step of the stream: an accepted attempt is appended, with whatever trimming the server chose. */
  ghost predicate Moved(s: StreamState, m: Move, s': StreamState) {
    if m.accepted then
      && Precedes(s.lastId, m.choice.id) && m.choice.trimmed <= |s.stream| + 1
      && s' == StreamState(Appended(s.stream, m.attempt, m.choice), m.choice.id)
    else s' == s
  }

  ghost predicate IsHistory(states: seq<StreamState>, moves: seq<Move>) {
    && |states| == |moves| + 1 && states[0] == StreamState([], Position(0, 0))
    && forall n :: 0 <= n < |moves| ==> Moved(states[n], moves[n], states[n + 1])
  }

  /** How many of the transitions in state `i` have expired by state `n`. */
  function Expired(states: seq<StreamState>, moves: seq<Move>, i: nat, n: nat): nat
    requires i < |states| && n <= |moves|
  {
    if n <= i then 0
    else
      var before := Expired(states, moves, i, n - 1);
      if moves[n - 1].accepted then Min(|states[i].stream|, before + moves[n - 1].choice.trimmed) else before
  }

  lemma {:induction false} StreamAscends(states: seq<StreamState>, moves: seq<Move>, n: nat)
    requires IsHistory(states, moves) && n <= |moves|
    ensures AtOrBelow(states[n].stream, states[n].lastId)
  {
    if n > 0 {
      StreamAscends(states, moves, n - 1);
      assert Moved(states[n - 1], moves[n - 1], states[n - 1 + 1]);
      if moves[n - 1].accepted {
        AppendAbove(states[n - 1].stream, states[n - 1].lastId, moves[n - 1].attempt, moves[n - 1].choice);
      }
    }
  }

  /** `now` is grown from `first`, and the identifiers have passed everything in `first`. */
  ghost predicate GrownBelow(first: Log, now: StreamState, dropped: nat) {
    AtOrBelow(first, now.lastId) && GrownFrom(At, first, now.stream, dropped)
  }

  lemma GrowthMove(first: Log, dropped: nat, s: StreamState, m: Move, s': StreamState)
    requires GrownBelow(first, s, dropped) && Moved(s, m, s')
    ensures GrownBelow(first, s', if m.accepted then Min(|first|, dropped + m.choice.trimmed) else dropped)
  {
    if m.accepted {
      GrowthStep(first, dropped, s.stream, s.lastId, m.attempt, m.choice);
    }
  }

  /** A later stream is the earlier one with its expired part missing and newer transitions appended. */
  lemma {:induction false} StreamGrows(states: seq<StreamState>, moves: seq<Move>, i: nat, n: nat)
    requires IsHistory(states, moves) && i <= n <= |moves|
    ensures GrownBelow(states[i].stream, states[n], Expired(states, moves, i, n))
  {
    if i == n {
      StreamAscends(states, moves, n);
    } else {
      StreamGrows(states, moves, i, n - 1);
      assert Moved(states[n - 1], moves[n - 1], states[n - 1 + 1]);
      GrowthMove(states[i].stream, Expired(states, moves, i, n - 1), states[n - 1], moves[n - 1], states[n]);
    }
  }

  /** The streams seen by requests made in states `cuts[0]`, `cuts[1]`, ... */
  function MomentsAt(states: seq<StreamState>, moves: seq<Move>, cuts: seq<nat>): (moments: seq<Moment<Transition>>)
    requires cuts != [] && |states| == |moves| + 1 && forall i :: 0 <= i < |cuts| ==> cuts[i] <= |moves|
    ensures |moments| == |cuts|
    ensures forall i :: 0 <= i < |cuts| ==>
              moments[i] == Moment(states[cuts[i]].stream, Expired(states, moves, cuts[0], cuts[i]))
  {
    seq(|cuts|, i requires 0 <= i < |cuts| => Moment(states[cuts[i]].stream, Expired(states, moves, cuts[0], cuts[i])))
  }

  lemma PagingSeesRetained(states: seq<StreamState>, moves: seq<Move>, cuts: seq<nat>, limit: nat, responses: seq<Response>)
    requires IsHistory(states, moves) && cuts != [] && 1 <= limit <= 100
    requires forall i :: 0 <= i < |cuts| ==> cuts[0] <= cuts[i] <= |moves|
    requires Session(MomentsAt(states, moves, cuts), None, limit, responses)
    ensures exists lo :: SeenDownTo(states[cuts[0]].stream, lo, MomentsAt(states, moves, cuts), Shown(responses))
    ensures forall i :: 0 <= i < |responses| ==> ValidResponse(responses[i])
  {
    var first, moments := states[cuts[0]].stream, MomentsAt(states, moves, cuts);
    forall i | 0 <= i < |cuts| ensures GrownFrom(At, first, moments[i].log, moments[i].dropped) {
      StreamGrows(states, moves, cuts[0], cuts[i]);
    }
    forall i | 0 <= i < |cuts| ensures Ascends(At, moments[i].log) {
      StreamAscends(states, moves, cuts[i]);
    }
    CursorSessionSeesAll(first, moments, limit, responses);
    SessionValid(moments, None, limit, responses);
  }

  // ---- the histories of server runs ----

  ghost function StateAfter(t: Trace, n: nat): StreamState
    requires Possible(t, n)
  {
    StreamState(ServerAfter(t, n).value.stream, ServerAfter(t, n).value.lastId)
  }

  ghost function MoveAt(t: Trace, n: nat): Move
    requires Possible(t, n) && n < |t.ops|
  {
    Move(t.ops[n].attempt, t.choices[n], ServerJudge(ServerAfter(t, n).value, t.ops[n]) == Accepted)
  }

  lemma TraceMove(t: Trace, n: nat)
    requires Possible(t, n + 1)
    ensures Possible(t, n) && Moved(StateAfter(t, n), MoveAt(t, n), StateAfter(t, n + 1))
  {
  }

  lemma AllPossible(t: Trace, n: nat)
    requires Possible(t, n)
    ensures forall i: nat :: i <= n ==> Possible(t, i)
  {
    forall i: nat | i <= n ensures Possible(t, i) {
      EarlierPossible(t, i, n);
    }
  }

  ghost function StatesOf(t: Trace, n: nat): (states: seq<StreamState>)
    requires Possible(t, n)
    ensures |states| == n + 1
  {
    AllPossible(t, n);
    seq(n + 1, i requires 0 <= i < n + 1 => StateAfter(t, i))
  }

  ghost function MovesOf(t: Trace, n: nat): (moves: seq<Move>)
    requires Possible(t, n)
    ensures |moves| == n
  {
    AllPossible(t, n);
    seq(n, i requires 0 <= i < n => MoveAt(t, i))
  }

  lemma TraceIsHistory(t: Trace, n: nat)
    requires Possible(t, n)
    ensures IsHistory(StatesOf(t, n), MovesOf(t, n))
  {
    AllPossible(t, n);
    forall i | 0 <= i < n ensures Moved(StatesOf(t, n)[i], MovesOf(t, n)[i], StatesOf(t, n)[i + 1]) {
      TraceMove(t, i);
    }
  }

  /**
   Paging through the Valkey history while polls go on and old entries expire: the client sees the
   history of its first request, newest first and each transition once, except for a tail that had
   expired by its last request; and every page passes the response contract.
   */
  lemma PagingSeesRetainedHistory(t: Trace, n: nat, cuts: seq<nat>, limit: nat, responses: seq<Response>)
    requires Possible(t, n) && cuts != [] && 1 <= limit <= 100
    requires forall i :: 0 <= i < |cuts| ==> cuts[0] <= cuts[i] <= n
    requires Session(MomentsAt(StatesOf(t, n), MovesOf(t, n), cuts), None, limit, responses)
    ensures exists lo ::
              SeenDownTo(StatesOf(t, n)[cuts[0]].stream, lo, MomentsAt(StatesOf(t, n), MovesOf(t, n), cuts), Shown(responses))
    ensures forall i :: 0 <= i < |responses| ==> ValidResponse(responses[i])
  {
    TraceIsHistory(t, n);
    PagingSeesRetained(StatesOf(t, n), MovesOf(t, n), cuts, limit, responses);
  }
}
