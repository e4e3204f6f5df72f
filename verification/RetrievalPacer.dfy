/**
 Pacing of capture requests against the retrieval API: it waits as long as responses say, within bounds
 for each wait and for all of them together, and retries a refused request a bounded number of times.
 */
module RetrievalPacer {
  import opened Sequences
  import opened StreamId
  import opened Wrappers

  const MAX_RETRIES := 3
  const MAX_WAIT := 300
  const MAX_TOTAL_WAIT := 900
  const TOO_MANY_REQUESTS := 429

  /** What the pacer reads of a response: its status and three headers. */
  datatype Response = Response(
    status: int, retryAfter: Option<string>, remaining: Option<string>, resetAfter: Option<string>)

  /** What comes of one request. */
  datatype Answer = Reply(response: Response) | Broken

  datatype PacerError =
    | InvalidHeader | WaitOutOfRange | IncompleteHeaders | TotalExceeded | StillLimited | ConnectionLost

  /** `_rate_limit_wait_seconds` */
  function WaitSeconds(header: Option<string>): (r: Result<nat, PacerError>)
    ensures r.Success? ==> 1 <= r.value <= MAX_WAIT
  {
    if header.None? || !AllDigits(header.value) then Failure(InvalidHeader)
    else if !(1 <= Value(header.value) <= MAX_WAIT) then Failure(WaitOutOfRange)
    else Success(Value(header.value))
  }

  /** `_next_window_wait` */
  function NextWindowWait(r: Response): (wait: Result<Option<nat>, PacerError>)
    ensures wait.Success? && wait.value.Some? ==> 1 <= wait.value.value <= MAX_WAIT
  {
    if r.remaining.None? && r.resetAfter.None? then Success(None)
    else if r.remaining.None? || r.resetAfter.None? then Failure(IncompleteHeaders)
    else if !AllDigits(r.remaining.value) then Failure(InvalidHeader)
    else if Value(r.remaining.value) > 0 then Success(None)
    else
      match WaitSeconds(r.resetAfter)
      case Failure(e) => Failure(e)
      case Success(seconds) => Success(Some(seconds))
  }

  predicate Succeeded(r: Response) {
    200 <= r.status < 300
  }

  /** What the pacer does, as an observer sees it. */
  datatype Event = Waited(seconds: nat) | Asked(answer: Answer)

  datatype Pacer = Pacer(pending: Option<nat>, total: nat, trace: seq<Event>)

  function Note(p: Pacer, e: Event): Pacer {
    p.(trace := p.trace + [e])
  }

  /** `_wait`, when it does not refuse. */
  function AfterWait(p: Pacer, seconds: nat): Pacer {
    Note(p.(total := p.total + seconds), Waited(seconds))
  }

  /** The requests of `get` from the given attempt on; `answers` is what each would get. */
  function Request(p: Pacer, answers: seq<Answer>, attempt: nat): (Pacer, Result<Response, PacerError>)
    requires |answers| == MAX_RETRIES + 1 && 1 <= attempt <= MAX_RETRIES + 1
    decreases MAX_RETRIES + 1 - attempt
  {
    var answer := answers[attempt - 1];
    var asked := Note(p, Asked(answer));
    if answer.Broken? then (asked, Failure(ConnectionLost))
    else
      var r := answer.response;
      if r.status != TOO_MANY_REQUESTS then
        if !Succeeded(r) then (asked, Success(r))
        else
          match NextWindowWait(r)
          case Failure(e) => (asked, Failure(e))
          case Success(wait) => (asked.(pending := wait), Success(r))
      else if attempt > MAX_RETRIES then (asked, Failure(StillLimited))
      else
        match WaitSeconds(r.retryAfter)
        case Failure(e) => (asked, Failure(e))
        case Success(seconds) =>
          if asked.total + seconds > MAX_TOTAL_WAIT then (asked, Failure(TotalExceeded))
          else Request(AfterWait(asked, seconds), answers, attempt + 1)
  }

  function Get(p: Pacer, answers: seq<Answer>): (Pacer, Result<Response, PacerError>)
    requires |answers| == MAX_RETRIES + 1
  {
    var cleared := p.(pending := None);
    if p.pending.None? then Request(cleared, answers, 1)
    else if p.total + p.pending.value > MAX_TOTAL_WAIT then (cleared, Failure(TotalExceeded))
    else Request(AfterWait(cleared, p.pending.value), answers, 1)
  }

  class RetrievalApiPacer {
    var pendingWaitSeconds: Option<nat>
    var totalWaitSeconds: nat
    ghost var trace: seq<Event>

    ghost function Contents(): Pacer
      reads this
    {
      Pacer(pendingWaitSeconds, totalWaitSeconds, trace)
    }

    constructor ()
      ensures Contents() == Pacer(None, 0, [])
    {
      pendingWaitSeconds, totalWaitSeconds, trace := None, 0, [];
    }

    method Wait(seconds: nat) returns (refused: bool)
      modifies this
      ensures refused <==> old(totalWaitSeconds) + seconds > MAX_TOTAL_WAIT
      ensures Contents() == if refused then old(Contents()) else AfterWait(old(Contents()), seconds)
    {
      if totalWaitSeconds + seconds > MAX_TOTAL_WAIT {
        return true;
      }
      trace := trace + [Waited(seconds)];
      totalWaitSeconds := totalWaitSeconds + seconds;
      refused := false;
    }

    method Fetch(answers: seq<Answer>) returns (r: Result<Response, PacerError>)
      requires |answers| == MAX_RETRIES + 1
      modifies this
      ensures (Contents(), r) == Get(old(Contents()), answers)
    {
      if pendingWaitSeconds.Some? {
        var pending := pendingWaitSeconds.value;
        pendingWaitSeconds := None;
        var refused := Wait(pending);
        if refused {
          return Failure(TotalExceeded);
        }
      }
      var attempt := 1;
      while true
        invariant 1 <= attempt <= MAX_RETRIES + 1
        invariant Get(old(Contents()), answers) == Request(Contents(), answers, attempt)
        decreases MAX_RETRIES + 1 - attempt
      {
        var answer := answers[attempt - 1];
        trace := trace + [Asked(answer)];
        if answer.Broken? {
          return Failure(ConnectionLost);
        }
        var response := answer.response;
        if response.status != TOO_MANY_REQUESTS {
          if Succeeded(response) {
            var wait := NextWindowWait(response);
            if wait.Failure? {
              return Failure(wait.error);
            }
            pendingWaitSeconds := wait.value;
          }
          return Success(response);
        }
        if attempt > MAX_RETRIES {
          return Failure(StillLimited);
        }
        var seconds := WaitSeconds(response.retryAfter);
        if seconds.Failure? {
          return Failure(seconds.error);
        }
        var refused := Wait(seconds.value);
        if refused {
          return Failure(TotalExceeded);
        }
        attempt := attempt + 1;
      }
    }
  }

  // ---- what one call does ----

  /** The wait a response asks for before the next request. */
  function Announced(e: Event): Option<nat> {
    if e.Waited? || e.answer.Broken? then None
    else
      var r := e.answer.response;
      if r.status == TOO_MANY_REQUESTS then
        if WaitSeconds(r.retryAfter).Success? then Some(WaitSeconds(r.retryAfter).value) else None
      else if Succeeded(r) && NextWindowWait(r).Success? then NextWindowWait(r).value
      else None
  }

  function WaitOf(e: Event): Option<nat> {
    if e.Waited? then Some(e.seconds) else None
  }

  /** The pacer waits at `i` exactly as the event before asks. */
  predicate Heeds(trace: seq<Event>, i: nat)
    requires 0 < i < |trace|
  {
    WaitOf(trace[i]) == Announced(trace[i - 1])
  }

  predicate Extends(before: seq<Event>, after: seq<Event>) {
    before <= after && forall i {:trigger Heeds(after, i)} :: |before| < i < |after| ==> Heeds(after, i)
  }

  lemma ExtendsFurther(before: seq<Event>, middle: seq<Event>, after: seq<Event>)
    requires Extends(before, middle) && Extends(middle, after)
    requires |before| < |middle| < |after| ==> Heeds(after, |middle|)
    ensures Extends(before, after)
  {
    forall i | |before| < i < |after| ensures Heeds(after, i) {
      if i < |middle| {
        assert Heeds(middle, i);
      }
    }
  }

  /** What a call has done from some request on. */
  ghost predicate Heedful(before: seq<Event>, after: Pacer, r: Result<Response, PacerError>) {
    && Extends(before, after.trace) && |before| < |after.trace| && after.trace[|before|].Asked?
    && after.pending == if r.Success? then Announced(after.trace[|after.trace| - 1]) else None
  }

  lemma RetryHeeds(p: Pacer, answer: Answer, seconds: nat, after: Pacer, r: Result<Response, PacerError>)
    requires Announced(Asked(answer)) == Some(seconds)
    requires Heedful(p.trace + [Asked(answer), Waited(seconds)], after, r)
    ensures Heedful(p.trace, after, r)
  {
    var middle := p.trace + [Asked(answer), Waited(seconds)];
    assert Heeds(middle, |p.trace| + 1);
    assert Announced(Waited(seconds)) == None;
    ExtendsFurther(p.trace, middle, after.trace);
  }

  lemma RequestHeeds(p: Pacer, answers: seq<Answer>, attempt: nat)
    requires |answers| == MAX_RETRIES + 1 && 1 <= attempt <= MAX_RETRIES + 1 && p.pending.None?
    ensures var (after, r) := Request(p, answers, attempt); Heedful(p.trace, after, r)
    decreases MAX_RETRIES + 1 - attempt
  {
    var answer := answers[attempt - 1];
    var asked := Note(p, Asked(answer));
    if answer.Reply? && answer.response.status == TOO_MANY_REQUESTS && attempt <= MAX_RETRIES {
      var wait := WaitSeconds(answer.response.retryAfter);
      if wait.Success? && asked.total + wait.value <= MAX_TOTAL_WAIT {
        var waited := AfterWait(asked, wait.value);
        assert waited.trace == p.trace + [Asked(answer), Waited(wait.value)];
        RequestHeeds(waited, answers, attempt + 1);
        var (after, r) := Request(waited, answers, attempt + 1);
        RetryHeeds(p, answer, wait.value, after, r);
      }
    }
  }

  /** A call waits first if a wait is due, and heeds each of its own responses. */
  lemma GetHeeds(p: Pacer, answers: seq<Answer>)
    requires |answers| == MAX_RETRIES + 1
    ensures var (after, r) := Get(p, answers);
            && Extends(p.trace, after.trace)
            && (|p.trace| < |after.trace| ==> WaitOf(after.trace[|p.trace|]) == p.pending)
            && (r.Success? ==> |p.trace| < |after.trace|)
            && after.pending == if r.Success? then Announced(after.trace[|after.trace| - 1]) else None
  {
    var cleared := p.(pending := None);
    if p.pending.None? {
      RequestHeeds(cleared, answers, 1);
    } else if p.total + p.pending.value <= MAX_TOTAL_WAIT {
      var waited := AfterWait(cleared, p.pending.value);
      RequestHeeds(waited, answers, 1);
      ExtendsFurther(p.trace, waited.trace, Request(waited, answers, 1).0.trace);
    }
  }

  // ---- bounds ----

  function Slept(trace: seq<Event>): nat {
    if trace == [] then 0
    else
      var last := trace[|trace| - 1];
      Slept(trace[..|trace| - 1]) + if last.Waited? then last.seconds else 0
  }

  function Requests(trace: seq<Event>): nat {
    if trace == [] then 0
    else Requests(trace[..|trace| - 1]) + if trace[|trace| - 1].Asked? then 1 else 0
  }

  lemma CountNext(trace: seq<Event>, e: Event)
    ensures Slept(trace + [e]) == Slept(trace) + if e.Waited? then e.seconds else 0
    ensures Requests(trace + [e]) == Requests(trace) + if e.Asked? then 1 else 0
  {
    assert (trace + [e])[..|trace|] == trace;
  }

  ghost predicate WaitsBounded(trace: seq<Event>) {
    forall e :: e in trace && e.Waited? ==> 1 <= e.seconds <= MAX_WAIT
  }

  /** The total is what was slept, and within its bound; so is every single wait. */
  ghost predicate Budgeted(p: Pacer) {
    && p.total == Slept(p.trace) <= MAX_TOTAL_WAIT && WaitsBounded(p.trace)
    && (p.pending.Some? ==> 1 <= p.pending.value <= MAX_WAIT)
  }

  lemma AskKeepsBudget(p: Pacer, answer: Answer)
    requires Budgeted(p)
    ensures Budgeted(Note(p, Asked(answer))) && Requests(Note(p, Asked(answer)).trace) == Requests(p.trace) + 1
  {
    CountNext(p.trace, Asked(answer));
  }

  lemma WaitKeepsBudget(p: Pacer, seconds: nat)
    requires Budgeted(p) && 1 <= seconds <= MAX_WAIT && p.total + seconds <= MAX_TOTAL_WAIT
    ensures Budgeted(AfterWait(p, seconds)) && Requests(AfterWait(p, seconds).trace) == Requests(p.trace)
  {
    CountNext(p.trace, Waited(seconds));
  }

  lemma RetryKeepsBudget(p: Pacer, answer: Answer, seconds: nat)
    requires Budgeted(p) && 1 <= seconds <= MAX_WAIT && p.total + seconds <= MAX_TOTAL_WAIT
    ensures var retried := AfterWait(Note(p, Asked(answer)), seconds);
            Budgeted(retried) && Requests(retried.trace) == Requests(p.trace) + 1
  {
    AskKeepsBudget(p, answer);
    WaitKeepsBudget(Note(p, Asked(answer)), seconds);
  }

  /** Keeps the budget, with at most this many more requests. */
  ghost predicate Within(p: Pacer, after: Pacer, requests: nat) {
    Budgeted(after) && Requests(after.trace) <= Requests(p.trace) + requests
  }

  /** The attempt is refused and may be repeated after a wait. */
  predicate Retries(p: Pacer, answer: Answer, attempt: nat) {
    && answer.Reply? && answer.response.status == TOO_MANY_REQUESTS && attempt <= MAX_RETRIES
    && WaitSeconds(answer.response.retryAfter).Success?
    && p.total + WaitSeconds(answer.response.retryAfter).value <= MAX_TOTAL_WAIT
  }

  lemma LastRequestBudget(p: Pacer, answers: seq<Answer>, attempt: nat)
    requires |answers| == MAX_RETRIES + 1 && 1 <= attempt <= MAX_RETRIES + 1 && Budgeted(p)
    requires !Retries(p, answers[attempt - 1], attempt)
    ensures Within(p, Request(p, answers, attempt).0, 1)
  {
    AskKeepsBudget(p, answers[attempt - 1]);
  }

  lemma RequestBudget(p: Pacer, answers: seq<Answer>, attempt: nat)
    requires |answers| == MAX_RETRIES + 1 && 1 <= attempt <= MAX_RETRIES + 1 && Budgeted(p)
    ensures Within(p, Request(p, answers, attempt).0, MAX_RETRIES + 2 - attempt)
    decreases MAX_RETRIES + 1 - attempt
  {
    var answer := answers[attempt - 1];
    if Retries(p, answer, attempt) {
      var seconds := WaitSeconds(answer.response.retryAfter).value;
      RetryKeepsBudget(p, answer, seconds);
      RequestBudget(AfterWait(Note(p, Asked(answer)), seconds), answers, attempt + 1);
    } else {
      LastRequestBudget(p, answers, attempt);
    }
  }

  /** A call makes at most four requests, and keeps the wait budget. */
  lemma GetBudget(p: Pacer, answers: seq<Answer>)
    requires |answers| == MAX_RETRIES + 1 && Budgeted(p)
    ensures Within(p, Get(p, answers).0, MAX_RETRIES + 1)
  {
    var cleared := p.(pending := None);
    if p.pending.None? {
      RequestBudget(cleared, answers, 1);
    } else if p.total + p.pending.value <= MAX_TOTAL_WAIT {
      WaitKeepsBudget(cleared, p.pending.value);
      RequestBudget(AfterWait(cleared, p.pending.value), answers, 1);
    }
  }

  // ---- runs of calls ----

  ghost predicate IsRun(calls: seq<seq<Answer>>) {
    forall k :: 0 <= k < |calls| ==> |calls[k]| == MAX_RETRIES + 1
  }

  ghost function Run(calls: seq<seq<Answer>>): Pacer
    requires IsRun(calls)
  {
    if calls == [] then Pacer(None, 0, [])
    else Get(Run(calls[..|calls| - 1]), calls[|calls| - 1]).0
  }

  /** What the last call returned. */
  ghost function Returned(calls: seq<seq<Answer>>): Result<Response, PacerError>
    requires IsRun(calls) && calls != []
  {
    Get(Run(calls[..|calls| - 1]), calls[|calls| - 1]).1
  }

  /** Over every run of calls: at most 900 seconds of waiting in all, at most four requests a call. */
  lemma {:induction false} RunBudget(calls: seq<seq<Answer>>)
    requires IsRun(calls)
    ensures Budgeted(Run(calls)) && Requests(Run(calls).trace) <= (MAX_RETRIES + 1) * |calls|
  {
    if calls != [] {
      RunBudget(calls[..|calls| - 1]);
      GetBudget(Run(calls[..|calls| - 1]), calls[|calls| - 1]);
    }
  }

  lemma {:induction false} RunPending(calls: seq<seq<Answer>>)
    requires IsRun(calls)
    ensures var p := Run(calls);
            if calls == [] || Returned(calls).Failure? then p.pending.None?
            else p.trace != [] && p.pending == Announced(p.trace[|p.trace| - 1])
  {
    if calls != [] {
      GetHeeds(Run(calls[..|calls| - 1]), calls[|calls| - 1]);
    }
  }

  lemma {:induction false} RunGrows(calls: seq<seq<Answer>>, k: nat)
    requires IsRun(calls) && k <= |calls|
    ensures Run(calls[..k]).trace <= Run(calls).trace
    ensures k < |calls| && Returned(calls).Success? ==> |Run(calls[..k]).trace| < |Run(calls).trace|
  {
    if k == |calls| {
      assert calls[..k] == calls;
    } else {
      var before := calls[..|calls| - 1];
      RunGrows(before, k);
      assert before[..k] == calls[..k];
      GetHeeds(Run(before), calls[|calls| - 1]);
    }
  }

  /** The event at `i` is the first since a call that failed. */
  ghost predicate AfterFailure(calls: seq<seq<Answer>>, i: nat)
    requires IsRun(calls)
  {
    exists k :: 0 < k < |calls| && Returned(calls[..k]).Failure? && |Run(calls[..k]).trace| == i
  }

  lemma AfterFailurePrefix(calls: seq<seq<Answer>>, i: nat)
    requires IsRun(calls) && calls != []
    ensures var before := calls[..|calls| - 1];
            AfterFailure(calls, i) <==>
              AfterFailure(before, i) || (before != [] && Returned(before).Failure? && |Run(before).trace| == i)
  {
    var before := calls[..|calls| - 1];
    TakeAll(before);
    forall k {:trigger before[..k]} {:trigger calls[..k]} | 0 <= k <= |before| ensures before[..k] == calls[..k] {
      TakeTwice(calls, |before|, k);
    }
  }

  lemma {:induction false} AsksAfterFailure(calls: seq<seq<Answer>>, i: nat)
    requires IsRun(calls) && 0 < i < |Run(calls).trace|
    ensures if AfterFailure(calls, i) then Run(calls).trace[i].Asked? else Heeds(Run(calls).trace, i)
  {
    var before := calls[..|calls| - 1];
    var p := Run(before);
    GetHeeds(p, calls[|calls| - 1]);
    AfterFailurePrefix(calls, i);
    if i < |p.trace| {
      AsksAfterFailure(before, i);
      assert Heeds(p.trace, i) ==> Heeds(Run(calls).trace, i);
    } else {
      NotAfterFailure(before, i);
      RunPending(before);
    }
  }

  /** Beyond the trace there is no first event after an earlier failure, unless the last call failed. */
  lemma NotAfterFailure(calls: seq<seq<Answer>>, i: nat)
    requires IsRun(calls) && i >= |Run(calls).trace|
    ensures calls != [] && Returned(calls).Success? ==> !AfterFailure(calls, i)
    ensures i > |Run(calls).trace| ==> !AfterFailure(calls, i)
  {
    forall k | 0 < k < |calls|
      ensures |Run(calls[..k]).trace| <= |Run(calls).trace|
      ensures Returned(calls).Success? ==> |Run(calls[..k]).trace| < |Run(calls).trace|
    {
      RunGrows(calls, k);
    }
  }

  /**
   The pacer waits exactly when and as long as the response before told it to, except that a call that
   fails forgets: the first event after it is a request, and a wait announced before it is not observed.
   */
  lemma WaitsAsTold(calls: seq<seq<Answer>>, i: nat)
    requires IsRun(calls) && 0 < i < |Run(calls).trace|
    ensures AfterFailure(calls, i) ==> Run(calls).trace[i].Asked?
    ensures Heeds(Run(calls).trace, i) <==> !(AfterFailure(calls, i) && Announced(Run(calls).trace[i - 1]).Some?)
  {
    AsksAfterFailure(calls, i);
  }

  lemma RefusedThrough(p: Pacer, answers: seq<Answer>, refusal: Answer, seconds: nat, attempt: nat)
    requires |answers| == MAX_RETRIES + 1 && 1 <= attempt <= MAX_RETRIES + 1
    requires (forall k :: 0 <= k < |answers| ==> answers[k] == refusal)
    requires refusal.Reply? && refusal.response.status == TOO_MANY_REQUESTS
    requires WaitSeconds(refusal.response.retryAfter) == Success(seconds)
    requires p.total + (MAX_RETRIES + 1 - attempt) * seconds <= MAX_TOTAL_WAIT
    ensures var (after, r) := Request(p, answers, attempt);
            && r == Failure(StillLimited) && after.pending == p.pending
            && after.total == p.total + (MAX_RETRIES + 1 - attempt) * seconds
            && |after.trace| == |p.trace| + 2 * (MAX_RETRIES + 1 - attempt) + 1
            && after.trace[|after.trace| - 1] == Asked(refusal)
    decreases MAX_RETRIES + 1 - attempt
  {
    if attempt <= MAX_RETRIES {
      RefusedThrough(AfterWait(Note(p, Asked(refusal)), seconds), answers, refusal, seconds, attempt + 1);
    }
  }

  /** Two calls refused throughout: the first gives up on a refusal, and the second asks again at once. */
  lemma ForgottenWaitExample()
    ensures exists calls, i ::
              && IsRun(calls) && 0 < i < |Run(calls).trace|
              && Announced(Run(calls).trace[i - 1]).Some? && !Heeds(Run(calls).trace, i)
  {
    var refusal := Reply(Response(TOO_MANY_REQUESTS, Some("3"), None, None));
    var answers := [refusal, refusal, refusal, refusal];
    var none: seq<seq<Answer>>, once, twice := [], [answers], [answers, answers];
    assert Value("3") == 3 by {
      assert Value("") == 0 && "3"[..0] == "";
    }
    assert once[..0] == none && twice[..1] == once;
    RefusedThrough(Run(none), answers, refusal, 3, 1);
    assert Run(once) == Get(Run(none), answers).0 == Request(Run(none), answers, 1).0;
    RefusedThrough(Run(once), answers, refusal, 3, 1);
    assert Run(twice) == Get(Run(once), answers).0;
    RunGrows(twice, 1);
    assert Returned(once).Failure? && |Run(once).trace| == 7;
    assert AfterFailure(twice, 7);
    WaitsAsTold(twice, 7);
    assert Run(twice).trace[6] == Run(once).trace[6];
    assert Announced(Run(twice).trace[6]) == Some(3);
  }

  // ---- what a call returns ----

  /** The header says to wait this many seconds. */
  predicate Says(header: Option<string>, seconds: nat) {
    header.Some? && AllDigits(header.value) && Value(header.value) == seconds && 1 <= seconds <= 300
  }

  /** The header is missing, not a number, or out of range. */
  ghost predicate SaysNothing(header: Option<string>) {
    forall seconds: nat :: !Says(header, seconds)
  }

  /** A refusal asks for the wait it names; a success with nothing remaining, for the wait until the window resets. */
  lemma AnnouncedExactly(r: Response, seconds: nat)
    ensures Announced(Asked(Reply(r))) == Some(seconds) <==>
              || (r.status == 429 && Says(r.retryAfter, seconds))
              || (200 <= r.status < 300 && r.remaining.Some? && AllDigits(r.remaining.value) && Value(r.remaining.value) == 0
                  && Says(r.resetAfter, seconds))
  {
  }

  /** The headers of a success contradict each other or cannot be read. */
  ghost predicate HeadersBad(r: Response) {
    || r.remaining.Some? != r.resetAfter.Some?
    || (r.remaining.Some? && !AllDigits(r.remaining.value))
    || (r.remaining.Some? && AllDigits(r.remaining.value) && Value(r.remaining.value) == 0
        && SaysNothing(r.resetAfter))
  }

  predicate Refuses(answer: Answer) {
    answer.Reply? && answer.response.status == 429
  }

  /** The seconds of the waits between the first `n` requests. */
  function Waits(answers: seq<Answer>, n: nat): nat
    requires n <= |answers|
  {
    if n == 0 then 0
    else
      Waits(answers, n - 1)
      + if Refuses(answers[n - 1]) && WaitSeconds(answers[n - 1].response.retryAfter).Success?
        then WaitSeconds(answers[n - 1].response.retryAfter).value else 0
  }

  /** The first `n` requests were each refused with a wait that the total allows. */
  ghost predicate RefusedUpTo(answers: seq<Answer>, total: nat, n: nat)
    requires n <= |answers|
  {
    forall k :: 0 <= k < n ==> RefusedAt(answers, total, k)
  }

  ghost predicate RefusedAt(answers: seq<Answer>, total: nat, k: nat)
    requires k < |answers|
  {
    Refuses(answers[k]) && !SaysNothing(answers[k].response.retryAfter) && total + Waits(answers, k + 1) <= 900
  }

  /** What the call returns when request `k` is its last, after waits that bring the total to `total`. */
  ghost predicate EndsWith(answers: seq<Answer>, total: nat, k: nat, result: Result<Response, PacerError>)
    requires k < |answers|
  {
    match answers[k]
    case Broken => result == Failure(ConnectionLost)
    case Reply(r) =>
      if r.status == 429 then
        if k == 3 then result == Failure(StillLimited)
        else if SaysNothing(r.retryAfter) then result.Failure? && result.error in {InvalidHeader, WaitOutOfRange}
        else result == Failure(TotalExceeded) && total + Waits(answers, k + 1) > 900
      else if 200 <= r.status < 300 && HeadersBad(r) then
        result.Failure? && result.error in {InvalidHeader, WaitOutOfRange, IncompleteHeaders}
      else result == Success(r)
  }

  lemma SaysExactly(header: Option<string>, seconds: nat)
    ensures WaitSeconds(header) == Success(seconds) <==> Says(header, seconds)
  {
  }

  lemma SaysSome(header: Option<string>)
    ensures WaitSeconds(header).Success? <==> !SaysNothing(header)
    ensures WaitSeconds(header).Failure? ==> WaitSeconds(header).error in {InvalidHeader, WaitOutOfRange}
  {
    if WaitSeconds(header).Success? {
      SaysExactly(header, WaitSeconds(header).value);
    }
  }

  lemma HeadersExactly(r: Response)
    ensures NextWindowWait(r).Failure? <==> HeadersBad(r)
    ensures NextWindowWait(r).Failure? ==> NextWindowWait(r).error in {InvalidHeader, WaitOutOfRange, IncompleteHeaders}
  {
    SaysSome(r.resetAfter);
  }

  lemma RequestEnds(p: Pacer, answers: seq<Answer>, total: nat, attempt: nat) returns (k: nat)
    requires |answers| == MAX_RETRIES + 1 && 1 <= attempt <= MAX_RETRIES + 1
    requires p.total == total + Waits(answers, attempt - 1) && RefusedUpTo(answers, total, attempt - 1)
    ensures attempt - 1 <= k < |answers| && RefusedUpTo(answers, total, k)
    ensures EndsWith(answers, total, k, Request(p, answers, attempt).1)
    decreases MAX_RETRIES + 1 - attempt
  {
    var answer := answers[attempt - 1];
    k := attempt - 1;
    if answer.Reply? {
      SaysSome(answer.response.retryAfter);
      HeadersExactly(answer.response);
      if Retries(p, answer, attempt) {
        var seconds := WaitSeconds(answer.response.retryAfter).value;
        assert RefusedAt(answers, total, attempt - 1);
        k := RequestEnds(AfterWait(Note(p, Asked(answer)), seconds), answers, total, attempt + 1);
      }
    }
  }

  /**
   What a call returns: it is refused at once when the wait due exceeds the total; otherwise it goes on over
   refusals it may wait for, and the first other answer, or the fourth refusal, decides.
   */
  lemma GetReturns(p: Pacer, answers: seq<Answer>) returns (k: nat)
    requires |answers| == MAX_RETRIES + 1
    ensures var due, result := if p.pending.Some? then p.pending.value else 0, Get(p, answers).1;
            if p.pending.Some? && p.total + due > 900 then result == Failure(TotalExceeded)
            else k < 4 && RefusedUpTo(answers, p.total + due, k) && EndsWith(answers, p.total + due, k, result)
  {
    var due := if p.pending.Some? then p.pending.value else 0;
    k := 0;
    if p.pending.None? {
      k := RequestEnds(p.(pending := None), answers, p.total, 1);
    } else if p.total + due <= MAX_TOTAL_WAIT {
      k := RequestEnds(AfterWait(p.(pending := None), due), answers, p.total + due, 1);
    }
  }
}
