/** The transition history as stores answer it and as the HTTP endpoint pages it. */
module PollHistory {
  import opened Paging
  import opened SourcePoll
  import opened StreamId
  import opened Wrappers

  type Log = seq<Transition>

  function At(t: Transition): Option<Position> {
    Parse(t.streamId)
  }

  datatype HistoryError = LimitNotPositive | BadCursor

  function CursorPosition(before: Option<string>): Result<Option<Position>, HistoryError> {
    if before.None? then Success(None)
    else if Parse(before.value).None? then Failure(BadCursor)
    else Success(Parse(before.value))
  }

  /** What a store answers to `load_recent_transitions`. */
  function Answer(log: Log, before: Option<string>, limit: int): Result<Log, HistoryError> {
    if limit < 1 then Failure(LimitNotPositive)
    else
      match CursorPosition(before)
      case Failure(e) => Failure(e)
      case Success(position) => Success(Recent(At, log, |log|, position, limit))
  }

  datatype Response = Response(items: Log, nextCursor: Option<string>, hasMore: bool)

  /** The page made of what was found when one more than `limit` was asked for. */
  function Paged(found: Log, limit: nat): Response {
    var visible := if limit < |found| then found[..limit] else found;
    Response(visible, if visible == [] then None else Some(visible[|visible| - 1].streamId), |found| > limit)
  }

  /** The endpoint: one transition more than shown, cut to the page, with the oldest shown as cursor. */
  function Respond(log: Log, before: Option<string>, limit: nat): Result<Response, HistoryError> {
    match Answer(log, before, limit + 1)
    case Failure(e) => Failure(e)
    case Success(found) => Success(Paged(found, limit))
  }

  /** The checks of `validate_history`. */
  ghost predicate ValidResponse(r: Response) {
    && |r.items| <= 100
    && r.nextCursor == (if r.items == [] then None else Some(r.items[|r.items| - 1].streamId))
    && (r.hasMore ==> r.items != [])
    && (forall i, j :: 0 <= i < j < |r.items| ==> Older(At, r.items[j], r.items[i]))
  }

  // ---- each page is valid ----

  ghost predicate ReadsDown<T>(at: T -> Option<Position>, log: seq<T>, n: nat, items: seq<T>)
    requires n <= |log|
  {
    && (forall i :: 0 <= i < |items| ==> exists k :: 0 <= k < n && log[k] == items[i])
    && (forall i, j {:trigger Older(at, items[j], items[i])} :: 0 <= i < j < |items| ==> Older(at, items[j], items[i]))
  }

  lemma {:induction false} RecentReadsDown<T>(
    at: T -> Option<Position>, log: seq<T>, n: nat, before: Option<Position>, limit: nat)
    requires Ascends(at, log) && n <= |log|
    ensures ReadsDown(at, log, n, Recent(at, log, n, before, limit)) && |Recent(at, log, n, before, limit)| <= limit
  {
    if n > 0 && limit > 0 {
      if Visible(at, log[n - 1], before) {
        RecentReadsDown(at, log, n - 1, before, limit - 1);
        var rest := Recent(at, log, n - 1, before, limit - 1);
        forall j | 0 <= j < |rest| ensures Older(at, rest[j], log[n - 1]) {
          var k :| 0 <= k < n - 1 && log[k] == rest[j];
          assert Older(at, log[k], log[n - 1]);
        }
      } else {
        RecentReadsDown(at, log, n - 1, before, limit);
      }
    }
  }

  lemma PagedValid(log: Log, found: Log, limit: nat)
    requires ReadsDown(At, log, |log|, found) && |found| <= limit + 1 && 1 <= limit <= 100
    ensures ValidResponse(Paged(found, limit))
  {
    var items := Paged(found, limit).items;
    forall i, j | 0 <= i < j < |items| ensures Older(At, items[j], items[i]) {
      assert Older(At, found[j], found[i]);
    }
  }

  /** Every page of an ascending history passes the response contract. */
  lemma ResponseValid(log: Log, before: Option<string>, limit: nat)
    requires Ascends(At, log) && 1 <= limit <= 100
    ensures Respond(log, before, limit).Success? <==> CursorPosition(before).Success?
    ensures Respond(log, before, limit).Success? ==> ValidResponse(Respond(log, before, limit).value)
  {
    if CursorPosition(before).Success? {
      var found := Recent(At, log, |log|, CursorPosition(before).value, limit + 1);
      RecentReadsDown(At, log, |log|, CursorPosition(before).value, limit + 1);
      PagedValid(log, found, limit);
    }
  }

  // ---- following the cursor ----

  /** A client that repeats the request with the last cursor for as long as there is more. */
  ghost predicate Session(moments: seq<Moment<Transition>>, before: Option<string>, limit: nat, responses: seq<Response>)
    decreases |responses|
  {
    && |responses| == |moments| && responses != []
    && Respond(moments[0].log, before, limit) == Success(responses[0])
    && (if responses[0].hasMore then Session(moments[1..], responses[0].nextCursor, limit, responses[1..])
        else |responses| == 1)
  }

  function PagesOf(responses: seq<Response>): (pages: seq<Page<Transition>>)
    ensures |pages| == |responses|
  {
    if responses == [] then []
    else [Page(responses[0].items, responses[0].hasMore)] + PagesOf(responses[1..])
  }

  /** All transitions a client was shown, in order. */
  function Shown(responses: seq<Response>): Log {
    if responses == [] then [] else responses[0].items + Shown(responses[1..])
  }

  lemma {:induction false} ShownItems(responses: seq<Response>)
    ensures Items(PagesOf(responses)) == Shown(responses)
  {
    if responses != [] {
      ShownItems(responses[1..]);
      assert PagesOf(responses)[1..] == PagesOf(responses[1..]);
    }
  }

  /** The cursor that leads to position `j` of the first history. */
  ghost predicate LeadsTo(first: Log, before: Option<string>, j: nat) {
    if j >= |first| then j == |first| && before == None
    else before.Some? && Parse(before.value).Some? && Parse(before.value) == At(first[j])
  }

  lemma RespondIsPage(
    first: Log, s: Moment<Transition>, before: Option<string>, j: nat, limit: nat, r: Response)
    requires LeadsTo(first, before, j) && Respond(s.log, before, limit) == Success(r)
    requires j == |first| ==> s == Moment(first, 0)
    ensures Answers(At, first, s.log, s.dropped, j, limit, Page(r.items, r.hasMore))
    ensures r.nextCursor == if r.items == [] then None else Some(r.items[|r.items| - 1].streamId)
  {
  }

  /** Only the request without a cursor is made before anything was appended or expired. */
  ghost predicate StartsAt(first: Log, moments: seq<Moment<Transition>>, j: nat) {
    moments != [] && (j == |first| ==> moments[0] == Moment(first, 0))
  }

  lemma OwnIdLeads(first: Log, k: nat)
    requires Ascends(At, first) && k < |first|
    ensures LeadsTo(first, Some(first[k].streamId), k)
  {
    assert At(first[k]).Some?;
  }

  lemma LastShown(first: Log, k: nat, j: nat, items: Log)
    requires k < j <= |first| && items == Down(first, k, j)
    ensures items != [] && items[|items| - 1] == first[k]
  {
  }

  /** When there is more, the cursor of a response leads to the oldest transition it shows. */
  lemma CursorLeads(first: Log, s: Moment<Transition>, j: nat, limit: nat, r: Response)
    requires Ascends(At, first) && GrownFrom(At, first, s.log, s.dropped) && j <= |first| && limit >= 1
    requires Answers(At, first, s.log, s.dropped, j, limit, Page(r.items, r.hasMore)) && r.hasMore
    requires r.nextCursor == if r.items == [] then None else Some(r.items[|r.items| - 1].streamId)
    ensures Reached(j, s.dropped, limit) < |first|
    ensures Ends(At, Page(r.items, r.hasMore), first[Reached(j, s.dropped, limit)])
    ensures LeadsTo(first, r.nextCursor, Reached(j, s.dropped, limit))
  {
    PageShape(At, first, s.log, s.dropped, j, limit, Page(r.items, r.hasMore));
    LastShown(first, Reached(j, s.dropped, limit), j, r.items);
    OwnIdLeads(first, Reached(j, s.dropped, limit));
  }

  /** A session under way at position `j` of the first history. */
  ghost predicate Underway(
    first: Log, moments: seq<Moment<Transition>>, before: Option<string>, j: nat, limit: nat, responses: seq<Response>)
  {
    && AllGrown(At, first, moments) && j <= |first| && LeadsTo(first, before, j)
    && StartsAt(first, moments, j) && Session(moments, before, limit, responses)
  }

  lemma UnderwayPage(
    first: Log, moments: seq<Moment<Transition>>, before: Option<string>, j: nat, limit: nat, responses: seq<Response>)
    requires Ascends(At, first) && limit >= 1 && Underway(first, moments, before, j, limit, responses)
    ensures |responses| == |moments| && responses != []
    ensures var p := Page(responses[0].items, responses[0].hasMore);
            Answers(At, first, moments[0].log, moments[0].dropped, j, limit, p)
    ensures responses[0].nextCursor ==
            if responses[0].items == [] then None else Some(responses[0].items[|responses[0].items| - 1].streamId)
    ensures responses[0].hasMore ==> Session(moments[1..], responses[0].nextCursor, limit, responses[1..])
  {
    RespondIsPage(first, moments[0], before, j, limit, responses[0]);
  }

  lemma UnderwayNext(
    first: Log, moments: seq<Moment<Transition>>, before: Option<string>, j: nat, limit: nat, responses: seq<Response>,
    k: nat)
    requires Ascends(At, first) && limit >= 1 && Underway(first, moments, before, j, limit, responses)
    requires responses[0].hasMore && k == Reached(j, moments[0].dropped, limit)
    ensures k < |first| && Ends(At, Page(responses[0].items, responses[0].hasMore), first[k])
    ensures Underway(first, moments[1..], responses[0].nextCursor, k, limit, responses[1..])
  {
    UnderwayPage(first, moments, before, j, limit, responses);
    GrownTail(At, first, moments);
    CursorLeads(first, moments[0], j, limit, responses[0]);
  }

  lemma {:induction false} SessionIsWalk(
    first: Log, moments: seq<Moment<Transition>>, before: Option<string>, j: nat, limit: nat, responses: seq<Response>)
    requires Ascends(At, first) && limit >= 1 && Underway(first, moments, before, j, limit, responses)
    ensures Walk(At, first, moments, j, limit, PagesOf(responses))
    decreases |responses|
  {
    UnderwayPage(first, moments, before, j, limit, responses);
    var pages := PagesOf(responses);
    if responses[0].hasMore {
      var k := Reached(j, moments[0].dropped, limit);
      UnderwayNext(first, moments, before, j, limit, responses, k);
      SessionIsWalk(first, moments[1..], responses[0].nextCursor, k, limit, responses[1..]);
      assert pages[1..] == PagesOf(responses[1..]);
      WalkContinues(At, first, moments, j, limit, pages, k);
    } else {
      WalkEnds(At, first, moments, j, limit, pages);
    }
  }

  /** What is left unseen at the end of a session had expired by its last request. */
  ghost predicate SeenDownTo(first: Log, lo: nat, moments: seq<Moment<Transition>>, seen: Log)
    requires moments != []
  {
    lo <= |first| && lo <= moments[|moments| - 1].dropped && seen == Down(first, lo, |first|)
  }

  /**
   A client that starts without a cursor and follows cursors until there is no more sees the history
   of its first request, newest first and each transition once, whatever is appended meanwhile; it
   can miss only what expired before its last request.
   */
  lemma CursorSessionSeesAll(first: Log, moments: seq<Moment<Transition>>, limit: nat, responses: seq<Response>)
    requires Ascends(At, first) && AllGrown(At, first, moments) && limit >= 1
    requires moments != [] && moments[0] == Moment(first, 0) && Session(moments, None, limit, responses)
    ensures exists lo :: SeenDownTo(first, lo, moments, Shown(responses))
    ensures moments[|moments| - 1].dropped == 0 ==> Shown(responses) == Down(first, 0, |first|)
  {
    SessionIsWalk(first, moments, None, |first|, limit, responses);
    WalkShowsFirstLog(At, first, moments, limit, PagesOf(responses));
    ShownItems(responses);
    var lo :| Shows(first, |first|, lo, moments, PagesOf(responses));
    assert SeenDownTo(first, lo, moments, Shown(responses));
  }

  /** Every page of a session passes the response contract. */
  lemma {:induction false} SessionValid(
    moments: seq<Moment<Transition>>, before: Option<string>, limit: nat, responses: seq<Response>)
    requires (forall i :: 0 <= i < |moments| ==> Ascends(At, moments[i].log)) && 1 <= limit <= 100
    requires Session(moments, before, limit, responses)
    ensures forall i :: 0 <= i < |responses| ==> ValidResponse(responses[i])
    decreases |responses|
  {
    ResponseValid(moments[0].log, before, limit);
    if responses[0].hasMore {
      SessionValid(moments[1..], responses[0].nextCursor, limit, responses[1..]);
      assert responses == [responses[0]] + responses[1..];
    }
  }

  // ---- any cursor ----

  /** The first `m` entries are below the cursor, the others are not. */
  ghost predicate CutAt(log: Log, before: Option<Position>, m: nat) {
    && m <= |log| && (forall k :: 0 <= k < m ==> Visible(At, log[k], before))
    && (forall k :: m <= k < |log| ==> !Visible(At, log[k], before))
  }

  lemma {:induction false} CutExists(log: Log, before: Option<Position>) returns (m: nat)
    requires Ascends(At, log)
    ensures CutAt(log, before, m)
  {
    if log == [] {
      m := 0;
    } else {
      var n := |log| - 1;
      if Visible(At, log[n], before) {
        m := |log|;
        forall k | 0 <= k < n ensures Visible(At, log[k], before) {
          assert Older(At, log[k], log[n]);
        }
      } else {
        m := CutExists(log[..n], before);
        assert forall k :: 0 <= k < n ==> log[..n][k] == log[k];
      }
    }
  }

  /** For every cursor a store answers with the newest transitions below it, as many as asked for, newest first. */
  lemma AnswerMeaning(log: Log, before: Option<string>, limit: nat) returns (m: nat)
    requires Ascends(At, log) && limit >= 1 && (before.Some? ==> Parse(before.value).Some?)
    ensures CutAt(log, if before.None? then None else Parse(before.value), m)
    ensures Answer(log, before, limit) == Success(Down(log, if limit < m then m - limit else 0, m))
  {
    var position := if before.None? then None else Parse(before.value);
    m := CutExists(log, position);
    SkipHidden(At, log, m, |log|, position, limit);
    AllVisible(At, log, m, position, limit);
  }
}
