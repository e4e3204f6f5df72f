/**
 Newest-first pages over an append-only log whose oldest entries may expire, followed by cursor.
 Entries have positions; `at` reads them.
 */
module Paging {
  import opened StreamId
  import opened Wrappers

  predicate Older<T>(at: T -> Option<Position>, a: T, b: T) {
    at(a).Some? && at(b).Some? && Precedes(at(a).value, at(b).value)
  }

  /** Positions are readable and strictly increase along the log. */
  ghost predicate Ascends<T>(at: T -> Option<Position>, log: seq<T>) {
    && (forall i :: 0 <= i < |log| ==> at(log[i]).Some?)
    && (forall i, j {:trigger Older(at, log[i], log[j])} :: 0 <= i < j < |log| ==> Older(at, log[i], log[j]))
  }

  predicate Visible<T>(at: T -> Option<Position>, t: T, before: Option<Position>) {
    before.None? || (at(t).Some? && Precedes(at(t).value, before.value))
  }

  /** Of the `n` oldest entries: the newest `limit` below the cursor, newest first. */
  function Recent<T>(at: T -> Option<Position>, log: seq<T>, n: nat, before: Option<Position>, limit: nat): seq<T>
    requires n <= |log|
  {
    if n == 0 || limit == 0 then []
    else if Visible(at, log[n - 1], before) then [log[n - 1]] + Recent(at, log, n - 1, before, limit - 1)
    else Recent(at, log, n - 1, before, limit)
  }

  /** The entries at `hi - 1` down to `lo`. */
  function Down<T>(log: seq<T>, lo: nat, hi: nat): (r: seq<T>)
    requires hi <= |log|
    ensures |r| == if lo < hi then hi - lo else 0
    ensures forall i :: 0 <= i < |r| ==> r[i] == log[hi - 1 - i]
  {
    if lo >= hi then [] else [log[hi - 1]] + Down(log, lo, hi - 1)
  }

  lemma DownSplits<T>(log: seq<T>, lo: nat, mid: nat, hi: nat)
    requires lo <= mid <= hi <= |log|
    ensures Down(log, lo, hi) == Down(log, mid, hi) + Down(log, lo, mid)
  {
  }

  datatype Page<T> = Page(items: seq<T>, hasMore: bool)

  /** Ask for one entry more than shown, to learn whether there is another page. */
  function PageOf<T>(at: T -> Option<Position>, log: seq<T>, before: Option<Position>, limit: nat): Page<T> {
    var found := Recent(at, log, |log|, before, limit + 1);
    Page(if limit < |found| then found[..limit] else found, limit < |found|)
  }

  lemma {:induction false} SkipHidden<T>(
    at: T -> Option<Position>, log: seq<T>, m: nat, n: nat, before: Option<Position>, limit: nat)
    requires m <= n <= |log| && forall k :: m <= k < n ==> !Visible(at, log[k], before)
    ensures Recent(at, log, n, before, limit) == Recent(at, log, m, before, limit)
  {
    if m < n {
      SkipHidden(at, log, m, n - 1, before, limit);
    }
  }

  function Floor(lo: nat, hi: nat, limit: nat): (r: nat)
    requires lo <= hi
    ensures r == if hi - limit < lo then lo else hi - limit
  {
    if hi - limit < lo then lo else hi - limit
  }

  lemma {:induction false} AllVisible<T>(
    at: T -> Option<Position>, log: seq<T>, n: nat, before: Option<Position>, limit: nat)
    requires n <= |log| && forall k :: 0 <= k < n ==> Visible(at, log[k], before)
    ensures Recent(at, log, n, before, limit) == Down(log, Floor(0, n, limit), n)
  {
    if n > 0 && limit > 0 {
      AllVisible(at, log, n - 1, before, limit - 1);
    }
  }

  // ---- logs that grow between requests ----

  /**
   `now` is `first` with its `dropped` oldest entries expired and others appended; whatever was
   appended has a position above all of `first`.
   */
  ghost predicate GrownFrom<T>(at: T -> Option<Position>, first: seq<T>, now: seq<T>, dropped: nat) {
    && dropped <= |first| <= |now| + dropped
    && (forall k :: 0 <= k < |first| - dropped ==> now[k] == first[dropped + k])
    && forall i, k {:trigger Older(at, first[i], now[k])} :: 0 <= i < |first| && |first| - dropped <= k < |now| ==> Older(at, first[i], now[k])
  }

  lemma DownOfGrown<T>(at: T -> Option<Position>, first: seq<T>, now: seq<T>, dropped: nat, lo: nat, hi: nat)
    requires GrownFrom(at, first, now, dropped) && dropped <= lo <= hi <= |first|
    ensures Down(now, lo - dropped, hi - dropped) == Down(first, lo, hi)
  {
    var a, b := Down(now, lo - dropped, hi - dropped), Down(first, lo, hi);
    forall i | 0 <= i < |a| ensures a[i] == b[i] {
      assert now[hi - dropped - 1 - i] == first[dropped + (hi - dropped - 1 - i)];
    }
  }

  /** Of a log grown from `first`, a cursor at `first[j]` hides `first[j]` and everything after it. */
  lemma HiddenFrom<T>(at: T -> Option<Position>, first: seq<T>, now: seq<T>, dropped: nat, j: nat, k: nat)
    requires Ascends(at, first) && GrownFrom(at, first, now, dropped) && j < |first| && j - dropped <= k < |now|
    ensures !Visible(at, now[k], at(first[j]))
  {
    if k < |first| - dropped {
      assert now[k] == first[dropped + k];
      assert dropped + k == j || Older(at, first[j], first[dropped + k]);
    } else {
      assert Older(at, first[j], now[k]);
    }
  }

  lemma ShownBelow<T>(at: T -> Option<Position>, first: seq<T>, now: seq<T>, dropped: nat, j: nat, k: nat)
    requires Ascends(at, first) && GrownFrom(at, first, now, dropped) && dropped <= j < |first| && k < j - dropped
    ensures Visible(at, now[k], at(first[j]))
  {
    assert now[k] == first[dropped + k];
    assert Older(at, first[dropped + k], first[j]);
  }

  lemma RecentSkipsHidden<T>(at: T -> Option<Position>, first: seq<T>, now: seq<T>, dropped: nat, j: nat, limit: nat)
    requires Ascends(at, first) && GrownFrom(at, first, now, dropped) && dropped <= j < |first|
    ensures Recent(at, now, |now|, at(first[j]), limit) == Recent(at, now, j - dropped, at(first[j]), limit)
  {
    forall k | j - dropped <= k < |now| ensures !Visible(at, now[k], at(first[j])) {
      HiddenFrom(at, first, now, dropped, j, k);
    }
    SkipHidden(at, now, j - dropped, |now|, at(first[j]), limit);
  }

  lemma RecentShowsRest<T>(at: T -> Option<Position>, first: seq<T>, now: seq<T>, dropped: nat, j: nat, limit: nat)
    requires Ascends(at, first) && GrownFrom(at, first, now, dropped) && dropped <= j < |first|
    ensures Recent(at, now, j - dropped, at(first[j]), limit) == Down(now, Floor(0, j - dropped, limit), j - dropped)
  {
    forall k | 0 <= k < j - dropped ensures Visible(at, now[k], at(first[j])) {
      ShownBelow(at, first, now, dropped, j, k);
    }
    AllVisible(at, now, j - dropped, at(first[j]), limit);
  }

  /** What a cursor at `first[j]` shows of a log grown from `first`. */
  lemma RecentOfGrown<T>(at: T -> Option<Position>, first: seq<T>, now: seq<T>, dropped: nat, j: nat, limit: nat)
    requires Ascends(at, first) && GrownFrom(at, first, now, dropped) && dropped <= j < |first|
    ensures Recent(at, now, |now|, at(first[j]), limit) == Down(first, Floor(dropped, j, limit), j)
  {
    RecentSkipsHidden(at, first, now, dropped, j, limit);
    RecentShowsRest(at, first, now, dropped, j, limit);
    DownOfGrown(at, first, now, dropped, Floor(dropped, j, limit), j);
  }

  /** A cursor at an expired entry shows nothing. */
  lemma NothingBelowExpired<T>(at: T -> Option<Position>, first: seq<T>, now: seq<T>, dropped: nat, j: nat, limit: nat)
    requires Ascends(at, first) && GrownFrom(at, first, now, dropped) && j < dropped
    ensures Recent(at, now, |now|, at(first[j]), limit) == []
  {
    var before := at(first[j]);
    forall k | 0 <= k < |now| ensures !Visible(at, now[k], before) {
      HiddenFrom(at, first, now, dropped, j, k);
    }
    SkipHidden(at, now, 0, |now|, before, limit);
  }

  /**
   The page answers a request made with no cursor on the first log (`j == |first|`), or with a cursor
   at `first[j]` on a log grown from it.
   */
  ghost predicate Answers<T>(
    at: T -> Option<Position>, first: seq<T>, now: seq<T>, dropped: nat, j: nat, limit: nat, p: Page<T>)
  {
    if j >= |first| then j == |first| && dropped == 0 && now == first && p == PageOf(at, now, None, limit)
    else p == PageOf(at, now, at(first[j]), limit)
  }

  /** Where a page ends: the oldest entry it shows, or where it started when it shows none. */
  function Reached(j: nat, dropped: nat, limit: nat): (r: nat)
    ensures r <= j
  {
    if dropped <= j then Floor(dropped, j, limit) else j
  }

  lemma TakeDown<T>(log: seq<T>, lo: nat, mid: nat, hi: nat)
    requires lo <= mid <= hi <= |log|
    ensures Down(log, lo, hi)[..hi - mid] == Down(log, mid, hi)
  {
  }

  lemma Found<T>(at: T -> Option<Position>, first: seq<T>, now: seq<T>, dropped: nat, j: nat, limit: nat)
    requires Ascends(at, first) && GrownFrom(at, first, now, dropped) && j <= |first|
    requires j == |first| ==> dropped == 0 && now == first
    ensures Recent(at, now, |now|, if j == |first| then None else at(first[j]), limit)
            == Down(first, Reached(j, dropped, limit), j)
  {
    if j == |first| {
      AllVisible(at, first, j, None, limit);
    } else if dropped <= j {
      RecentOfGrown(at, first, now, dropped, j, limit);
    } else {
      NothingBelowExpired(at, first, now, dropped, j, limit);
    }
  }

  /** A page is the next stretch of the first log, and says whether anything retained is left. */
  lemma PageShape<T>(
    at: T -> Option<Position>, first: seq<T>, now: seq<T>, dropped: nat, j: nat, limit: nat, p: Page<T>)
    requires Ascends(at, first) && GrownFrom(at, first, now, dropped) && j <= |first| && limit >= 1
    requires Answers(at, first, now, dropped, j, limit, p)
    ensures p.items == Down(first, Reached(j, dropped, limit), j)
    ensures p.hasMore <==> dropped < j - limit
  {
    Found(at, first, now, dropped, j, limit + 1);
    if dropped < j - limit {
      TakeDown(first, j - limit - 1, j - limit, j);
    }
  }

  // ---- a whole walk ----

  function Items<T>(pages: seq<Page<T>>): seq<T> {
    if pages == [] then [] else pages[0].items + Items(pages[1..])
  }

  /** The log at each request, with how much of the first log had expired by then. */
  datatype Moment<T> = Moment(log: seq<T>, dropped: nat)

  ghost predicate AllGrown<T>(at: T -> Option<Position>, first: seq<T>, moments: seq<Moment<T>>) {
    forall i :: 0 <= i < |moments| ==> GrownFrom(at, first, moments[i].log, moments[i].dropped)
  }

  lemma GrownTail<T>(at: T -> Option<Position>, first: seq<T>, moments: seq<Moment<T>>)
    requires AllGrown(at, first, moments) && moments != []
    ensures GrownFrom(at, first, moments[0].log, moments[0].dropped) && AllGrown(at, first, moments[1..])
  {
  }

  /** The pages of a client that starts at `j` and follows cursors until `hasMore` is false. */
  ghost predicate Walk<T>(
    at: T -> Option<Position>, first: seq<T>, moments: seq<Moment<T>>, j: nat, limit: nat, pages: seq<Page<T>>)
    decreases |pages|
  {
    && |pages| == |moments| && pages != []
    && Answers(at, first, moments[0].log, moments[0].dropped, j, limit, pages[0])
    && (if pages[0].hasMore then
          exists k :: 0 <= k < |first| && Ends(at, pages[0], first[k]) && Walk(at, first, moments[1..], k, limit, pages[1..])
        else |pages| == 1)
  }

  /** The page's cursor is the position of `t`. */
  ghost predicate Ends<T>(at: T -> Option<Position>, p: Page<T>, t: T) {
    p.items != [] && at(p.items[|p.items| - 1]) == at(t)
  }

  lemma WalkEnds<T>(
    at: T -> Option<Position>, first: seq<T>, moments: seq<Moment<T>>, j: nat, limit: nat, pages: seq<Page<T>>)
    requires |pages| == |moments| == 1 && !pages[0].hasMore
    requires Answers(at, first, moments[0].log, moments[0].dropped, j, limit, pages[0])
    ensures Walk(at, first, moments, j, limit, pages)
  {
  }

  lemma WalkContinues<T>(
    at: T -> Option<Position>, first: seq<T>, moments: seq<Moment<T>>, j: nat, limit: nat, pages: seq<Page<T>>, k: nat)
    requires |pages| == |moments| && pages != [] && pages[0].hasMore
    requires Answers(at, first, moments[0].log, moments[0].dropped, j, limit, pages[0])
    requires k < |first| && Ends(at, pages[0], first[k]) && Walk(at, first, moments[1..], k, limit, pages[1..])
    ensures Walk(at, first, moments, j, limit, pages)
  {
  }

  lemma SamePosition<T>(at: T -> Option<Position>, first: seq<T>, a: nat, b: nat)
    requires Ascends(at, first) && a < |first| && b < |first| && at(first[a]) == at(first[b])
    ensures a == b
  {
    assert a < b ==> Older(at, first[a], first[b]);
    assert b < a ==> Older(at, first[b], first[a]);
  }

  /** What a walk has shown by its end: one unbroken stretch of the first log down to `lo`. */
  ghost predicate Shows<T>(first: seq<T>, j: nat, lo: nat, moments: seq<Moment<T>>, pages: seq<Page<T>>)
    requires moments != []
  {
    && lo <= j <= |first| && Items(pages) == Down(first, lo, j)
    && lo <= moments[|moments| - 1].dropped
  }

  lemma ShowsMore<T>(first: seq<T>, j: nat, k: nat, lo: nat, moments: seq<Moment<T>>, pages: seq<Page<T>>)
    requires |moments| > 1 && pages != [] && k <= j <= |first| && pages[0].items == Down(first, k, j)
    requires Shows(first, k, lo, moments[1..], pages[1..])
    ensures Shows(first, j, lo, moments, pages)
  {
    DownSplits(first, lo, k, j);
  }

  lemma {:induction false} WalkFrom<T>(
    at: T -> Option<Position>, first: seq<T>, moments: seq<Moment<T>>, j: nat, limit: nat, pages: seq<Page<T>>)
    requires Ascends(at, first) && AllGrown(at, first, moments) && j <= |first| && limit >= 1
    requires Walk(at, first, moments, j, limit, pages)
    ensures exists lo :: Shows(first, j, lo, moments, pages)
    decreases |pages|
  {
    var now, dropped := moments[0].log, moments[0].dropped;
    PageShape(at, first, now, dropped, j, limit, pages[0]);
    var mid := Reached(j, dropped, limit);
    if pages[0].hasMore {
      var k :| 0 <= k < |first| && Ends(at, pages[0], first[k]) && Walk(at, first, moments[1..], k, limit, pages[1..]);
      SamePosition(at, first, k, mid);
      WalkFrom(at, first, moments[1..], k, limit, pages[1..]);
      var lo :| Shows(first, k, lo, moments[1..], pages[1..]);
      ShowsMore(first, j, k, lo, moments, pages);
    } else {
      assert pages[1..] == [] && Items(pages) == pages[0].items;
      assert Shows(first, j, mid, moments, pages);
    }
  }

  /**
   Following cursors until there is no more shows the log as it was at the first request, newest
   first, each entry once, whatever is appended meanwhile; it stops early only at entries that have
   expired by the last request.
   */
  lemma WalkShowsFirstLog<T>(
    at: T -> Option<Position>, first: seq<T>, moments: seq<Moment<T>>, limit: nat, pages: seq<Page<T>>)
    requires Ascends(at, first) && AllGrown(at, first, moments) && limit >= 1
    requires Walk(at, first, moments, |first|, limit, pages)
    ensures exists lo :: Shows(first, |first|, lo, moments, pages)
    ensures moments[|moments| - 1].dropped == 0 ==> Items(pages) == Down(first, 0, |first|)
  {
    WalkFrom(at, first, moments, |first|, limit, pages);
  }
}
