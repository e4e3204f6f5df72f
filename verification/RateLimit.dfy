/**
 One request budget: a counter with an expiry, incremented by a script.  The counter lives until its
 expiry; a request at the very moment of expiry may still find it.
 */
module RateLimit {
  import opened Wrappers

  datatype Policy = Policy(name: string, requests: int, windowSeconds: int)

  predicate ValidPolicy(p: Policy) {
    p.name != "" && p.requests >= 1 && p.windowSeconds >= 1
  }

  datatype Decision = Decision(policy: string, allowed: bool, limit: int, remaining: int, resetAfter: int)

  /** The stored counter and the millisecond at which it expires. */
  datatype Budget = Budget(count: nat, expireAt: int)

  /** A request's arrival at the server; `found` says whether a counter expiring right now is still there. */
  datatype Arrival = Arrival(time: int, found: bool)

  predicate Alive(b: Option<Budget>, a: Arrival) {
    b.Some? && (a.time < b.value.expireAt || (a.time == b.value.expireAt && a.found))
  }

  /** The counter after the script has run. */
  function Consumed(b: Option<Budget>, a: Arrival, window: nat): (r: Budget)
    ensures r.expireAt > a.time || window == 0
  {
    var count := if Alive(b, a) then b.value.count + 1 else 1;
    var expireAt := if count == 1 then a.time + window else b.value.expireAt;
    Budget(count, if expireAt - a.time < 1 then a.time + window else expireAt)
  }

  /** `_decision` on the script's answer. */
  function Decide(policy: Policy, count: int, ttl: int): Option<Decision> {
    if count < 1 || ttl < 1 then None
    else
      var remaining := if policy.requests > count then policy.requests - count else 0;
      var reset := (ttl + 999) / 1000;
      Some(Decision(policy.name, count <= policy.requests, policy.requests, remaining, if reset < 1 then 1 else reset))
  }

  /** This many more requests would still be within the limit. */
  predicate StillAllows(policy: Policy, count: nat, more: nat) {
    count + more <= policy.requests
  }

  /** A script answer always decides, says exactly how many more requests are within the limit, and never promises a reset before the counter's expiry. */
  lemma DecisionSound(policy: Policy, b: Option<Budget>, a: Arrival)
    requires ValidPolicy(policy)
    ensures var after := Consumed(b, a, policy.windowSeconds * 1000);
            var d := Decide(policy, after.count, after.expireAt - a.time);
            && d.Some? && (d.value.allowed <==> after.count <= policy.requests)
            && d.value.policy == policy.name && d.value.limit == policy.requests
            && (forall more: nat :: StillAllows(policy, after.count, more) ==> more <= d.value.remaining)
            && d.value.remaining >= 0 && (d.value.allowed ==> StillAllows(policy, after.count, d.value.remaining))
            && a.time + d.value.resetAfter * 1000 >= after.expireAt
            && a.time + (d.value.resetAfter - 1) * 1000 < after.expireAt
  {
  }

  // ---- the requests that reached one counter ----

  /** The counter after the first `n` arrivals. */
  function After(arrivals: seq<Arrival>, n: nat, window: nat): Option<Budget>
    requires n <= |arrivals|
  {
    if n == 0 then None else Some(Consumed(After(arrivals, n - 1, window), arrivals[n - 1], window))
  }

  /** The count the script returns to arrival `i`. */
  function CountOf(arrivals: seq<Arrival>, i: nat, window: nat): nat
    requires i < |arrivals|
  {
    After(arrivals, i + 1, window).value.count
  }

  /** Arrival `i` finds no counter and starts a new one. */
  predicate Starts(arrivals: seq<Arrival>, i: nat, window: nat)
    requires i < |arrivals|
  {
    !Alive(After(arrivals, i, window), arrivals[i])
  }

  /** The arrival that started the counter which arrival `i` found. */
  function Opener(arrivals: seq<Arrival>, i: nat, window: nat): (j: nat)
    requires i < |arrivals|
    ensures j <= i && Starts(arrivals, j, window)
  {
    if Starts(arrivals, i, window) then i else Opener(arrivals, i - 1, window)
  }

  ghost predicate InOrder(arrivals: seq<Arrival>) {
    forall i, j :: 0 <= i <= j < |arrivals| ==> arrivals[i].time <= arrivals[j].time
  }

  /**
   The count is the position of the arrival within the lifetime of its counter, so a lifetime admits
   exactly its first `limit` arrivals, also when the script has to extend an expiring window.
   */
  lemma {:induction false} CountIsPosition(arrivals: seq<Arrival>, i: nat, window: nat)
    requires i < |arrivals|
    ensures CountOf(arrivals, i, window) == i - Opener(arrivals, i, window) + 1
  {
    if !Starts(arrivals, i, window) {
      CountIsPosition(arrivals, i - 1, window);
    }
  }

  /** A counter outlives its opener by at least the window. */
  lemma {:induction false} LivesForWindow(arrivals: seq<Arrival>, i: nat, window: nat)
    requires i < |arrivals| && InOrder(arrivals)
    ensures After(arrivals, i + 1, window).value.expireAt >= arrivals[Opener(arrivals, i, window)].time + window
  {
    if !Starts(arrivals, i, window) {
      LivesForWindow(arrivals, i - 1, window);
      assert arrivals[Opener(arrivals, i, window)].time <= arrivals[i].time;
    }
  }

  /** Two openers are at least a window apart. */
  lemma {:induction false} OpenersApart(arrivals: seq<Arrival>, j: nat, k: nat, window: nat)
    requires j < k < |arrivals| && InOrder(arrivals) && Starts(arrivals, j, window) && Starts(arrivals, k, window)
    ensures arrivals[k].time >= arrivals[j].time + window
    decreases k
  {
    var o := Opener(arrivals, k - 1, window);
    LivesForWindow(arrivals, k - 1, window);
    OpenerAtLeast(arrivals, j, k - 1, window);
    if j < o {
      OpenersApart(arrivals, j, o, window);
    }
  }

  lemma {:induction false} OpenerAtLeast(arrivals: seq<Arrival>, j: nat, i: nat, window: nat)
    requires j <= i < |arrivals| && Starts(arrivals, j, window)
    ensures Opener(arrivals, i, window) >= j
  {
    if !Starts(arrivals, i, window) {
      OpenerAtLeast(arrivals, j, i - 1, window);
    }
  }

  /** The arrivals admitted during the half-open interval that starts at `t` and lasts one window. */
  function AdmittedIn(arrivals: seq<Arrival>, t: int, window: nat, limit: nat): set<nat> {
    set i: nat | i < |arrivals| && t <= arrivals[i].time < t + window && CountOf(arrivals, i, window) <= limit
  }

  function Range(lo: nat, n: nat): (s: set<nat>)
    ensures |s| == n && forall i: nat :: i in s <==> lo <= i < lo + n
  {
    if n == 0 then {} else Range(lo, n - 1) + {lo + n - 1}
  }

  /** Within one window all arrivals have one of at most two openers. */
  lemma TwoOpeners(arrivals: seq<Arrival>, t: int, window: nat, a: nat, b: nat, c: nat)
    requires InOrder(arrivals) && a <= b <= c < |arrivals|
    requires t <= arrivals[a].time && arrivals[c].time < t + window
    ensures var oa, ob, oc := Opener(arrivals, a, window), Opener(arrivals, b, window), Opener(arrivals, c, window);
            oa <= ob <= oc && (oa == ob || ob == oc)
  {
    var oa, ob, oc := Opener(arrivals, a, window), Opener(arrivals, b, window), Opener(arrivals, c, window);
    OpenerAtLeast(arrivals, oa, b, window);
    OpenerAtLeast(arrivals, ob, c, window);
    if oa < ob < oc {
      OpenersApart(arrivals, ob, oc, window);
      OpenerMonotone(arrivals, a, ob, b, window);
      assert false;
    }
  }

  /** An opener later than that of `a` comes after `a`. */
  lemma OpenerMonotone(arrivals: seq<Arrival>, a: nat, o: nat, b: nat, window: nat)
    requires a <= b < |arrivals| && o == Opener(arrivals, b, window) && Opener(arrivals, a, window) < o
    ensures o > a
  {
    if o <= a {
      OpenerAtLeast(arrivals, o, a, window);
    }
  }

  lemma AdmittedNearOpener(arrivals: seq<Arrival>, t: int, window: nat, limit: nat, i: nat)
    requires i in AdmittedIn(arrivals, t, window, limit)
    ensures Opener(arrivals, i, window) <= i < Opener(arrivals, i, window) + limit
  {
    CountIsPosition(arrivals, i, window);
  }

  lemma NoThirdOpener(arrivals: seq<Arrival>, t: int, window: nat, limit: nat, x: nat, y: nat, i: nat)
    requires InOrder(arrivals) && {x, y, i} <= AdmittedIn(arrivals, t, window, limit)
    ensures var ox, oy, oi := Opener(arrivals, x, window), Opener(arrivals, y, window), Opener(arrivals, i, window);
            oi == ox || oi == oy || ox == oy
  {
    var lo := if x <= y && x <= i then x else if y <= i then y else i;
    var hi := if x >= y && x >= i then x else if y >= i then y else i;
    TwoOpeners(arrivals, t, window, lo, x, hi);
    TwoOpeners(arrivals, t, window, lo, y, hi);
    TwoOpeners(arrivals, t, window, lo, i, hi);
  }

  /** When a second counter was opened, the opener of the first lies before the interval. */
  lemma EarlierOpenerOutside(arrivals: seq<Arrival>, t: int, window: nat, limit: nat, i: nat, j: nat)
    requires InOrder(arrivals) && {i, j} <= AdmittedIn(arrivals, t, window, limit)
    requires Opener(arrivals, i, window) < Opener(arrivals, j, window)
    ensures Opener(arrivals, i, window) !in AdmittedIn(arrivals, t, window, limit)
  {
    OpenersApart(arrivals, Opener(arrivals, i, window), Opener(arrivals, j, window), window);
    assert arrivals[Opener(arrivals, j, window)].time <= arrivals[j].time;
  }

  lemma AdmittedOfTwo(arrivals: seq<Arrival>, t: int, window: nat, limit: nat, x: nat, y: nat)
    requires InOrder(arrivals) && {x, y} <= AdmittedIn(arrivals, t, window, limit)
    requires Opener(arrivals, x, window) < Opener(arrivals, y, window)
    ensures |AdmittedIn(arrivals, t, window, limit)| <= 2 * limit - 1
  {
    var ox, oy := Opener(arrivals, x, window), Opener(arrivals, y, window);
    AdmittedNearOpener(arrivals, t, window, limit, x);
    var both := Range(ox + 1, limit - 1) + Range(oy, limit);
    forall i | i in AdmittedIn(arrivals, t, window, limit) ensures i in both {
      NoThirdOpener(arrivals, t, window, limit, x, y, i);
      AdmittedNearOpener(arrivals, t, window, limit, i);
      EarlierOpenerOutside(arrivals, t, window, limit, x, y);
    }
    SubsetSmaller(AdmittedIn(arrivals, t, window, limit), both);
  }

  /**
   Any half-open interval of one window length admits fewer than twice the limit, also when the script
   has to extend an expiring window.
   */
  lemma FewerThanTwice(arrivals: seq<Arrival>, t: int, window: nat, limit: nat)
    requires InOrder(arrivals) && limit >= 1
    ensures |AdmittedIn(arrivals, t, window, limit)| <= 2 * limit - 1
  {
    var s := AdmittedIn(arrivals, t, window, limit);
    if s != {} {
      var x :| x in s;
      var ox := Opener(arrivals, x, window);
      if y :| y in s && Opener(arrivals, y, window) != ox {
        AdmittedOfTwo(arrivals, t, window, limit, if ox < Opener(arrivals, y, window) then x else y,
                      if ox < Opener(arrivals, y, window) then y else x);
      } else {
        forall i | i in s ensures i in Range(ox, limit) {
          AdmittedNearOpener(arrivals, t, window, limit, i);
        }
        SubsetSmaller(s, Range(ox, limit));
      }
    }
  }

  /** One early arrival, the rest of the budget at the last moment, and a full budget right after. */
  function Burst(window: nat, limit: nat): (r: seq<Arrival>)
    ensures |r| == 2 * limit
  {
    seq(2 * limit, i => Arrival(if i == 0 then 0 else if i < limit then window - 1 else window, false))
  }

  lemma {:induction false} BurstCounts(window: nat, limit: nat, n: nat)
    requires window >= 2 && limit >= 1 && 1 <= n <= 2 * limit
    ensures After(Burst(window, limit), n, window) ==
            Some(if n <= limit then Budget(n, window) else Budget(n - limit, 2 * window))
  {
    if n > 1 {
      BurstCounts(window, limit, n - 1);
    }
  }

  lemma BurstAdmitted(window: nat, limit: nat, i: nat)
    requires window >= 2 && limit >= 1
    ensures i in AdmittedIn(Burst(window, limit), 1, window, limit) <==> 1 <= i < 2 * limit
  {
    if i < 2 * limit {
      BurstCounts(window, limit, i + 1);
    }
  }

  /** The bound is reached. */
  lemma BoundIsSharp(window: nat, limit: nat)
    requires window >= 2 && limit >= 1
    ensures InOrder(Burst(window, limit)) && |AdmittedIn(Burst(window, limit), 1, window, limit)| == 2 * limit - 1
  {
    var admitted := AdmittedIn(Burst(window, limit), 1, window, limit);
    forall i ensures i in admitted <==> i in Range(1, 2 * limit - 1) {
      BurstAdmitted(window, limit, i);
    }
    assert admitted == Range(1, 2 * limit - 1);
  }

  lemma SubsetSmaller<T>(a: set<T>, b: set<T>)
    requires a <= b
    ensures |a| <= |b|
  {
    if a != {} {
      var x :| x in a;
      SubsetSmaller(a - {x}, b - {x});
    }
  }

  // ---- a counter ends ----

  /** What is left of a counter's life is never more than a window, from its last request on. */
  lemma {:induction false} EndsWithinWindow(arrivals: seq<Arrival>, i: nat, window: nat)
    requires i < |arrivals| && InOrder(arrivals)
    ensures After(arrivals, i + 1, window).value.expireAt <= arrivals[i].time + window
  {
    if !Starts(arrivals, i, window) {
      EndsWithinWindow(arrivals, i - 1, window);
    }
  }

  /** A request later than the expiry of the counter starts a new one, so whoever pauses for longer than a window is admitted. */
  lemma PauseAdmits(arrivals: seq<Arrival>, i: nat, window: nat)
    requires 0 < i < |arrivals| && InOrder(arrivals)
    ensures arrivals[i].time > After(arrivals, i, window).value.expireAt ==> CountOf(arrivals, i, window) == 1
    ensures arrivals[i].time > arrivals[i - 1].time + window ==> CountOf(arrivals, i, window) == 1
  {
    EndsWithinWindow(arrivals, i - 1, window);
  }
}
