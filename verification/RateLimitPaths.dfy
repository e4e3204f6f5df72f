/** Which budgets a call passes, path by path: what is served has been admitted by each of them, and by no other. */
module RateLimitPaths {
  import opened RateLimit
  import opened RateLimitRuns
  import opened Wrappers

  predicate Limited(path: string) {
    |path| >= 4 && path[..4] == "/v1/"
  }

  predicate Costly(path: string) {
    || path == "/v1/agent-runs/preflight" || path == "/v1/evidence-packs"
    || path == "/v1/incidents" || path == "/v1/search"
  }

  lemma PathBudgets(c: Config, path: string)
    ensures Costly(path) ==> Limited(path) && PoliciesForPath(c, path) == [c.general, c.expensive]
    ensures Limited(path) && !Costly(path) ==> PoliciesForPath(c, path) == [c.general]
    ensures !Limited(path) ==> PoliciesForPath(c, path) == []
  {
    assert "/v1/" <= "/v1/agent-runs/preflight" && "/v1/" <= "/v1/evidence-packs";
    assert "/v1/" <= "/v1/incidents" && "/v1/" <= "/v1/search";
    assert Limited(path) <==> "/v1/" <= path;
  }

  /** Log entry `p` is an answered charge of call `i` for this budget, within its limit. */
  ghost predicate Admits(s: System, i: nat, p: nat, policy: Policy)
    requires i < |s.calls|
  {
    && p < |s.log| && s.log[p].call == i && s.log[p].key == Key(s.calls[i].client, policy.name)
    && s.log[p].answered && s.log[p].count <= policy.requests
  }

  /** An answer that a budget is used up. */
  predicate Over(c: Config, e: Entry) {
    && e.answered
    && ((e.key.policy == c.general.name && e.count > c.general.requests)
        || (e.key.policy == c.expensive.name && e.count > c.expensive.requests))
  }

  // ---- every charge of a call is one of its own, unless it ended the call ----

  ghost predicate EntryKept(c: Config, s: System, p: nat)
    requires p < |s.log|
  {
    var e := s.log[p];
    && e.call < |s.calls|
    && var call := s.calls[e.call];
       && e.key.client == call.client
       && (p in call.charges || (call.ending == Some(Failed) && !e.answered) || (call.ending == Some(Denied) && Over(c, e)))
  }

  ghost predicate DenialKept(c: Config, s: System, i: nat)
    requires i < |s.calls|
  {
    s.calls[i].ending == Some(Denied) ==> exists p :: 0 <= p < |s.log| && s.log[p].call == i && Over(c, s.log[p])
  }

  lemma EntryStep(c: Config, s: System, step: Step, p: nat)
    requires ValidConfig(c) && Enabled(c, s, step) && p < |Next(c, s, step).log|
    requires p < |s.log| ==> EntryKept(c, s, p)
    ensures EntryKept(c, Next(c, s, step), p)
  {
    if step.Charge? {
      PathBudgets(c, s.calls[step.call].path);
      if p == |s.log| {
        var charges := s.calls[step.call].charges + [|s.log|];
        assert charges[|charges| - 1] == p;
      }
    }
  }

  lemma DenialStep(c: Config, s: System, step: Step, i: nat)
    requires ValidConfig(c) && Enabled(c, s, step) && i < |Next(c, s, step).calls|
    requires i < |s.calls| ==> DenialKept(c, s, i)
    ensures DenialKept(c, Next(c, s, step), i)
  {
    var s' := Next(c, s, step);
    if step.Charge? {
      PathBudgets(c, s.calls[step.call].path);
    }
    if i < |s.calls| && s.calls[i].ending == Some(Denied) {
      var p :| 0 <= p < |s.log| && s.log[p].call == i && Over(c, s.log[p]);
      assert s'.log[p] == s.log[p];
    } else if s'.calls[i].ending == Some(Denied) {
      assert s'.log[|s.log|].call == i && Over(c, s'.log[|s.log|]);
    }
  }

  lemma {:induction false} RunKeepsEntries(c: Config, steps: seq<Step>, n: nat)
    requires ValidConfig(c) && n <= |steps| && SystemAfter(c, steps, n).Some?
    ensures var s := SystemAfter(c, steps, n).value;
            && (forall p: nat :: p < |s.log| ==> EntryKept(c, s, p))
            && (forall i: nat :: i < |s.calls| ==> DenialKept(c, s, i) && CallKept(c, s, i))
  {
    var s := SystemAfter(c, steps, n).value;
    if n > 0 {
      var before := SystemAfter(c, steps, n - 1).value;
      RunKeepsEntries(c, steps, n - 1);
      forall p: nat | p < |s.log| ensures EntryKept(c, s, p) {
        EntryStep(c, before, steps[n - 1], p);
      }
      forall i: nat | i < |s.calls| ensures DenialKept(c, s, i) {
        DenialStep(c, before, steps[n - 1], i);
      }
    }
    forall i: nat | i < |s.calls| ensures CallKept(c, s, i) {
      RunKeepsCalls(c, steps, n, i);
    }
  }

  // ---- what each path must pass ----

  lemma ChargeAdmits(c: Config, s: System, i: nat, k: nat)
    requires ValidConfig(c) && i < |s.calls| && CallKept(c, s, i) && k < |s.calls[i].charges|
    ensures k < |PoliciesForPath(c, s.calls[i].path)|
    ensures Admits(s, i, s.calls[i].charges[k], PoliciesForPath(c, s.calls[i].path)[k])
  {
    assert ChargeTrue(c, s, i, k);
  }

  /** What stands behind a served call, and that nothing else was charged for it. */
  ghost predicate Passed(c: Config, s: System, i: nat)
    requires i < |s.calls|
  {
    var call := s.calls[i];
    && (Costly(call.path) ==>
          exists p, q :: p < q && Admits(s, i, p, c.general) && Admits(s, i, q, c.expensive) && Only(s, i, {p, q}))
    && (Limited(call.path) && !Costly(call.path) ==> exists p :: Admits(s, i, p, c.general) && Only(s, i, {p}))
    && (!Limited(call.path) ==> Only(s, i, {}))
  }

  ghost predicate Only(s: System, i: nat, charges: set<nat>) {
    forall p: nat :: p < |s.log| && s.log[p].call == i ==> p in charges
  }

  lemma ServedPassed(c: Config, s: System, i: nat)
    requires ValidConfig(c) && i < |s.calls| && CallKept(c, s, i) && s.calls[i].ending == Some(Served)
    requires forall p: nat :: p < |s.log| ==> EntryKept(c, s, p)
    ensures Passed(c, s, i)
  {
    var charges := s.calls[i].charges;
    PathBudgets(c, s.calls[i].path);
    forall p: nat | p < |s.log| && s.log[p].call == i ensures p in charges {
      assert EntryKept(c, s, p);
    }
    if Costly(s.calls[i].path) {
      ChargeAdmits(c, s, i, 0);
      ChargeAdmits(c, s, i, 1);
      assert Only(s, i, {charges[0], charges[1]});
    } else if Limited(s.calls[i].path) {
      ChargeAdmits(c, s, i, 0);
      assert Only(s, i, {charges[0]});
    }
  }

  /**
   In every interleaving: a served call was admitted by the budgets its path must pass, one after the other,
   and charged no other; a call is denied exactly when one of its charges found its budget used up.
   */
  lemma PathsPassBudgets(c: Config, steps: seq<Step>, n: nat, i: nat)
    requires ValidConfig(c) && n <= |steps| && SystemAfter(c, steps, n).Some? && i < |SystemAfter(c, steps, n).value.calls|
    ensures var s := SystemAfter(c, steps, n).value;
            && (s.calls[i].ending == Some(Served) ==> Passed(c, s, i))
            && (s.calls[i].ending == Some(Denied) <==> exists p :: 0 <= p < |s.log| && s.log[p].call == i && Over(c, s.log[p]))
  {
    var s := SystemAfter(c, steps, n).value;
    RunKeepsEntries(c, steps, n);
    assert CallKept(c, s, i) && DenialKept(c, s, i);
    if s.calls[i].ending == Some(Served) {
      ServedPassed(c, s, i);
    }
    if p :| 0 <= p < |s.log| && s.log[p].call == i && Over(c, s.log[p]) {
      assert EntryKept(c, s, p);
      if p in s.calls[i].charges {
        NotOver(c, s, i, p);
      }
    }
  }

  lemma NotOver(c: Config, s: System, i: nat, p: nat)
    requires ValidConfig(c) && i < |s.calls| && CallKept(c, s, i) && p in s.calls[i].charges
    ensures p < |s.log| && !Over(c, s.log[p])
  {
    var k :| 0 <= k < |s.calls[i].charges| && s.calls[i].charges[k] == p;
    PathBudgets(c, s.calls[i].path);
    ChargeAdmits(c, s, i, k);
  }

  // ---- how many calls a client is served ----

  /** The served calls of a client, of this kind of path, admitted by this budget within the window. */
  ghost function Admitted(c: Config, s: System, client: string, costly: bool, t: int): set<nat>
    requires ValidConfig(c)
  {
    set i: nat | i < |s.calls| && s.calls[i].client == client && s.calls[i].ending == Some(Served)
      && (if costly then Costly(s.calls[i].path) else Limited(s.calls[i].path))
      && AdmittedWithin(s, i, if costly then c.expensive else c.general, t, c.general.windowSeconds * 1000)
  }

  ghost predicate AdmittedWithin(s: System, i: nat, policy: Policy, t: int, window: nat)
    requires i < |s.calls|
  {
    exists p: nat :: Admits(s, i, p, policy) && t <= s.log[p].arrival.time < t + window
  }

  lemma AdmittedServed(c: Config, s: System, client: string, costly: bool, t: int, i: nat)
    requires ValidConfig(c) && (forall j: nat :: j < |s.calls| ==> CallKept(c, s, j)) && i in Admitted(c, s, client, costly, t)
    requires forall p: nat :: p < |s.log| ==> EntryKept(c, s, p)
    ensures i in ServedIn(c, s, client, if costly then 1 else 0, t)
  {
    var call, policy, k := s.calls[i], if costly then c.expensive else c.general, if costly then 1 else 0;
    PathBudgets(c, call.path);
    assert CallKept(c, s, i);
    var p: nat :| Admits(s, i, p, policy) && t <= s.log[p].arrival.time < t + c.general.windowSeconds * 1000;
    assert EntryKept(c, s, p);
    var l :| 0 <= l < |call.charges| && call.charges[l] == p;
    ChargeAdmits(c, s, i, l);
    assert l == k;
  }

  /**
   In every interleaving, any interval of one window length serves a client fewer than twice the expensive
   limit of calls to the four expensive paths, and fewer than twice the general limit of all limited calls.
   */
  lemma PathsServedFewerThanTwice(c: Config, steps: seq<Step>, n: nat, client: string, costly: bool, t: int)
    requires ValidConfig(c) && n <= |steps| && SystemAfter(c, steps, n).Some?
    ensures |Admitted(c, SystemAfter(c, steps, n).value, client, costly, t)|
            <= 2 * (if costly then c.expensive else c.general).requests - 1
  {
    var s, k := SystemAfter(c, steps, n).value, if costly then 1 else 0;
    RunKeepsEntries(c, steps, n);
    ServedFewerThanTwice(c, steps, n, client, k, t);
    forall i | i in Admitted(c, s, client, costly, t) ensures i in ServedIn(c, s, client, k, t) {
      AdmittedServed(c, s, client, costly, t, i);
    }
    SmallerSet(Admitted(c, s, client, costly, t), ServedIn(c, s, client, k, t));
  }

  lemma SmallerSet(a: set<nat>, b: set<nat>)
    requires a <= b
    ensures |a| <= |b|
  {
    assert b == a + (b - a);
  }

  // ---- one request by itself ----

  /** The counters once the first `n` budgets have been charged. */
  function ChargedTo(
    budgets: Budgets, client: string, policies: seq<Policy>, arrivals: seq<Arrival>, deliveries: seq<Delivery>, n: nat): Budgets
    requires n <= |policies| == |arrivals| == |deliveries| && forall i :: 0 <= i < |policies| ==> ValidPolicy(policies[i])
  {
    if n == 0 then budgets
    else
      Charged(ChargedTo(budgets, client, policies, arrivals, deliveries, n - 1), client, policies[n - 1], arrivals[n - 1],
              deliveries[n - 1])
  }

  /** What budget `i` answers, after those before it. */
  function AnswerAt(
    budgets: Budgets, client: string, policies: seq<Policy>, arrivals: seq<Arrival>, deliveries: seq<Delivery>, i: nat)
    : Option<Decision>
    requires i < |policies| == |arrivals| == |deliveries| && forall k :: 0 <= k < |policies| ==> ValidPolicy(policies[k])
  {
    Answer(ChargedTo(budgets, client, policies, arrivals, deliveries, i), client, policies[i], arrivals[i], deliveries[i])
  }

  lemma {:induction false} ChargedFurther(
    budgets: Budgets, client: string, policies: seq<Policy>, arrivals: seq<Arrival>, deliveries: seq<Delivery>, n: nat)
    requires 0 < n <= |policies| == |arrivals| == |deliveries| && forall i :: 0 <= i < |policies| ==> ValidPolicy(policies[i])
    ensures ChargedTo(budgets, client, policies, arrivals, deliveries, n) ==
            ChargedTo(Charged(budgets, client, policies[0], arrivals[0], deliveries[0]), client, policies[1..], arrivals[1..],
                      deliveries[1..], n - 1)
  {
    if n > 1 {
      ChargedFurther(budgets, client, policies, arrivals, deliveries, n - 1);
    }
  }

  /** The least remaining decision among those reached, in order. */
  ghost predicate Tightest(d: Decision, decisions: seq<Decision>) {
    d in decisions && forall i :: 0 <= i < |decisions| ==> d.remaining <= decisions[i].remaining
  }

  /** The answers of the first `k` budgets are admissions, and these. */
  ghost predicate AdmitsTo(
    budgets: Budgets, client: string, policies: seq<Policy>, arrivals: seq<Arrival>, deliveries: seq<Delivery>, k: nat,
    decisions: seq<Decision>)
    requires k <= |policies| == |arrivals| == |deliveries| && forall i :: 0 <= i < |policies| ==> ValidPolicy(policies[i])
  {
    |decisions| == k && forall i :: 0 <= i < k ==>
      decisions[i].allowed && AnswerAt(budgets, client, policies, arrivals, deliveries, i) == Some(decisions[i])
  }

  /** The middleware's answer to a request that budget `k` stops, or none does. */
  ghost predicate StopsAt(
    budgets: Budgets, client: string, policies: seq<Policy>, arrivals: seq<Arrival>, deliveries: seq<Delivery>, k: nat,
    earlier: seq<Decision>, decisions: seq<Decision>, after: Budgets, r: Response)
    requires |policies| == |arrivals| == |deliveries| && forall i :: 0 <= i < |policies| ==> ValidPolicy(policies[i])
  {
    && k <= |policies| && AdmitsTo(budgets, client, policies, arrivals, deliveries, k, decisions)
    && if k == |policies| then
         && after == ChargedTo(budgets, client, policies, arrivals, deliveries, k)
         && if earlier + decisions == [] then r == PassedOn else r.Handled? && Tightest(r.shown, earlier + decisions)
       else
         var answer := AnswerAt(budgets, client, policies, arrivals, deliveries, k);
         && after == ChargedTo(budgets, client, policies, arrivals, deliveries, k + 1)
         && if answer.None? then r == Unavailable else !answer.value.allowed && r == TooMany(answer.value)
  }

  lemma StopsLater(
    budgets: Budgets, client: string, policies: seq<Policy>, arrivals: seq<Arrival>, deliveries: seq<Delivery>, k: nat,
    earlier: seq<Decision>, first: Decision, decisions: seq<Decision>, after: Budgets, r: Response)
    requires policies != [] && |policies| == |arrivals| == |deliveries|
    requires forall i :: 0 <= i < |policies| ==> ValidPolicy(policies[i])
    requires Answer(budgets, client, policies[0], arrivals[0], deliveries[0]) == Some(first) && first.allowed
    requires StopsAt(Charged(budgets, client, policies[0], arrivals[0], deliveries[0]), client, policies[1..], arrivals[1..],
                     deliveries[1..], k, earlier + [first], decisions, after, r)
    ensures StopsAt(budgets, client, policies, arrivals, deliveries, k + 1, earlier, [first] + decisions, after, r)
  {
    var all := [first] + decisions;
    assert earlier + all == earlier + [first] + decisions;
    forall n | 0 < n <= |policies|
      ensures ChargedTo(budgets, client, policies, arrivals, deliveries, n) ==
              ChargedTo(Charged(budgets, client, policies[0], arrivals[0], deliveries[0]), client, policies[1..], arrivals[1..],
                        deliveries[1..], n - 1)
    {
      ChargedFurther(budgets, client, policies, arrivals, deliveries, n);
    }
    forall i | 0 <= i < k + 1
      ensures all[i].allowed && AnswerAt(budgets, client, policies, arrivals, deliveries, i) == Some(all[i])
    {
      if i > 0 {
        assert all[i] == decisions[i - 1];
      }
    }
  }

  /**
   One request: budgets are charged in order up to the first that denies or cannot answer, which decides the
   response; if none does, the response shows the tightest of the decisions.
   */
  lemma {:induction false} ServeMeaning(
    budgets: Budgets, client: string, policies: seq<Policy>, arrivals: seq<Arrival>, deliveries: seq<Delivery>,
    earlier: seq<Decision>)
    returns (k: nat, decisions: seq<Decision>)
    requires |policies| == |arrivals| == |deliveries| && forall i :: 0 <= i < |policies| ==> ValidPolicy(policies[i])
    ensures var (after, r) := Serve(budgets, client, policies, arrivals, deliveries, earlier);
            StopsAt(budgets, client, policies, arrivals, deliveries, k, earlier, decisions, after, r)
    decreases |policies|
  {
    k, decisions := 0, [];
    if policies == [] {
      assert earlier + decisions == earlier;
    } else {
      var next := Charged(budgets, client, policies[0], arrivals[0], deliveries[0]);
      var answer := Answer(budgets, client, policies[0], arrivals[0], deliveries[0]);
      if answer.Some? && answer.value.allowed {
        var (after, r) := Serve(next, client, policies[1..], arrivals[1..], deliveries[1..], earlier + [answer.value]);
        k, decisions := ServeMeaning(next, client, policies[1..], arrivals[1..], deliveries[1..], earlier + [answer.value]);
        StopsLater(budgets, client, policies, arrivals, deliveries, k, earlier, answer.value, decisions, after, r);
        k, decisions := k + 1, [answer.value] + decisions;
      }
    }
  }
}
