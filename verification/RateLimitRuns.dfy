/**
 The request budgets under load: many calls of many clients, each charging its budgets one after the
 other, interleaved in any way.
 */
module RateLimitRuns {
  import opened RateLimit
  import opened Wrappers

  datatype Config = Config(general: Policy, expensive: Policy)

  predicate ValidConfig(c: Config) {
    && ValidPolicy(c.general) && ValidPolicy(c.expensive) && c.general.name != c.expensive.name
    && c.expensive.requests <= c.general.requests && c.expensive.windowSeconds == c.general.windowSeconds
  }

  const EXPENSIVE_PATHS: set<string> :=
    {"/v1/agent-runs/preflight", "/v1/evidence-packs", "/v1/incidents", "/v1/search"}

  function PoliciesForPath(c: Config, path: string): seq<Policy> {
    if !("/v1/" <= path) then []
    else if path in EXPENSIVE_PATHS then [c.general, c.expensive]
    else [c.general]
  }

  /** One budget of one client. */
  datatype Key = Key(client: string, policy: string)

  /** What becomes of one script call: an answer, or an error before or after the script ran. */
  datatype Delivery = Answered | NeverRan | RanButLost

  datatype Response = PassedOn | Handled(shown: Decision) | TooMany(denied: Decision) | Unavailable

  /** The decision reported on success: the first with the fewest requests remaining. */
  function Effective(decisions: seq<Decision>): (d: Decision)
    requires decisions != []
    ensures d in decisions && forall i :: 0 <= i < |decisions| ==> d.remaining <= decisions[i].remaining
  {
    var last := decisions[|decisions| - 1];
    if |decisions| == 1 then last
    else
      var before := Effective(decisions[..|decisions| - 1]);
      assert forall i :: 0 <= i < |decisions| - 1 ==> decisions[..|decisions| - 1][i] == decisions[i];
      if before.remaining <= last.remaining then before else last
  }

  type Budgets = map<Key, Budget>

  function Stored(budgets: Budgets, key: Key): Option<Budget> {
    if key in budgets then Some(budgets[key]) else None
  }

  function Window(p: Policy): nat
    requires ValidPolicy(p)
  {
    p.windowSeconds * 1000
  }

  function Charged(budgets: Budgets, client: string, p: Policy, a: Arrival, d: Delivery): Budgets
    requires ValidPolicy(p)
  {
    var key := Key(client, p.name);
    if d == NeverRan then budgets else budgets[key := Consumed(Stored(budgets, key), a, Window(p))]
  }

  /** The decision the caller sees, if it sees one. */
  function Answer(budgets: Budgets, client: string, p: Policy, a: Arrival, d: Delivery): (r: Option<Decision>)
    requires ValidPolicy(p)
    ensures r.Some? <==> d == Answered
  {
    if d != Answered then None
    else
      var after := Consumed(Stored(budgets, Key(client, p.name)), a, Window(p));
      DecisionSound(p, Stored(budgets, Key(client, p.name)), a);
      Decide(p, after.count, after.expireAt - a.time)
  }

  // ---- the sequential code: the limiter's store and the middleware ----

  class ApiRateLimiter {
    const config: Config
    var budgets: Budgets

    constructor (config: Config)
      requires ValidConfig(config)
      ensures this.config == config && budgets == map[]
    {
      this.config := config;
      budgets := map[];
    }

    /** The budget script with its error paths. */
    method Consume(client: string, policy: Policy, arrival: Arrival, delivery: Delivery) returns (r: Option<Decision>)
      requires ValidPolicy(policy)
      modifies this`budgets
      ensures budgets == Charged(old(budgets), client, policy, arrival, delivery)
      ensures r == Answer(old(budgets), client, policy, arrival, delivery)
    {
      if delivery == NeverRan {
        return None;
      }
      var key := Key(client, policy.name);
      var count, expireAt := 1, arrival.time;
      if key in budgets && Alive(Some(budgets[key]), arrival) {
        count, expireAt := budgets[key].count + 1, budgets[key].expireAt;
      }
      if count == 1 {
        expireAt := arrival.time + Window(policy);
      }
      var ttl := expireAt - arrival.time;
      if ttl < 1 {
        expireAt, ttl := arrival.time + Window(policy), Window(policy);
      }
      budgets := budgets[key := Budget(count, expireAt)];
      r := if delivery == Answered then Decide(policy, count, ttl) else None;
    }

    /** The middleware for one request, charging its policies in order. */
    method Dispatch(path: string, client: string, arrivals: seq<Arrival>, deliveries: seq<Delivery>) returns (r: Response)
      requires ValidConfig(config)
      requires |arrivals| == |deliveries| == |PoliciesForPath(config, path)|
      modifies this`budgets
      ensures (budgets, r) == Serve(old(budgets), client, PoliciesForPath(config, path), arrivals, deliveries, [])
    {
      var policies := PoliciesForPath(config, path);
      if policies == [] {
        return PassedOn;
      }
      var decisions := [];
      for i := 0 to |policies|
        invariant |decisions| == i
        invariant Serve(budgets, client, policies[i..], arrivals[i..], deliveries[i..], decisions)
               == Serve(old(budgets), client, policies, arrivals, deliveries, [])
      {
        var decision := Consume(client, policies[i], arrivals[i], deliveries[i]);
        if decision.None? {
          return Unavailable;
        }
        decisions := decisions + [decision.value];
        if !decision.value.allowed {
          return TooMany(decision.value);
        }
      }
      r := Handled(Effective(decisions));
    }
  }

  /** Charge the policies in order; stop at the first that denies or cannot answer. */
  function Serve(
    budgets: Budgets, client: string, policies: seq<Policy>, arrivals: seq<Arrival>, deliveries: seq<Delivery>,
    decisions: seq<Decision>): (Budgets, Response)
    requires |arrivals| == |deliveries| == |policies| && forall i :: 0 <= i < |policies| ==> ValidPolicy(policies[i])
    decreases |policies|
  {
    if policies == [] then (budgets, if decisions == [] then PassedOn else Handled(Effective(decisions)))
    else
      var budgets' := Charged(budgets, client, policies[0], arrivals[0], deliveries[0]);
      var answer := Answer(budgets, client, policies[0], arrivals[0], deliveries[0]);
      if answer.None? then (budgets', Unavailable)
      else if !answer.value.allowed then (budgets', TooMany(answer.value))
      else Serve(budgets', client, policies[1..], arrivals[1..], deliveries[1..], decisions + [answer.value])
  }

  // ---- concurrent calls ----

  datatype Ending = Served | Denied | Failed

  /** One script execution: the call it charged, what it found, and whether its answer was delivered. */
  datatype Entry = Entry(call: nat, key: Key, arrival: Arrival, count: nat, answered: bool)

  /** A call with the log positions of the charges that admitted it so far. */
  datatype Call = Call(path: string, client: string, charges: seq<nat>, ending: Option<Ending>)

  datatype System = System(budgets: Budgets, calls: seq<Call>, log: seq<Entry>)

  datatype Step = Arrive(path: string, client: string) | Charge(call: nat, arrival: Arrival, delivery: Delivery)

  /** Scripts run one after the other, at the server's time. */
  predicate Enabled(c: Config, s: System, step: Step) {
    step.Charge? ==>
      && step.call < |s.calls| && s.calls[step.call].ending.None?
      && |s.calls[step.call].charges| < |PoliciesForPath(c, s.calls[step.call].path)|
      && (s.log == [] || s.log[|s.log| - 1].arrival.time <= step.arrival.time)
  }

  function AfterAnswer(c: Config, call: Call, answer: Option<Decision>, position: nat): Call {
    if answer.None? then call.(ending := Some(Failed))
    else if !answer.value.allowed then call.(ending := Some(Denied))
    else
      var charges := call.charges + [position];
      Call(call.path, call.client, charges, if |charges| == |PoliciesForPath(c, call.path)| then Some(Served) else None)
  }

  function Next(c: Config, s: System, step: Step): System
    requires ValidConfig(c) && Enabled(c, s, step)
  {
    match step
    case Arrive(path, client) =>
      s.(calls := s.calls + [Call(path, client, [], if PoliciesForPath(c, path) == [] then Some(Served) else None)])
    case Charge(i, a, d) =>
      var call := s.calls[i];
      var p := PoliciesForPath(c, call.path)[|call.charges|];
      var key := Key(call.client, p.name);
      var count := Consumed(Stored(s.budgets, key), a, Window(p)).count;
      System(Charged(s.budgets, call.client, p, a, d),
             s.calls[i := AfterAnswer(c, call, Answer(s.budgets, call.client, p, a, d), |s.log|)],
             s.log + if d == NeverRan then [] else [Entry(i, key, a, count, d == Answered)])
  }

  /** The system after the first `n` steps, if each of them was enabled. */
  function SystemAfter(c: Config, steps: seq<Step>, n: nat): Option<System>
    requires ValidConfig(c) && n <= |steps|
  {
    if n == 0 then Some(System(map[], [], []))
    else
      var before := SystemAfter(c, steps, n - 1);
      if before.Some? && Enabled(c, before.value, steps[n - 1]) then Some(Next(c, before.value, steps[n - 1])) else None
  }

  // ---- the log of one budget ----

  function KeyLog(log: seq<Entry>, key: Key): seq<Entry> {
    if log == [] then []
    else
      var n := |log| - 1;
      if log[n].key == key then KeyLog(log[..n], key) + [log[n]] else KeyLog(log[..n], key)
  }

  function Arrivals(log: seq<Entry>): (r: seq<Arrival>)
    ensures |r| == |log| && forall i :: 0 <= i < |r| ==> r[i] == log[i].arrival
  {
    seq(|log|, i requires 0 <= i < |log| => log[i].arrival)
  }

  lemma {:induction false} AfterIgnoresLater(a: seq<Arrival>, b: seq<Arrival>, n: nat, window: nat)
    requires n <= |a| && a <= b
    ensures After(b, n, window) == After(a, n, window)
  {
    if n > 0 {
      AfterIgnoresLater(a, b, n - 1, window);
    }
  }

  /** The counters and the counts in the log are what the arrivals at each budget make them. */
  ghost predicate CountsTrue(log: seq<Entry>, window: nat) {
    InOrder(Arrivals(log)) && forall i :: 0 <= i < |log| ==> log[i].count == CountOf(Arrivals(log), i, window)
  }

  ghost predicate KeyKept(s: System, key: Key, window: nat) {
    var log := KeyLog(s.log, key);
    CountsTrue(log, window) && Stored(s.budgets, key) == After(Arrivals(log), |log|, window)
  }

  ghost predicate TimesAscend(log: seq<Entry>) {
    forall i, j :: 0 <= i <= j < |log| ==> log[i].arrival.time <= log[j].arrival.time
  }

  lemma {:induction false} KeyLogInLog(log: seq<Entry>, key: Key, i: nat)
    requires i < |KeyLog(log, key)|
    ensures KeyLog(log, key)[i] in log && KeyLog(log, key)[i].key == key
  {
    var n := |log| - 1;
    if i < |KeyLog(log[..n], key)| {
      KeyLogInLog(log[..n], key, i);
    }
  }

  lemma CountsAppend(log: seq<Entry>, e: Entry, window: nat)
    requires CountsTrue(log, window) && e.count == Consumed(After(Arrivals(log), |log|, window), e.arrival, window).count
    requires forall i :: 0 <= i < |log| ==> log[i].arrival.time <= e.arrival.time
    ensures CountsTrue(log + [e], window)
    ensures After(Arrivals(log + [e]), |log| + 1, window) == Some(Consumed(After(Arrivals(log), |log|, window), e.arrival, window))
  {
    var all := log + [e];
    assert Arrivals(log) <= Arrivals(all);
    forall n: nat | n <= |log| ensures After(Arrivals(all), n, window) == After(Arrivals(log), n, window) {
      AfterIgnoresLater(Arrivals(log), Arrivals(all), n, window);
    }
  }

  lemma KeyLogAppend(log: seq<Entry>, e: Entry, key: Key)
    ensures KeyLog(log + [e], key) == if e.key == key then KeyLog(log, key) + [e] else KeyLog(log, key)
  {
    assert (log + [e])[..|log|] == log;
  }

  lemma KeyLogNoLater(log: seq<Entry>, e: Entry, key: Key)
    requires TimesAscend(log) && (log == [] || log[|log| - 1].arrival.time <= e.arrival.time)
    ensures forall i :: 0 <= i < |KeyLog(log, key)| ==> KeyLog(log, key)[i].arrival.time <= e.arrival.time
  {
    forall i | 0 <= i < |KeyLog(log, key)| ensures KeyLog(log, key)[i].arrival.time <= e.arrival.time {
      KeyLogInLog(log, key, i);
    }
  }

  /** The entry a step logs, if its script ran. */
  function Logged(c: Config, s: System, step: Step): Option<Entry>
    requires ValidConfig(c) && Enabled(c, s, step)
  {
    if step.Charge? && step.delivery != NeverRan then Some(Next(c, s, step).log[|s.log|]) else None
  }

  lemma StepOnBudget(c: Config, s: System, step: Step, key: Key)
    requires ValidConfig(c) && Enabled(c, s, step)
    ensures var e, budget, budget' := Logged(c, s, step), Stored(s.budgets, key), Stored(Next(c, s, step).budgets, key);
            if e.Some? && e.value.key == key then
              budget' == Some(Consumed(budget, step.arrival, Window(c.general)))
              && e.value.arrival == step.arrival && e.value.count == budget'.value.count
            else budget' == budget
  {
  }

  lemma StepOnLog(c: Config, s: System, step: Step)
    requires ValidConfig(c) && Enabled(c, s, step)
    ensures var e := Logged(c, s, step);
            Next(c, s, step).log == if e.Some? then s.log + [e.value] else s.log
    ensures Logged(c, s, step).Some? && s.log != [] ==> s.log[|s.log| - 1].arrival.time <= Logged(c, s, step).value.arrival.time
  {
  }

  lemma KeyStep(c: Config, s: System, step: Step, key: Key)
    requires ValidConfig(c) && Enabled(c, s, step) && TimesAscend(s.log) && KeyKept(s, key, Window(c.general))
    ensures KeyKept(Next(c, s, step), key, Window(c.general))
  {
    var log, e := KeyLog(s.log, key), Logged(c, s, step);
    StepOnBudget(c, s, step, key);
    StepOnLog(c, s, step);
    if e.Some? {
      KeyLogAppend(s.log, e.value, key);
      KeyLogNoLater(s.log, e.value, key);
      if e.value.key == key {
        CountsAppend(log, e.value, Window(c.general));
      }
    }
  }

  lemma TimesStep(c: Config, s: System, step: Step)
    requires ValidConfig(c) && Enabled(c, s, step) && TimesAscend(s.log)
    ensures TimesAscend(Next(c, s, step).log)
  {
  }

  lemma {:induction false} RunKeepsCounts(c: Config, steps: seq<Step>, n: nat, key: Key)
    requires ValidConfig(c) && n <= |steps| && SystemAfter(c, steps, n).Some?
    ensures KeyKept(SystemAfter(c, steps, n).value, key, Window(c.general))
    ensures TimesAscend(SystemAfter(c, steps, n).value.log)
  {
    if n > 0 {
      RunKeepsCounts(c, steps, n - 1, key);
      KeyStep(c, SystemAfter(c, steps, n - 1).value, steps[n - 1], key);
      TimesStep(c, SystemAfter(c, steps, n - 1).value, steps[n - 1]);
    }
  }

  // ---- what a served call has behind it ----

  /** Charge `k` of call `i` is an answered execution for its `k`-th policy, within the limit. */
  ghost predicate ChargeTrue(c: Config, s: System, i: nat, k: nat)
    requires i < |s.calls| && k < |s.calls[i].charges|
  {
    var call, policies := s.calls[i], PoliciesForPath(c, s.calls[i].path);
    && k < |policies| && call.charges[k] < |s.log|
    && var e := s.log[call.charges[k]];
       && e.call == i && e.key == Key(call.client, policies[k].name) && e.answered && e.count <= policies[k].requests
  }

  /** The charges of a call are true and in policy order, and only a fully charged call is served. */
  ghost predicate CallKept(c: Config, s: System, i: nat)
    requires i < |s.calls|
  {
    var call := s.calls[i];
    && (forall k {:trigger ChargeTrue(c, s, i, k)} :: 0 <= k < |call.charges| ==> ChargeTrue(c, s, i, k))
    && (forall k, l :: 0 <= k < l < |call.charges| ==> call.charges[k] < call.charges[l])
    && (call.ending == Some(Served) ==> |call.charges| == |PoliciesForPath(c, call.path)|)
  }

  lemma CallStep(c: Config, s: System, step: Step, i: nat)
    requires ValidConfig(c) && Enabled(c, s, step) && i < |Next(c, s, step).calls|
    requires i < |s.calls| ==> CallKept(c, s, i)
    ensures CallKept(c, Next(c, s, step), i)
  {
    var s' := Next(c, s, step);
    if i < |s.calls| {
      forall k | 0 <= k < |s'.calls[i].charges| ensures ChargeTrue(c, s', i, k) {
        if k < |s.calls[i].charges| {
          assert ChargeTrue(c, s, i, k);
        }
      }
      forall k, l | 0 <= k < l < |s'.calls[i].charges| ensures s'.calls[i].charges[k] < s'.calls[i].charges[l] {
        assert ChargeTrue(c, s, i, k);
      }
    }
  }

  /** A call is served only after each of its budgets admitted it, in policy order. */
  lemma {:induction false} RunKeepsCalls(c: Config, steps: seq<Step>, n: nat, i: nat)
    requires ValidConfig(c) && n <= |steps| && SystemAfter(c, steps, n).Some? && i < |SystemAfter(c, steps, n).value.calls|
    ensures CallKept(c, SystemAfter(c, steps, n).value, i)
  {
    if n > 0 {
      var before := SystemAfter(c, steps, n - 1).value;
      if i < |before.calls| {
        RunKeepsCalls(c, steps, n - 1, i);
      }
      CallStep(c, before, steps[n - 1], i);
    }
  }

  // ---- fewer than twice the limit in any window ----

  function KeyIndex(log: seq<Entry>, key: Key, p: nat): nat
    requires p <= |log|
  {
    |KeyLog(log[..p], key)|
  }

  lemma {:induction false} KeyLogAt(log: seq<Entry>, key: Key, p: nat)
    requires p < |log| && log[p].key == key
    ensures KeyIndex(log, key, p) < |KeyLog(log, key)| && KeyLog(log, key)[KeyIndex(log, key, p)] == log[p]
  {
    var n := |log| - 1;
    if p < n {
      KeyLogAt(log[..n], key, p);
      assert log[..n][..p] == log[..p];
    }
  }

  lemma KeyIndexGrows(log: seq<Entry>, key: Key, p: nat, q: nat)
    requires p < q <= |log| && log[p].key == key
    ensures KeyIndex(log, key, p) < KeyIndex(log, key, q)
  {
    KeyLogAt(log[..q], key, p);
    assert log[..q][..p] == log[..p];
  }

  /** The served calls of a client whose `k`-th charge fell into the window that starts at `t`. */
  ghost function ServedIn(c: Config, s: System, client: string, k: nat, t: int): set<nat>
    requires ValidConfig(c) && forall i: nat :: i < |s.calls| ==> CallKept(c, s, i)
  {
    set i: nat | i < |s.calls| && s.calls[i].client == client && s.calls[i].ending == Some(Served)
      && k < |PoliciesForPath(c, s.calls[i].path)| && ChargedIn(c, s, i, k, t)
  }

  ghost predicate ChargedIn(c: Config, s: System, i: nat, k: nat, t: int)
    requires ValidConfig(c) && i < |s.calls|
  {
    && k < |s.calls[i].charges| && s.calls[i].charges[k] < |s.log|
    && t <= s.log[s.calls[i].charges[k]].arrival.time < t + Window(c.general)
  }

  lemma {:induction false} InjectionBound(a: set<nat>, b: set<nat>, f: map<nat, nat>)
    requires a <= f.Keys && (forall i :: i in a ==> f[i] in b)
    requires forall i, j :: i in a && j in a && f[i] == f[j] ==> i == j
    ensures |a| <= |b|
  {
    if a != {} {
      var x :| x in a;
      InjectionBound(a - {x}, b - {f[x]}, f);
    }
  }

  ghost function ChargeIndex(s: System, key: Key, i: nat, k: nat): nat {
    if i < |s.calls| && k < |s.calls[i].charges| && s.calls[i].charges[k] <= |s.log|
    then KeyIndex(s.log, key, s.calls[i].charges[k]) else 0
  }

  lemma ChargeCounts(c: Config, s: System, p: Policy, client: string, i: nat, k: nat, t: int)
    requires ValidConfig(c) && (forall i: nat :: i < |s.calls| ==> CallKept(c, s, i)) && i in ServedIn(c, s, client, k, t)
    requires PoliciesForPath(c, s.calls[i].path)[k] == p && KeyKept(s, Key(client, p.name), Window(c.general))
    ensures ChargeTrue(c, s, i, k) && s.log[s.calls[i].charges[k]].key == Key(client, p.name)
    ensures ChargeIndex(s, Key(client, p.name), i, k) in
              AdmittedIn(Arrivals(KeyLog(s.log, Key(client, p.name))), t, Window(c.general), p.requests)
  {
    assert CallKept(c, s, i);
    assert ChargeTrue(c, s, i, k);
    KeyLogAt(s.log, Key(client, p.name), s.calls[i].charges[k]);
  }

  lemma ChargesApart(c: Config, s: System, key: Key, i: nat, j: nat, k: nat)
    requires i < |s.calls| && j < |s.calls| && k < |s.calls[i].charges| && k < |s.calls[j].charges|
    requires ChargeTrue(c, s, i, k) && ChargeTrue(c, s, j, k)
    requires s.log[s.calls[i].charges[k]].key == key == s.log[s.calls[j].charges[k]].key
    requires ChargeIndex(s, key, i, k) == ChargeIndex(s, key, j, k)
    ensures i == j
  {
    var p, q := s.calls[i].charges[k], s.calls[j].charges[k];
    if p < q {
      KeyIndexGrows(s.log, key, p, q);
    } else if q < p {
      KeyIndexGrows(s.log, key, q, p);
    }
  }

  lemma ServedBound(c: Config, s: System, p: Policy, client: string, k: nat, t: int)
    requires ValidConfig(c) && (forall i: nat :: i < |s.calls| ==> CallKept(c, s, i)) && p.requests >= 1
    requires forall i :: i in ServedIn(c, s, client, k, t) ==> PoliciesForPath(c, s.calls[i].path)[k] == p
    requires KeyKept(s, Key(client, p.name), Window(c.general))
    ensures |ServedIn(c, s, client, k, t)| <= 2 * p.requests - 1
  {
    var key, served := Key(client, p.name), ServedIn(c, s, client, k, t);
    var admitted := AdmittedIn(Arrivals(KeyLog(s.log, key)), t, Window(c.general), p.requests);
    FewerThanTwice(Arrivals(KeyLog(s.log, key)), t, Window(c.general), p.requests);
    var f := map i | i in served :: ChargeIndex(s, key, i, k);
    forall i | i in served ensures f[i] in admitted {
      ChargeCounts(c, s, p, client, i, k, t);
    }
    forall i, j | i in served && j in served && f[i] == f[j] ensures i == j {
      ChargeCounts(c, s, p, client, i, k, t);
      ChargeCounts(c, s, p, client, j, k, t);
      ChargesApart(c, s, key, i, j, k);
    }
    InjectionBound(served, admitted, f);
  }

  /**
   In every interleaving, any interval of one window length serves a client fewer than twice the limit
   of its `k`-th policy: the general one for `k == 0`, the expensive one for `k == 1`.
   */
  lemma ServedFewerThanTwice(c: Config, steps: seq<Step>, n: nat, client: string, k: nat, t: int)
    requires ValidConfig(c) && n <= |steps| && SystemAfter(c, steps, n).Some? && k < 2
    ensures forall i: nat :: i < |SystemAfter(c, steps, n).value.calls| ==> CallKept(c, SystemAfter(c, steps, n).value, i)
    ensures |ServedIn(c, SystemAfter(c, steps, n).value, client, k, t)|
            <= 2 * (if k == 0 then c.general else c.expensive).requests - 1
  {
    var s := SystemAfter(c, steps, n).value;
    forall i: nat | i < |s.calls| ensures CallKept(c, s, i) {
      RunKeepsCalls(c, steps, n, i);
    }
    var p := if k == 0 then c.general else c.expensive;
    RunKeepsCounts(c, steps, n, Key(client, p.name));
    ServedBound(c, s, p, client, k, t);
  }
}
