/** The freshness endpoint on top of a store: whatever polls were recorded, evaluation succeeds. */
module FreshnessOfStore {
  import opened Freshness
  import opened PollStore
  import opened SourcePoll
  import opened UtcTime
  import opened Wrappers

  /** Polls are recorded under the policies the endpoint evaluates with. */
  ghost predicate RecordedUnder(policies: seq<Policy>, ops: seq<Op>) {
    forall op :: op in ops && op.Start? ==> op.policy in policies
  }

  lemma {:induction false} StatePolicy(policies: seq<Policy>, ops: seq<Op>, source: Source)
    requires RecordedUnder(policies, ops)
    ensures source in Run(ops).states ==> Run(ops).states[source].policy in policies
  {
    if ops != [] {
      var before := ops[..|ops| - 1];
      StatePolicy(policies, before, source);
      assert ops[|ops| - 1] in ops && forall op :: op in before ==> op in ops;
    }
  }

  function SourcesOf(policies: seq<Policy>): (sources: seq<Source>)
    ensures |sources| == |policies| && forall i :: 0 <= i < |sources| ==> sources[i] == policies[i].source
  {
    seq(|policies|, i requires 0 <= i < |policies| => policies[i].source)
  }

  ghost predicate Distinct(sources: seq<Source>) {
    forall i, j :: 0 <= i < j < |sources| ==> sources[i] != sources[j]
  }

  /** What is found by source is what the store holds. */
  ghost predicate FoundIn(s: Store, sources: seq<Source>, states: seq<PollState>) {
    forall x :: x in BySource(states) ==> x in sources && x in s.states && BySource(states)[x] == s.states[x]
  }

  /** States loaded for distinct sources are found again by source. */
  lemma {:induction false} LoadedBySource(s: Store, sources: seq<Source>)
    requires Distinct(sources) && forall source :: SoundAt(s, source)
    ensures var states := Loaded(s, sources);
            && (forall k :: 0 <= k < |states| ==> SoundState(states[k]))
            && |BySource(states)| == |states|
            && FoundIn(s, sources, states)
  {
    if sources != [] {
      var n := |sources| - 1;
      var last, before := sources[n], Loaded(s, sources[..n]);
      LoadedBySource(s, sources[..n]);
      assert SoundAt(s, last);
      assert last !in sources[..n];
      if last in s.states {
        var states := before + [s.states[last]];
        assert states[..|states| - 1] == before;
        assert BySource(states) == BySource(before)[last := s.states[last]];
        assert BySource(states).Keys == BySource(before).Keys + {last};
      } else {
        assert before + [] == before;
      }
    }
  }

  lemma CanonicalDistinct(policies: seq<Policy>)
    requires CanonicalPolicies(policies)
    ensures Distinct(SourcesOf(policies))
  {
    forall i, j | 0 <= i < j < |policies| ensures policies[i].source != policies[j].source {
      assert Rank(policies[i].source) < Rank(policies[j].source);
    }
  }

  lemma FoundPolicies(policies: seq<Policy>, ops: seq<Op>, states: seq<PollState>, k: nat)
    requires CanonicalPolicies(policies) && RecordedUnder(policies, ops) && k < |policies|
    requires FoundIn(Run(ops), SourcesOf(policies), states) && SoundAt(Run(ops), policies[k].source)
    ensures StateFor(states, policies[k].source).Some? ==> StateFor(states, policies[k].source).value.policy == policies[k]
  {
    if StateFor(states, policies[k].source).Some? {
      StatePolicy(policies, ops, policies[k].source);
      SamePolicy(policies, k, Run(ops).states[policies[k].source].policy);
    }
  }

  lemma FoundMatched(policies: seq<Policy>, s: Store, states: seq<PollState>, x: Source)
    requires FoundIn(s, SourcesOf(policies), states) && x in BySource(states)
    ensures HasPolicy(policies, x)
  {
    var i :| 0 <= i < |policies| && SourcesOf(policies)[i] == x;
    assert policies[i].source == x;
  }

  /**
   For every run of polls recorded under one to four canonical policies and at every moment, the
   endpoint's evaluation succeeds and its response meets the server's and the browser's contract.
   */
  lemma StoreStatesEvaluate(policies: seq<Policy>, ops: seq<Op>, now: Utc)
    requires policies != [] && CanonicalPolicies(policies) && forall k :: 0 <= k < |policies| ==> ValidPolicy(policies[k])
    requires (forall i :: 0 <= i < |ops| ==> SoundOp(ops[i])) && RecordedUnder(policies, ops) && Valid(now)
    ensures SoundInput(policies, Loaded(Run(ops), SourcesOf(policies)))
    ensures var r := Evaluate(policies, Loaded(Run(ops), SourcesOf(policies)), now);
            r.Success? && ValidResponse(r.value) && BrowserAccepts(r.value)
  {
    var s, states := Run(ops), Loaded(Run(ops), SourcesOf(policies));
    forall source ensures SoundAt(s, source) {
      RunSound(ops, source);
    }
    CanonicalDistinct(policies);
    LoadedBySource(s, SourcesOf(policies));
    forall x | x in BySource(states) ensures HasPolicy(policies, x) {
      FoundMatched(policies, s, states, x);
    }
    forall k | 0 <= k < |policies| && StateFor(states, policies[k].source).Some?
      ensures StateFor(states, policies[k].source).value.policy == policies[k]
    {
      FoundPolicies(policies, ops, states, k);
    }
    EvaluationMeetsContracts(policies, states, now);
  }

  lemma SamePolicy(policies: seq<Policy>, k: nat, p: Policy)
    requires CanonicalPolicies(policies) && k < |policies| && p in policies && p.source == policies[k].source
    ensures p == policies[k]
  {
    var i :| 0 <= i < |policies| && policies[i] == p;
  }
}
