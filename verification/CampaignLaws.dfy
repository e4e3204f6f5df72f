/** What the union of a campaign does not depend on, and how the candidate counts of its captures add up. */
module CampaignLaws {
  import opened Adjudication
  import opened Campaign
  import opened Lookups
  import opened Ordering
  import opened RetrievalPool

  // ---- the order of captures ----

  /** Two captures of the shape of a third have one shape. */
  lemma ShapesAgree(a: Pool, p: Pool, r: Pool)
    requires Distinct(p) && SameShape(a, p) && SameShape(a, r)
    ensures SameShape(p, r)
  {
    forall q | q in p.queries ensures QueryKept(q, r) {
      KeysMember(p.queries, IdOf, q.id);
      assert HasKey(p.queries, IdOf, q.id);
      KeysMember(a.queries, IdOf, q.id);
      var origin :| origin in a.queries && IdOf(origin) == q.id;
      assert QueryKept(origin, p) && QueryKept(origin, r);
      OneWithKey(p.queries, IdOf, q, Lookup(p.queries, IdOf, q.id).value);
    }
  }

  /** Whether captures fit together does not depend on their order. */
  lemma CompatibleForgetsOrder(pools: seq<Pool>, others: seq<Pool>)
    requires pools != [] && multiset(pools) == multiset(others) && Compatible(pools)
    requires forall p :: p in pools ==> Distinct(p)
    ensures others != [] && Compatible(others)
  {
    SameMembers(pools, others);
    assert others[0] in others;
    forall p | p in others ensures SameShape(others[0], p) {
      ShapesAgree(pools[0], others[0], p);
    }
  }

  lemma GathersListed(pools: seq<Pool>, u: Union, p: Pool, k: Key, c: Candidate)
    requires Gathers(pools, |pools|, u) && p in pools && Lists(p, k, c)
    ensures k in u && Finding(u[k]) == Finding(c)
  {
    var h :| 0 <= h < |pools| && pools[h] == p;
    assert Lists(pools[h], k, c);
  }

  lemma GatheredFrom(pools: seq<Pool>, u: Union, k: Key) returns (p: Pool)
    requires Gathers(pools, |pools|, u) && k in u
    ensures p in pools && Lists(p, k, u[k])
  {
    assert ListedBy(pools, |pools|, k, u[k]);
    var h :| 0 <= h < |pools| && Lists(pools[h], k, u[k]);
    p := pools[h];
  }

  lemma FoundAlike(pools: seq<Pool>, others: seq<Pool>, u: Union, v: Union, k: Key)
    requires (forall p :: p in pools ==> p in others) && k in u
    requires Gathers(pools, |pools|, u) && Gathers(others, |others|, v)
    ensures k in v && Finding(u[k]) == Finding(v[k])
  {
    var p := GatheredFrom(pools, u, k);
    GathersListed(others, v, p, k, u[k]);
  }

  /** Up to rationales, which its digest leaves out, the union does not depend on the order either. */
  lemma UnionForgetsOrder(pools: seq<Pool>, others: seq<Pool>, u: Union, v: Union, k: Key)
    requires multiset(pools) == multiset(others) && Gathers(pools, |pools|, u) && Gathers(others, |others|, v)
    ensures k in u <==> k in v
    ensures k in u ==> Finding(u[k]) == Finding(v[k])
  {
    SameMembers(pools, others);
    if k in u {
      FoundAlike(pools, others, u, v, k);
    } else if k in v {
      FoundAlike(others, pools, v, u, k);
    }
  }

  // ---- aligned captures ----

  function DocumentsFor(u: Union, id: string): set<string> {
    set k | k in u && k.0 == id :: k.1
  }

  /** `_align_pool` for one query: every candidate of the union, by document. */
  function Aligned(q: PooledQuery, u: Union): PooledQuery {
    var documents := SortedKeys(DocumentsFor(u, q.id));
    q.(candidates := seq(|documents|, i requires 0 <= i < |documents| => assert documents[i] in documents; u[(q.id, documents[i])]))
  }

  /** Every candidate stands under its own document. */
  ghost predicate Filed(u: Union) {
    forall k :: k in u ==> u[k].document == k.1
  }

  lemma GatheredFiled(pools: seq<Pool>, u: Union)
    requires Gathers(pools, |pools|, u)
    ensures Filed(u)
  {
    forall k | k in u ensures u[k].document == k.1 {
      var p := GatheredFrom(pools, u, k);
    }
  }

  lemma FiledDistinct(u: Union, q: PooledQuery)
    requires Filed(u)
    ensures DistinctBy(Aligned(q, u).candidates, DocumentOf)
  {
    var documents, aligned := SortedKeys(DocumentsFor(u, q.id)), Aligned(q, u).candidates;
    forall i | 0 <= i < |aligned| ensures DocumentOf(aligned[i]) == documents[i] {
      assert documents[i] in documents;
      assert aligned[i] == u[(q.id, documents[i])];
    }
    forall i, j | 0 <= i < j < |aligned| ensures DocumentOf(aligned[i]) != DocumentOf(aligned[j]) {
      LessAsymmetricAt(documents, i, j);
    }
    DistinctPositions(aligned, DocumentOf);
  }

  /** An aligned query lists no document twice. */
  lemma AlignedDistinct(pools: seq<Pool>, u: Union, q: PooledQuery)
    requires Gathers(pools, |pools|, u)
    ensures DistinctBy(Aligned(q, u).candidates, DocumentOf)
  {
    GatheredFiled(pools, u);
    FiledDistinct(u, q);
  }

  /** It still lists each of its own candidates, graded as it was. */
  lemma AlignedKeeps(pools: seq<Pool>, u: Union, p: Pool, q: PooledQuery, c: Candidate)
    requires Gathers(pools, |pools|, u) && p in pools && q in p.queries && c in q.candidates
    ensures exists d :: d in Aligned(q, u).candidates && Finding(d) == Finding(c)
  {
    assert Lists(p, (q.id, c.document), c);
    GathersListed(pools, u, p, (q.id, c.document), c);
    AlignedLists(u, q, c.document);
  }

  lemma AlignedLists(u: Union, q: PooledQuery, document: string)
    requires (q.id, document) in u
    ensures u[(q.id, document)] in Aligned(q, u).candidates
  {
    assert (q.id, document).1 in DocumentsFor(u, q.id);
    var documents := SortedKeys(DocumentsFor(u, q.id));
    var i :| 0 <= i < |documents| && documents[i] == document;
    assert Aligned(q, u).candidates[i] == u[(q.id, document)];
  }

  /** `_align_pool` */
  function AlignedPool(p: Pool, u: Union): Pool {
    p.(queries := AlignedAll(p.queries, u))
  }

  function AlignedAll(qs: seq<PooledQuery>, u: Union): (r: seq<PooledQuery>)
    ensures |r| == |qs| && forall i :: 0 <= i < |r| ==> r[i] == Aligned(qs[i], u)
  {
    seq(|qs|, i requires 0 <= i < |qs| => Aligned(qs[i], u))
  }

  /** The captures of a campaign: valid pools, reviewed throughout. */
  ghost predicate AllReviewed(platform: Platform, pools: seq<Pool>) {
    forall p :: p in pools ==> ValidPool(platform, p) && p.review.Some?
  }

  lemma AlignedGraded(platform: Platform, pools: seq<Pool>, u: Union, q: PooledQuery, d: Candidate)
    requires AllReviewed(platform, pools) && Gathers(pools, |pools|, u) && d in Aligned(q, u).candidates
    ensures IsGraded(d)
  {
    var documents := SortedKeys(DocumentsFor(u, q.id));
    var i :| 0 <= i < |documents| && Aligned(q, u).candidates[i] == d;
    assert documents[i] in documents;
    var p := GatheredFrom(pools, u, (q.id, documents[i]));
    var origin :| origin in p.queries && origin.id == q.id && d in origin.candidates && d.document == documents[i];
    assert ValidQuery(origin, p.review.Some?);
  }

  /** What was a candidate of a query still is, so the aligned candidates cover its runs. */
  lemma AlignedCovers(pools: seq<Pool>, u: Union, p: Pool, q: PooledQuery, document: string)
    requires Gathers(pools, |pools|, u) && p in pools && q in p.queries && document in Keys(q.candidates, DocumentOf)
    ensures document in Keys(Aligned(q, u).candidates, DocumentOf)
  {
    KeysMember(q.candidates, DocumentOf, document);
    var c :| c in q.candidates && DocumentOf(c) == document;
    assert Lists(p, (q.id, document), c);
    GathersListed(pools, u, p, (q.id, document), c);
    GatheredFiled(pools, u);
    AlignedLists(u, q, document);
    KeysMember(Aligned(q, u).candidates, DocumentOf, document);
    assert DocumentOf(u[(q.id, document)]) == document;
  }

  lemma AlignedRuns(pools: seq<Pool>, u: Union, p: Pool, q: PooledQuery)
    requires Gathers(pools, |pools|, u) && p in pools && q in p.queries && ValidRuns(q)
    ensures ValidRuns(Aligned(q, u))
  {
    forall r, d | r in q.runs && d in r.documents ensures d in Keys(Aligned(q, u).candidates, DocumentOf) {
      AlignedCovers(pools, u, p, q, d);
    }
  }

  lemma AlignedQueryValid(platform: Platform, pools: seq<Pool>, u: Union, p: Pool, q: PooledQuery)
    requires AllReviewed(platform, pools) && Gathers(pools, |pools|, u) && p in pools && q in p.queries
    ensures ValidQuery(Aligned(q, u), true)
  {
    assert ValidQuery(q, p.review.Some?);
    AlignedDistinct(pools, u, q);
    AlignedRuns(pools, u, p, q);
    forall d | d in Aligned(q, u).candidates ensures IsGraded(d) {
      AlignedGraded(platform, pools, u, q, d);
    }
  }

  /** Every capture aligned with the union passes the validators of pools again. */
  lemma AlignedPoolValid(platform: Platform, pools: seq<Pool>, u: Union, p: Pool)
    requires AllReviewed(platform, pools) && Gathers(pools, |pools|, u) && p in pools
    ensures ValidPool(platform, AlignedPool(p, u))
  {
    var aligned := AlignedAll(p.queries, u);
    SameKeys(p.queries, aligned, IdOf);
    RunsStayCoherent(p.queries, aligned);
    forall q | q in aligned ensures ValidQuery(q, true) {
      var i :| 0 <= i < |aligned| && aligned[i] == q;
      assert p.queries[i] in p.queries;
      AlignedQueryValid(platform, pools, u, p, p.queries[i]);
    }
  }

  lemma LessAsymmetricAt(xs: seq<string>, i: nat, j: nat)
    requires StrictlyAscending(xs) && i < j < |xs|
    ensures xs[i] != xs[j]
  {
    LessAsymmetric(xs[i], xs[j]);
  }

  // ---- candidate counts from capture to capture ----

  datatype Counts = Counts(candidates: nat, overlap: nat, added: nat, dropped: nat)

  /** `_candidate_keys` */
  function CandidateKeys(p: Pool): set<Key> {
    set q, c | q in p.queries && c in q.candidates :: (q.id, c.document)
  }

  function Previous<T>(sets: seq<set<T>>, i: nat): set<T>
    requires i < |sets|
  {
    if i == 0 then {} else sets[i - 1]
  }

  function CountsAt<T>(sets: seq<set<T>>, i: nat): Counts
    requires i < |sets|
  {
    var now, before := sets[i], Previous(sets, i);
    Counts(|now|, |now * before|, |now - before|, |before - now|)
  }

  lemma SplitCount<T>(a: set<T>, b: set<T>)
    ensures |a * b| + |a - b| == |a|
  {
    assert (a * b) + (a - b) == a && (a * b) !! (a - b);
  }

  /** The checks the campaign makes of its counts. */
  lemma ChainValid<T>(sets: seq<set<T>>, i: nat)
    requires i < |sets|
    ensures var c := CountsAt(sets, i);
            && c.overlap + c.added == c.candidates
            && (i == 0 ==> c.overlap == 0 && c.dropped == 0 && c.added == c.candidates)
            && (i > 0 ==> c.overlap + c.dropped == CountsAt(sets, i - 1).candidates)
  {
    var now, before := sets[i], Previous(sets, i);
    SplitCount(now, before);
    SplitCount(before, now);
    assert now * before == before * now;
    if i == 0 {
      assert now - before == now && before - now == {};
    }
  }

  function Added<T>(sets: seq<set<T>>, n: nat): nat
    requires n <= |sets|
  {
    if n == 0 then 0 else Added(sets, n - 1) + CountsAt(sets, n - 1).added
  }

  function Dropped<T>(sets: seq<set<T>>, n: nat): nat
    requires n <= |sets|
  {
    if n == 0 then 0 else Dropped(sets, n - 1) + CountsAt(sets, n - 1).dropped
  }

  /** All additions less all removals is what the last capture has. */
  lemma {:induction false} CountsTelescope<T>(sets: seq<set<T>>, n: nat)
    requires 0 < n <= |sets|
    ensures Added(sets, n) - Dropped(sets, n) == |sets[n - 1]|
  {
    ChainValid(sets, n - 1);
    if n > 1 {
      CountsTelescope(sets, n - 1);
    } else {
      assert Added(sets, 0) == 0 && Dropped(sets, 0) == 0;
    }
  }

  function UnionOf<T>(sets: seq<set<T>>, n: nat): set<T>
    requires n <= |sets|
  {
    if n == 0 then {} else UnionOf(sets, n - 1) + sets[n - 1]
  }

  /** What is listed again after an earlier capture was listed in the capture just before. */
  ghost predicate NoneReturns<T>(sets: seq<set<T>>, n: nat)
    requires n <= |sets|
  {
    forall i, j, x {:trigger x in sets[i], x in sets[j]} :: 0 <= i < j < n && x in sets[i] && x in sets[j] ==> x in sets[j - 1]
  }

  lemma {:induction false} UnionMember<T>(sets: seq<set<T>>, n: nat, x: T)
    requires n <= |sets|
    ensures x in UnionOf(sets, n) <==> exists i :: 0 <= i < n && x in sets[i]
  {
    if n > 0 {
      UnionMember(sets, n - 1, x);
    }
  }

  /** A capture adds at least what is new to the campaign, and no more exactly when nothing in it returns. */
  lemma NewAndReturning<T>(sets: seq<set<T>>, n: nat)
    requires n < |sets|
    ensures |UnionOf(sets, n + 1)| - |UnionOf(sets, n)| <= CountsAt(sets, n).added
    ensures |UnionOf(sets, n + 1)| - |UnionOf(sets, n)| == CountsAt(sets, n).added <==>
            forall x :: x in sets[n] && x in UnionOf(sets, n) ==> x in Previous(sets, n)
  {
    var now, before, all := sets[n], Previous(sets, n), UnionOf(sets, n);
    assert before <= all by {
      if n > 0 {
        assert all == UnionOf(sets, n - 1) + sets[n - 1];
      }
    }
    assert all + now == all + (now - all) && all !! (now - all);
    assert now - all <= now - before;
    SubsetSizes(now - all, now - before);
  }

  lemma SubsetSizes<T>(a: set<T>, b: set<T>)
    requires a <= b
    ensures |a| <= |b| && (|a| == |b| <==> a == b)
  {
    if a != b {
      StrictSubsetSmaller(a, b);
    }
  }

  /**
   The campaign-wide union has at most as many candidates as were added in all, and exactly as many when
   no candidate returns after it was dropped.
   */
  lemma {:induction false} UnionAtMostAdded<T>(sets: seq<set<T>>, n: nat)
    requires n <= |sets|
    ensures |UnionOf(sets, n)| <= Added(sets, n)
    ensures |UnionOf(sets, n)| == Added(sets, n) <==> NoneReturns(sets, n)
  {
    if n > 0 {
      UnionAtMostAdded(sets, n - 1);
      NewAndReturning(sets, n - 1);
      ReturnsSplit(sets, n - 1);
    }
  }

  lemma ReturnsSplit<T>(sets: seq<set<T>>, n: nat)
    requires n < |sets|
    ensures NoneReturns(sets, n + 1) <==>
            NoneReturns(sets, n) && forall x :: x in sets[n] && x in UnionOf(sets, n) ==> x in Previous(sets, n)
  {
    forall x ensures x in UnionOf(sets, n) <==> exists i :: 0 <= i < n && x in sets[i] {
      UnionMember(sets, n, x);
    }
  }

  /** No capture has more candidates than the union. */
  lemma UnionCoversCaptures<T>(sets: seq<set<T>>, n: nat, i: nat)
    requires i < n <= |sets|
    ensures |sets[i]| <= |UnionOf(sets, n)|
  {
    forall x | x in sets[i] ensures x in UnionOf(sets, n) {
      UnionMember(sets, n, x);
    }
    SubsetSizes(sets[i], UnionOf(sets, n));
  }

  function KeySets(pools: seq<Pool>): (sets: seq<set<Key>>)
    ensures |sets| == |pools| && forall i :: 0 <= i < |pools| ==> sets[i] == CandidateKeys(pools[i])
  {
    seq(|pools|, i requires 0 <= i < |pools| => CandidateKeys(pools[i]))
  }

  lemma KeyListed(p: Pool, k: Key)
    ensures k in CandidateKeys(p) <==> exists c :: Lists(p, k, c)
  {
    if k in CandidateKeys(p) {
      var q, c :| q in p.queries && c in q.candidates && k == (q.id, c.document);
      assert Lists(p, k, c);
    }
  }

  /** The counts are about the union built: it has the candidates of all captures. */
  lemma UnionCount(pools: seq<Pool>, u: Union, k: Key)
    requires Gathers(pools, |pools|, u)
    ensures k in u <==> k in UnionOf(KeySets(pools), |pools|)
  {
    var sets := KeySets(pools);
    UnionMember(sets, |pools|, k);
    if k in u {
      var p := GatheredFrom(pools, u, k);
      KeyListed(p, k);
      var i :| 0 <= i < |pools| && pools[i] == p;
      assert k in sets[i];
    }
    if k in UnionOf(sets, |pools|) {
      var i :| 0 <= i < |pools| && k in sets[i];
      KeyListed(pools[i], k);
      var c :| Lists(pools[i], k, c);
    }
  }

  /** The counting loop of `build_campaign`. */
  method CountCaptures(keySets: seq<set<Key>>) returns (counts: seq<Counts>)
    ensures |counts| == |keySets| && forall i :: 0 <= i < |keySets| ==> counts[i] == CountsAt(keySets, i)
  {
    counts := [];
    for i := 0 to |keySets|
      invariant |counts| == i && forall k :: 0 <= k < i ==> counts[k] == CountsAt(keySets, k)
    {
      var keys := keySets[i];
      var previous := if i > 0 then keySets[i - 1] else {};
      counts := counts + [Counts(|keys|, |keys * previous|, |keys - previous|, |previous - keys|)];
    }
  }
}
