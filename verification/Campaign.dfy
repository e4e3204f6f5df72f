/**
 A campaign of reviewed captures of one query set: the union of their judged candidates, which must not
 contradict each other, and the candidate counts from capture to capture.
 */
module Campaign {
  import opened Lookups
  import opened RetrievalPool
  import opened Sequences
  import opened Wrappers

  /** The candidates by query and document. */
  type Union = map<Key, Candidate>

  datatype CampaignError = QuerySetsDiffer | QueryIdsDiffer | QueryChanged | ModesChanged | EvidenceChanged | GradesConflict

  /** A candidate without the rationale of its grade. */
  function Finding(c: Candidate): Candidate {
    c.(rationale := None)
  }

  /** The pool lists a candidate for this query and document. */
  ghost predicate Lists(p: Pool, k: Key, c: Candidate) {
    exists q :: q in p.queries && q.id == k.0 && c in q.candidates && c.document == k.1
  }

  predicate Distinct(p: Pool) {
    DistinctBy(p.queries, IdOf) && forall q | q in p.queries :: DistinctBy(q.candidates, DocumentOf)
  }

  predicate QueryKept(q: PooledQuery, p: Pool) {
    var current := Lookup(p.queries, IdOf, q.id);
    && current.Some? && current.value.definition == q.definition && current.value.slices == q.slices
    && Keys(current.value.runs, ModeOf) == Keys(q.runs, ModeOf)
  }

  predicate SameShape(reference: Pool, p: Pool) {
    && p.querySet == reference.querySet && Keys(p.queries, IdOf) == Keys(reference.queries, IdOf)
    && forall q | q in reference.queries :: QueryKept(q, p)
  }

  /** The captures nowhere disagree on the evidence or the grade of a candidate. */
  ghost predicate Consistent(pools: seq<Pool>) {
    forall p, r, k, c, d :: p in pools && r in pools && Lists(p, k, c) && Lists(r, k, d) ==> Finding(c) == Finding(d)
  }

  ghost predicate Compatible(pools: seq<Pool>)
    requires pools != []
  {
    (forall p :: p in pools ==> SameShape(pools[0], p)) && Consistent(pools)
  }

  // ---- merging one query ----

  predicate Fits(u: Union, id: string, cs: seq<Candidate>) {
    forall c | c in cs :: (id, c.document) in u ==> Finding(u[(id, c.document)]) == Finding(c)
  }

  /** `u` with the candidates it does not have yet. */
  function Add(u: Union, id: string, cs: seq<Candidate>): Union {
    if cs == [] then u
    else
      var before, k := Add(u, id, cs[..|cs| - 1]), (id, cs[|cs| - 1].document);
      if k in before then before else before[k := cs[|cs| - 1]]
  }

  lemma {:induction false} AddMeans(u: Union, id: string, cs: seq<Candidate>)
    requires DistinctBy(cs, DocumentOf)
    ensures var v := Add(u, id, cs);
            && (forall k :: k in u ==> k in v && v[k] == u[k])
            && (forall k :: k in v && k !in u ==> k.0 == id && v[k] in cs && v[k].document == k.1)
            && (forall c :: c in cs ==> (id, c.document) in v && ((id, c.document) !in u ==> v[(id, c.document)] == c))
  {
    if cs != [] {
      var before, last := cs[..|cs| - 1], cs[|cs| - 1];
      assert cs == before + [last];
      DistinctPositions(cs, DocumentOf);
      DistinctPositions(before, DocumentOf);
      ApartAppend(before, last, DocumentOf);
      AddMeans(u, id, before);
    }
  }

  /** The innermost loop of `_shared_union`. */
  method MergeQuery(u: Union, id: string, cs: seq<Candidate>) returns (conflict: Option<CampaignError>, merged: Union)
    requires DistinctBy(cs, DocumentOf)
    ensures conflict.None? <==> Fits(u, id, cs)
    ensures conflict.None? ==> merged == Add(u, id, cs)
  {
    merged := u;
    for j := 0 to |cs|
      invariant merged == Add(u, id, cs[..j]) && Fits(u, id, cs[..j])
    {
      var c, k := cs[j], (id, cs[j].document);
      assert cs[..j + 1] == cs[..j] + [c] && c in cs;
      NewDocument(u, id, cs, j);
      if k in merged {
        if Unjudged(merged[k]) != Unjudged(c) {
          return Some(EvidenceChanged), u;
        }
        if merged[k].grade != c.grade {
          return Some(GradesConflict), u;
        }
      } else {
        merged := merged[k := c];
      }
    }
    assert cs[..|cs|] == cs;
    conflict := None;
  }

  lemma OthersBefore(cs: seq<Candidate>, j: nat)
    requires DistinctBy(cs, DocumentOf) && j < |cs|
    ensures DistinctBy(cs[..j], DocumentOf)
    ensures forall c :: c in cs[..j] ==> c.document != cs[j].document
  {
    DistinctPositions(cs, DocumentOf);
    DistinctPositions(cs[..j], DocumentOf);
    forall c | c in cs[..j] ensures c.document != cs[j].document {
      var i :| 0 <= i < j && cs[i] == c;
      assert DocumentOf(cs[i]) != DocumentOf(cs[j]);
    }
  }

  /** At its turn a candidate is known exactly if it was before its query. */
  lemma NewDocument(u: Union, id: string, cs: seq<Candidate>, j: nat)
    requires DistinctBy(cs, DocumentOf) && j < |cs|
    ensures var k := (id, cs[j].document);
            && (k in Add(u, id, cs[..j]) <==> k in u)
            && (k in u ==> Add(u, id, cs[..j])[k] == u[k])
            && Add(u, id, cs[..j + 1]) == if k in u then Add(u, id, cs[..j]) else Add(u, id, cs[..j])[k := cs[j]]
  {
    OthersBefore(cs, j);
    AddMeans(u, id, cs[..j]);
    assert cs[..j + 1][..j] == cs[..j];
  }

  // ---- merging one pool ----

  /** `v` is `u` with what the pool lists for some of its queries, as far as it was new. */
  ghost predicate Merged(p: Pool, ids: set<string>, u: Union, v: Union) {
    && (forall k :: k in u ==> k in v && v[k] == u[k])
    && (forall k :: k in v && k !in u ==> k.0 in ids && Lists(p, k, v[k]))
    && (forall k, c {:trigger Lists(p, k, c)} :: Lists(p, k, c) && k.0 in ids && k !in u ==> k in v && v[k] == c)
  }

  ghost predicate FitsPool(p: Pool, ids: set<string>, u: Union) {
    forall k, c {:trigger Lists(p, k, c)} :: Lists(p, k, c) && k.0 in ids && k in u ==> Finding(u[k]) == Finding(c)
  }

  /** What a pool lists for a query is what its one entry for it holds. */
  lemma ListsAt(p: Pool, id: string, k: Key, c: Candidate)
    requires Distinct(p) && k.0 == id && Lookup(p.queries, IdOf, id).Some?
    ensures Lists(p, k, c) <==> c in Lookup(p.queries, IdOf, id).value.candidates && c.document == k.1
  {
    var current := Lookup(p.queries, IdOf, id).value;
    if Lists(p, k, c) {
      var q :| q in p.queries && q.id == k.0 && c in q.candidates && c.document == k.1;
      OneWithKey(p.queries, IdOf, q, current);
    }
  }

  lemma MergedNext(p: Pool, ids: set<string>, id: string, u: Union, v: Union)
    requires Distinct(p) && id !in ids && Lookup(p.queries, IdOf, id).Some? && Merged(p, ids, u, v) && FitsPool(p, ids, u)
    ensures var cs := Lookup(p.queries, IdOf, id).value.candidates;
            && DistinctBy(cs, DocumentOf)
            && (Fits(v, id, cs) <==> FitsPool(p, ids + {id}, u))
            && Merged(p, ids + {id}, u, Add(v, id, cs))
  {
    var cs := Lookup(p.queries, IdOf, id).value.candidates;
    AddMeans(v, id, cs);
    forall k: Key, c ensures k.0 == id ==> (Lists(p, k, c) <==> c in cs && c.document == k.1) {
      if k.0 == id {
        ListsAt(p, id, k, c);
      }
    }
    if FitsPool(p, ids + {id}, u) {
      forall c | c in cs && (id, c.document) in v ensures Finding(v[(id, c.document)]) == Finding(c) {
        assert Lists(p, (id, c.document), c);
      }
    }
  }

  /** The loop over the queries of one capture, after the checks of its query set and its query ids. */
  method MergePool(reference: Pool, p: Pool, u: Union) returns (conflict: Option<CampaignError>, merged: Union)
    requires Distinct(reference) && Distinct(p)
    ensures conflict.None? <==> SameShape(reference, p) && FitsPool(p, Keys(reference.queries, IdOf), u)
    ensures conflict.None? ==> Merged(p, Keys(reference.queries, IdOf), u, merged)
  {
    if p.querySet != reference.querySet {
      return Some(QuerySetsDiffer), u;
    }
    if Keys(p.queries, IdOf) != Keys(reference.queries, IdOf) {
      return Some(QueryIdsDiffer), u;
    }
    merged := u;
    var qs := reference.queries;
    for i := 0 to |qs|
      invariant forall q :: q in qs[..i] ==> QueryKept(q, p)
      invariant FitsPool(p, Keys(qs[..i], IdOf), u) && Merged(p, Keys(qs[..i], IdOf), u, merged)
    {
      var q := qs[i];
      assert q in qs;
      var current := Lookup(p.queries, IdOf, q.id);
      if current.None? {
        return Some(QueryIdsDiffer), u;
      }
      if current.value.definition != q.definition || current.value.slices != q.slices {
        return Some(QueryChanged), u;
      }
      if Keys(current.value.runs, ModeOf) != Keys(q.runs, ModeOf) {
        return Some(ModesChanged), u;
      }
      NextQuery(qs, i);
      MergedNext(p, Keys(qs[..i], IdOf), q.id, u, merged);
      var clash, more := MergeQuery(merged, q.id, current.value.candidates);
      if clash.Some? {
        return clash, u;
      }
      merged := more;
    }
    assert qs[..|qs|] == qs;
    conflict := None;
  }

  lemma NextQuery(qs: seq<PooledQuery>, i: nat)
    requires DistinctBy(qs, IdOf) && i < |qs|
    ensures Keys(qs[..i + 1], IdOf) == Keys(qs[..i], IdOf) + {qs[i].id} && qs[i].id !in Keys(qs[..i], IdOf)
    ensures Keys(qs[..i + 1], IdOf) <= Keys(qs, IdOf)
    ensures forall q :: q in qs[..i + 1] <==> q in qs[..i] || q == qs[i]
  {
    TakeNext(qs, i);
    assert (qs[..i] + [qs[i]])[..i] == qs[..i];
    KeysMove(qs[..i + 1], qs, IdOf);
    IdIsNew(qs, i);
  }

  lemma IdIsNew(qs: seq<PooledQuery>, i: nat)
    requires DistinctBy(qs, IdOf) && i < |qs|
    ensures qs[i].id !in Keys(qs[..i], IdOf)
  {
    KeysMember(qs[..i], IdOf, qs[i].id);
    DistinctPositions(qs, IdOf);
    forall q | q in qs[..i] ensures q.id != qs[i].id {
      var h :| 0 <= h < i && qs[h] == q;
      assert IdOf(qs[h]) != IdOf(qs[i]);
    }
  }

  // ---- the union over all captures ----

  /** One of the first captures lists it. */
  ghost predicate ListedBy(pools: seq<Pool>, n: nat, k: Key, c: Candidate) {
    exists h :: 0 <= h < n && h < |pools| && Lists(pools[h], k, c)
  }

  /**
   The union of the first `n` captures: nothing but what they list, everything they list up to rationales,
   and as the earliest capture lists it.
   */
  ghost predicate Gathers(pools: seq<Pool>, n: nat, u: Union)
    requires n <= |pools|
  {
    && (forall k {:trigger ListedBy(pools, n, k, u[k])} :: k in u ==> ListedBy(pools, n, k, u[k]))
    && (forall h, k, c {:trigger Lists(pools[h], k, c)} :: 0 <= h < n && Lists(pools[h], k, c) ==>
          k in u && Finding(u[k]) == Finding(c))
    && (forall h, k, c {:trigger Lists(pools[h], k, c), EarliestBy(pools, h, k, u)} ::
          0 <= h < n && Lists(pools[h], k, c) ==> EarliestBy(pools, h, k, u))
  }

  /** The candidate of the union is that of this capture or an earlier one. */
  ghost predicate EarliestBy(pools: seq<Pool>, h: nat, k: Key, u: Union) {
    k in u && ListedBy(pools, h + 1, k, u[k])
  }

  lemma ListedIds(p: Pool, k: Key, c: Candidate)
    requires Lists(p, k, c)
    ensures k.0 in Keys(p.queries, IdOf)
  {
    KeysMember(p.queries, IdOf, k.0);
    var q :| q in p.queries && q.id == k.0 && c in q.candidates && c.document == k.1;
    assert HasKey(p.queries, IdOf, k.0);
  }

  lemma GathersNext(pools: seq<Pool>, n: nat, ids: set<string>, u: Union, v: Union)
    requires n < |pools| && Gathers(pools, n, u) && ids == Keys(pools[n].queries, IdOf)
    requires Merged(pools[n], ids, u, v) && FitsPool(pools[n], ids, u)
    ensures Gathers(pools, n + 1, v)
  {
    forall k | k in v ensures ListedBy(pools, n + 1, k, v[k]) {
      if k in u {
        assert ListedBy(pools, n, k, u[k]);
      }
    }
    forall h, k, c | 0 <= h < n + 1 && Lists(pools[h], k, c)
      ensures k in v && Finding(v[k]) == Finding(c) && EarliestBy(pools, h, k, v)
    {
      ListedIds(pools[h], k, c);
      if h == n && k in u {
        assert ListedBy(pools, n, k, u[k]);
      } else if h < n {
        assert EarliestBy(pools, h, k, u);
      }
    }
  }

  lemma MisfitConflicts(pools: seq<Pool>, n: nat, ids: set<string>, u: Union)
    requires n < |pools| && Gathers(pools, n, u) && !FitsPool(pools[n], ids, u)
    ensures !Consistent(pools)
  {
    var k, c :| Lists(pools[n], k, c) && k.0 in ids && k in u && Finding(u[k]) != Finding(c);
    assert ListedBy(pools, n, k, u[k]);
    var h :| 0 <= h < n && Lists(pools[h], k, u[k]);
    assert pools[h] in pools && pools[n] in pools;
  }

  lemma GathersConsistent(pools: seq<Pool>, u: Union)
    requires Gathers(pools, |pools|, u)
    ensures Consistent(pools)
  {
    forall p, r, k, c, d | p in pools && r in pools && Lists(p, k, c) && Lists(r, k, d) ensures Finding(c) == Finding(d) {
      var h :| 0 <= h < |pools| && pools[h] == p;
      var i :| 0 <= i < |pools| && pools[i] == r;
      assert Lists(pools[h], k, c) && Lists(pools[i], k, d);
    }
  }

  /** The first `n` captures have one shape and are gathered. */
  ghost predicate Progress(pools: seq<Pool>, n: nat, u: Union)
    requires pools != [] && n <= |pools|
  {
    (forall h :: 0 <= h < n ==> SameShape(pools[0], pools[h])) && Gathers(pools, n, u)
  }

  /** The capture is refused for its shape or for a conflict with what is gathered. */
  ghost predicate Refused(pools: seq<Pool>, n: nat, u: Union)
    requires n < |pools|
  {
    !(SameShape(pools[0], pools[n]) && FitsPool(pools[n], Keys(pools[0].queries, IdOf), u))
  }

  lemma RefusedIncompatible(pools: seq<Pool>, n: nat, u: Union)
    requires n < |pools| && Progress(pools, n, u) && Refused(pools, n, u)
    ensures !Compatible(pools)
  {
    assert pools[n] in pools;
    if SameShape(pools[0], pools[n]) {
      MisfitConflicts(pools, n, Keys(pools[0].queries, IdOf), u);
    }
  }

  lemma ProgressNext(pools: seq<Pool>, n: nat, u: Union, v: Union)
    requires n < |pools| && Progress(pools, n, u) && !Refused(pools, n, u)
    requires Merged(pools[n], Keys(pools[0].queries, IdOf), u, v)
    ensures Progress(pools, n + 1, v)
  {
    GathersNext(pools, n, Keys(pools[0].queries, IdOf), u, v);
  }

  lemma ProgressDone(pools: seq<Pool>, u: Union)
    requires pools != [] && Progress(pools, |pools|, u)
    ensures Compatible(pools) && Gathers(pools, |pools|, u)
  {
    GathersConsistent(pools, u);
  }

  /** `_shared_union`: succeeds exactly for captures of one shape that do not contradict each other. */
  method SharedUnion(pools: seq<Pool>) returns (r: Result<Union, CampaignError>)
    requires pools != [] && forall i :: 0 <= i < |pools| ==> Distinct(pools[i])
    ensures r.Success? <==> Compatible(pools)
    ensures r.Success? ==> Gathers(pools, |pools|, r.value)
  {
    var u: Union := map[];
    for n := 0 to |pools|
      invariant Progress(pools, n, u)
    {
      var conflict, merged := MergePool(pools[0], pools[n], u);
      if conflict.Some? {
        RefusedIncompatible(pools, n, u);
        return Failure(conflict.value);
      }
      ProgressNext(pools, n, u, merged);
      u := merged;
    }
    ProgressDone(pools, u);
    r := Success(u);
  }
}
