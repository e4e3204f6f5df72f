/** What every built pack keeps, and exactly when the validator accepts it. */
module EvidencePackLaws {
  import opened Citations
  import opened EvidencePack
  import opened Lookups
  import opened Sorting
  import opened Wrappers

  /** A hit that can be included at all. */
  predicate Eligible(hit: Hit) {
    hit.citation.status == Traceable && hit.citation.url.Some? && hit.citation.sourceField.Some? && hit.document != ""
  }

  predicate Full(b: Budget, p: Progress) {
    |p.items| >= b.maxItems || p.characters >= b.maxTotal
  }

  lemma IncludedWhen(hit: Hit, b: Budget, p: Progress)
    ensures ReasonFor(hit, b, p).None? <==> Eligible(hit) && !Full(b, p)
  {
  }

  // ---- ranks ----

  lemma AppendItemRank(items: seq<Item>, item: Item)
    ensures ItemRanks(items + [item]) == ItemRanks(items) + [item.rank]
  {
  }

  lemma AppendExclusionRank(exclusions: seq<Exclusion>, e: Exclusion)
    ensures ExclusionRanks(exclusions + [e]) == ExclusionRanks(exclusions) + [e.rank]
  {
  }

  /** Two ascending lists that together hold 1 to n, each once. */
  ghost predicate Partitioned(xs: seq<int>, ys: seq<int>, n: nat) {
    && multiset(xs) + multiset(ys) == multiset(OneTo(n))
    && (forall i :: 0 <= i < |xs| ==> 1 <= xs[i] <= n) && (forall i :: 0 <= i < |ys| ==> 1 <= ys[i] <= n)
    && (forall i, j :: 0 <= i < j < |xs| ==> xs[i] < xs[j])
    && (forall i, j :: 0 <= i < j < |ys| ==> ys[i] < ys[j])
  }

  ghost predicate RanksKept(p: Progress, n: nat) {
    Partitioned(ItemRanks(p.items), ExclusionRanks(p.exclusions), n)
  }

  lemma OneToNext(n: nat)
    ensures OneTo(n + 1) == OneTo(n) + [n + 1]
  {
  }

  lemma PartitionedSwap(xs: seq<int>, ys: seq<int>, n: nat)
    requires Partitioned(xs, ys, n)
    ensures Partitioned(ys, xs, n)
  {
  }

  lemma CountsAppend(xs: seq<int>, ys: seq<int>, n: nat)
    requires n > 0 && multiset(xs) + multiset(ys) == multiset(OneTo(n - 1))
    ensures multiset(xs + [n]) + multiset(ys) == multiset(OneTo(n))
  {
    OneToNext(n - 1);
  }

  lemma PartitionedAppend(xs: seq<int>, ys: seq<int>, n: nat)
    requires n > 0 && Partitioned(xs, ys, n - 1)
    ensures Partitioned(xs + [n], ys, n) && Partitioned(ys, xs + [n], n)
  {
    CountsAppend(xs, ys, n);
    PartitionedSwap(xs + [n], ys, n);
  }

  lemma StepRank(d: Digests, b: Budget, p: Progress, hit: Hit, rank: int)
    requires ValidBudget(b)
    ensures var p', items, exclusions := Step(d, b, p, hit, rank), ItemRanks(p.items), ExclusionRanks(p.exclusions);
            || (ItemRanks(p'.items) == items + [rank] && ExclusionRanks(p'.exclusions) == exclusions)
            || (ItemRanks(p'.items) == items && ExclusionRanks(p'.exclusions) == exclusions + [rank])
  {
    var p' := Step(d, b, p, hit, rank);
    if |p'.items| > |p.items| {
      AppendItemRank(p.items, p'.items[|p.items|]);
    } else {
      AppendExclusionRank(p.exclusions, p'.exclusions[|p.exclusions|]);
    }
  }

  /** The ranks of items and exclusions together are 1 to n, each once, and both lists ascend. */
  lemma {:induction false} RanksPartition(d: Digests, b: Budget, hits: seq<Hit>, n: nat)
    requires ValidBudget(b) && n <= |hits|
    ensures RanksKept(After(d, b, hits, n), n)
  {
    if n == 0 {
      assert OneTo(0) == [];
    } else {
      RanksPartition(d, b, hits, n - 1);
      var p := After(d, b, hits, n - 1);
      var items, exclusions := ItemRanks(p.items), ExclusionRanks(p.exclusions);
      StepRank(d, b, p, hits[n - 1], n);
      PartitionedAppend(items, exclusions, n);
      PartitionedSwap(items, exclusions, n - 1);
      PartitionedAppend(exclusions, items, n);
    }
  }

  lemma AtMostRanks()
    ensures Ranks(EvidencePack.AtMost)
  {
  }

  lemma AscendingIsSorted(xs: seq<int>)
    requires forall i, j :: 0 <= i < j < |xs| ==> xs[i] < xs[j]
    ensures Sort(xs, EvidencePack.AtMost) == xs
  {
    AtMostRanks();
    SortOrdered(xs, EvidencePack.AtMost);
    OrderedUnique(Sort(xs, EvidencePack.AtMost), xs, EvidencePack.AtMost);
  }

  lemma PartitionIsSorted(xs: seq<int>, ys: seq<int>, n: nat)
    requires multiset(xs) + multiset(ys) == multiset(OneTo(n))
    ensures |xs| + |ys| == n && Sort(xs + ys, EvidencePack.AtMost) == OneTo(n)
  {
    assert multiset(xs + ys) == multiset(OneTo(n));
    SameMembers(xs + ys, OneTo(n));
    AtMostRanks();
    SortForgetsOrder(xs + ys, OneTo(n), EvidencePack.AtMost);
    AscendingIsSorted(OneTo(n));
  }

  // ---- budgets ----

  ghost predicate BudgetsKept(b: Budget, p: Progress) {
    && |p.items| <= b.maxItems && p.characters == Characters(p.items) && 0 <= p.characters <= b.maxTotal
    && forall i :: 0 <= i < |p.items| ==> 0 <= p.items[i].textCharacters <= b.maxPerItem
  }

  /** All three budgets hold after every hit. */
  lemma {:induction false} BudgetsHold(d: Digests, b: Budget, hits: seq<Hit>, n: nat)
    requires ValidBudget(b) && n <= |hits|
    ensures BudgetsKept(b, After(d, b, hits, n))
  {
    if n > 0 {
      BudgetsHold(d, b, hits, n - 1);
      var p, p' := After(d, b, hits, n - 1), After(d, b, hits, n);
      if |p'.items| > |p.items| {
        assert p'.items[..|p.items|] == p.items;
      }
    }
  }

  // ---- what is included ----

  /** The item is a prefix of its hit's text, with its measurements. */
  ghost predicate FromHit(d: Digests, b: Budget, hits: seq<Hit>, item: Item) {
    && 1 <= item.rank <= |hits| && Eligible(hits[item.rank - 1])
    && 0 < item.textCharacters <= |hits[item.rank - 1].document|
    && item == ItemFor(d, hits[item.rank - 1], item.rank, item.textCharacters)
  }

  lemma {:induction false} ItemsFromHits(d: Digests, b: Budget, hits: seq<Hit>, n: nat)
    requires ValidBudget(b) && n <= |hits|
    ensures forall i :: 0 <= i < |After(d, b, hits, n).items| ==> FromHit(d, b, hits, After(d, b, hits, n).items[i])
  {
    if n > 0 {
      ItemsFromHits(d, b, hits, n - 1);
      var p, p' := After(d, b, hits, n - 1), After(d, b, hits, n);
      if |p'.items| > |p.items| {
        assert FromHit(d, b, hits, p'.items[|p.items|]);
      }
    }
  }

  /** The ranks of the eligible hits among the first `n`. */
  function EligibleRanks(hits: seq<Hit>, n: nat): seq<int>
    requires n <= |hits|
  {
    if n == 0 then [] else EligibleRanks(hits, n - 1) + if Eligible(hits[n - 1]) then [n] else []
  }

  /** The included hits are exactly a prefix of the eligible ones, and a shorter one only when a budget is used up. */
  lemma {:induction false} IncludedArePrefix(d: Digests, b: Budget, hits: seq<Hit>, n: nat)
    requires ValidBudget(b) && n <= |hits|
    ensures var p := After(d, b, hits, n);
            && ItemRanks(p.items) <= EligibleRanks(hits, n)
            && (|p.items| < |EligibleRanks(hits, n)| ==> Full(b, p))
  {
    if n > 0 {
      IncludedArePrefix(d, b, hits, n - 1);
      var p, p' := After(d, b, hits, n - 1), After(d, b, hits, n);
      IncludedWhen(hits[n - 1], b, p);
      if |p'.items| > |p.items| {
        AppendItemRank(p.items, p'.items[|p.items|]);
      }
    }
  }

  /** Every item has its full allowance except possibly the last, and that only when the total is used up. */
  ghost predicate OnlyLastCut(b: Budget, p: Progress) {
    forall i :: 0 <= i < |p.items| ==>
      || p.items[i].textCharacters == Min(p.items[i].documentCharacters, b.maxPerItem)
      || (i == |p.items| - 1 && p.characters == b.maxTotal)
  }

  lemma {:induction false} OnlyLastIsCut(d: Digests, b: Budget, hits: seq<Hit>, n: nat)
    requires ValidBudget(b) && n <= |hits|
    ensures OnlyLastCut(b, After(d, b, hits, n))
  {
    if n > 0 {
      OnlyLastIsCut(d, b, hits, n - 1);
      var p, p' := After(d, b, hits, n - 1), After(d, b, hits, n);
      IncludedWhen(hits[n - 1], b, p);
      if |p'.items| > |p.items| {
        forall i | 0 <= i < |p.items| ensures p'.items[i].textCharacters == Min(p'.items[i].documentCharacters, b.maxPerItem) {
          assert p'.items[i] == p.items[i];
        }
      }
    }
  }

  // ---- acceptance ----

  lemma BuiltConsistent(d: Digests, result: SearchResult, b: Budget)
    requires ValidBudget(b)
    ensures ContentConsistent(Built(d, result, b).content) <==> result.candidatesConsidered >= |result.hits|
  {
    var hits := result.hits;
    var p := After(d, b, hits, |hits|);
    RanksPartition(d, b, hits, |hits|);
    BudgetsHold(d, b, hits, |hits|);
    AscendingIsSorted(ItemRanks(p.items));
    AscendingIsSorted(ExclusionRanks(p.exclusions));
    PartitionIsSorted(ItemRanks(p.items), ExclusionRanks(p.exclusions), |hits|);
  }

  lemma BuiltItemConsistent(d: Digests, result: SearchResult, b: Budget, i: nat)
    requires ValidBudget(b) && i < |Built(d, result, b).content.items|
    ensures var item := Built(d, result, b).content.items[i];
            && FromHit(d, b, result.hits, item)
            && (ItemConsistent(d, item) <==> item.citation.url.value != "")
  {
    ItemsFromHits(d, b, result.hits, |result.hits|);
  }

  /** The included citations have a non-empty URL, and no two included hits have the same evidence identity. */
  ghost predicate Citable(items: seq<Item>) {
    && (forall i :: 0 <= i < |items| ==> items[i].citation.url.Some? && items[i].citation.url.value != "")
    && (forall i, j :: 0 <= i < j < |items| ==> items[i].evidenceId != items[j].evidenceId)
  }

  lemma BuiltRanksApart(d: Digests, result: SearchResult, b: Budget)
    requires ValidBudget(b)
    ensures var items := Built(d, result, b).content.items;
            forall i, j :: 0 <= i < j < |items| ==> items[i].rank != items[j].rank
  {
    RanksPartition(d, b, result.hits, |result.hits|);
    var items := Built(d, result, b).content.items;
    forall i, j | 0 <= i < j < |items| ensures items[i].rank != items[j].rank {
      assert ItemRanks(items)[i] < ItemRanks(items)[j];
    }
  }

  lemma CitableItems(d: Digests, items: seq<Item>)
    requires forall i :: 0 <= i < |items| ==>
               items[i].citation.url.Some? && (ItemConsistent(d, items[i]) <==> items[i].citation.url.value != "")
    requires forall i, j :: 0 <= i < j < |items| ==> items[i].rank != items[j].rank
    ensures Citable(items) <==> ItemsApart(items) && forall i :: 0 <= i < |items| ==> ItemConsistent(d, items[i])
  {
  }

  lemma CitableAccepted(d: Digests, result: SearchResult, b: Budget)
    requires ValidBudget(b)
    ensures ValidPack(d, Built(d, result, b)) <==>
              result.candidatesConsidered >= |result.hits| && Citable(Built(d, result, b).content.items)
  {
    var items := Built(d, result, b).content.items;
    forall i | 0 <= i < |items|
      ensures items[i].citation.url.Some? && (ItemConsistent(d, items[i]) <==> items[i].citation.url.value != "")
    {
      BuiltItemConsistent(d, result, b, i);
    }
    BuiltRanksApart(d, result, b);
    CitableItems(d, items);
    BuiltConsistent(d, result, b);
  }

  // ---- which hits are included, read off the hits ----

  /** The characters the eligible hits among the first `n` may take. */
  function Allowance(b: Budget, hits: seq<Hit>, n: nat): int
    requires n <= |hits|
  {
    if n == 0 then 0
    else Allowance(b, hits, n - 1) + if Eligible(hits[n - 1]) then Min(|hits[n - 1].document|, b.maxPerItem) else 0
  }

  /** The eligible hits among the first `n` use up neither budget. */
  predicate Roomy(b: Budget, hits: seq<Hit>, n: nat)
    requires n <= |hits|
  {
    |EligibleRanks(hits, n)| < b.maxItems && Allowance(b, hits, n) < b.maxTotal
  }

  predicate Included(b: Budget, hits: seq<Hit>, k: nat)
    requires k < |hits|
  {
    Eligible(hits[k]) && Roomy(b, hits, k)
  }

  /** As long as there is room, every eligible hit was included in full. */
  lemma {:induction false} RoomyIffNotFull(d: Digests, b: Budget, hits: seq<Hit>, n: nat)
    requires ValidBudget(b) && n <= |hits|
    ensures var p := After(d, b, hits, n);
            && (Roomy(b, hits, n) <==> !Full(b, p))
            && (Roomy(b, hits, n) ==> |p.items| == |EligibleRanks(hits, n)| && p.characters == Allowance(b, hits, n))
  {
    if n > 0 {
      RoomyIffNotFull(d, b, hits, n - 1);
      IncludedWhen(hits[n - 1], b, After(d, b, hits, n - 1));
    }
  }

  function ItemAt(d: Digests, b: Budget, hits: seq<Hit>, k: nat): Item
    requires ValidBudget(b) && k < |hits| && Included(b, hits, k)
  {
    ItemFor(d, hits[k], k + 1, LengthFor(hits[k], b, Allowance(b, hits, k)))
  }

  /** The items of the included hits among the first `n`. */
  function IncludedItems(d: Digests, b: Budget, hits: seq<Hit>, n: nat): seq<Item>
    requires ValidBudget(b) && n <= |hits|
  {
    if n == 0 then []
    else IncludedItems(d, b, hits, n - 1) + if Included(b, hits, n - 1) then [ItemAt(d, b, hits, n - 1)] else []
  }

  /** The packed items in closed form: which hits they are of and how long they are follows from the hits alone. */
  lemma {:induction false} ItemsAreIncluded(d: Digests, b: Budget, hits: seq<Hit>, n: nat)
    requires ValidBudget(b) && n <= |hits|
    ensures After(d, b, hits, n).items == IncludedItems(d, b, hits, n)
  {
    if n > 0 {
      ItemsAreIncluded(d, b, hits, n - 1);
      RoomyIffNotFull(d, b, hits, n - 1);
      IncludedWhen(hits[n - 1], b, After(d, b, hits, n - 1));
    }
  }

  function EvidenceIdOf(item: Item): string {
    item.evidenceId
  }

  ghost predicate UrlsPresent(b: Budget, hits: seq<Hit>, n: nat)
    requires n <= |hits|
  {
    forall k :: 0 <= k < n && Included(b, hits, k) ==> hits[k].citation.url != Some("")
  }

  /** No two included hits have the same evidence identity. */
  ghost predicate EvidenceApart(d: Digests, b: Budget, hits: seq<Hit>, n: nat)
    requires ValidBudget(b) && n <= |hits|
  {
    forall j, k :: 0 <= j < k < n && Included(b, hits, j) && Included(b, hits, k) ==>
      ItemAt(d, b, hits, j).evidenceId != ItemAt(d, b, hits, k).evidenceId
  }

  lemma {:induction false} IncludedItem(d: Digests, b: Budget, hits: seq<Hit>, n: nat, item: Item)
    requires ValidBudget(b) && n <= |hits|
    ensures item in IncludedItems(d, b, hits, n) <==>
            exists k :: 0 <= k < n && Included(b, hits, k) && item == ItemAt(d, b, hits, k)
  {
    if n > 0 {
      IncludedItem(d, b, hits, n - 1, item);
    }
  }

  lemma IdentityUsed(d: Digests, b: Budget, hits: seq<Hit>, n: nat, id: string)
    requires ValidBudget(b) && n <= |hits|
    ensures HasKey(IncludedItems(d, b, hits, n), EvidenceIdOf, id) <==>
            exists k :: 0 <= k < n && Included(b, hits, k) && ItemAt(d, b, hits, k).evidenceId == id
  {
    var items := IncludedItems(d, b, hits, n);
    if item :| item in items && EvidenceIdOf(item) == id {
      IncludedItem(d, b, hits, n, item);
    }
    if k :| 0 <= k < n && Included(b, hits, k) && ItemAt(d, b, hits, k).evidenceId == id {
      IncludedItem(d, b, hits, n, ItemAt(d, b, hits, k));
    }
  }

  lemma EvidenceApartNext(d: Digests, b: Budget, hits: seq<Hit>, n: nat)
    requires ValidBudget(b) && n < |hits| && Included(b, hits, n)
    ensures EvidenceApart(d, b, hits, n + 1) <==>
              && EvidenceApart(d, b, hits, n)
              && !exists k :: 0 <= k < n && Included(b, hits, k)
                              && ItemAt(d, b, hits, k).evidenceId == ItemAt(d, b, hits, n).evidenceId
  {
    if EvidenceApart(d, b, hits, n + 1) {
      forall k | 0 <= k < n && Included(b, hits, k)
        ensures ItemAt(d, b, hits, k).evidenceId != ItemAt(d, b, hits, n).evidenceId
      {
      }
    }
  }

  lemma EvidenceApartSame(d: Digests, b: Budget, hits: seq<Hit>, n: nat)
    requires ValidBudget(b) && n < |hits| && !Included(b, hits, n)
    ensures EvidenceApart(d, b, hits, n + 1) <==> EvidenceApart(d, b, hits, n)
    ensures IncludedItems(d, b, hits, n + 1) == IncludedItems(d, b, hits, n)
  {
  }

  lemma {:induction false} EvidenceApartItems(d: Digests, b: Budget, hits: seq<Hit>, n: nat)
    requires ValidBudget(b) && n <= |hits|
    ensures EvidenceApart(d, b, hits, n) <==> Apart(IncludedItems(d, b, hits, n), EvidenceIdOf)
  {
    if n > 0 {
      EvidenceApartItems(d, b, hits, n - 1);
      if Included(b, hits, n - 1) {
        var last := ItemAt(d, b, hits, n - 1);
        ApartAppend(IncludedItems(d, b, hits, n - 1), last, EvidenceIdOf);
        IdentityUsed(d, b, hits, n - 1, last.evidenceId);
        EvidenceApartNext(d, b, hits, n - 1);
      } else {
        EvidenceApartSame(d, b, hits, n - 1);
      }
    }
  }

  lemma UrlsOfItems(d: Digests, b: Budget, hits: seq<Hit>)
    requires ValidBudget(b)
    ensures UrlsPresent(b, hits, |hits|) <==>
            forall item :: item in IncludedItems(d, b, hits, |hits|) ==> item.citation.url.Some? && item.citation.url.value != ""
  {
    var items := IncludedItems(d, b, hits, |hits|);
    forall item ensures item in items <==>
                        exists k :: 0 <= k < |hits| && Included(b, hits, k) && item == ItemAt(d, b, hits, k) {
      IncludedItem(d, b, hits, |hits|, item);
    }
    forall k | 0 <= k < |hits| && Included(b, hits, k) ensures ItemAt(d, b, hits, k) in items {
    }
  }

  /**
   The validator accepts a built pack exactly when no fewer candidates were considered than returned, no
   included hit has an empty URL, and included hits have distinct evidence identities.  Building only
   excludes absent URLs, so an empty one is included and then rejected.
   */
  lemma BuiltAccepted(d: Digests, result: SearchResult, b: Budget)
    requires ValidBudget(b)
    ensures ValidPack(d, Built(d, result, b)) <==>
              && result.candidatesConsidered >= |result.hits|
              && UrlsPresent(b, result.hits, |result.hits|)
              && EvidenceApart(d, b, result.hits, |result.hits|)
  {
    CitableAccepted(d, result, b);
    ItemsAreIncluded(d, b, result.hits, |result.hits|);
    UrlsOfItems(d, b, result.hits);
    EvidenceApartItems(d, b, result.hits, |result.hits|);
    var items := Built(d, result, b).content.items;
    assert Apart(items, EvidenceIdOf) <==>
           forall i, j :: 0 <= i < j < |items| ==> items[i].evidenceId != items[j].evidenceId;
  }

  /** Digests that tell different evidence apart. */
  ghost predicate Injective(d: Digests) {
    forall a, b :: d.evidence(a) == d.evidence(b) ==> a == b
  }

  ghost predicate DistinctMessages(hits: seq<Hit>) {
    forall i, j :: 0 <= i < j < |hits| ==> hits[i].streamId != hits[j].streamId
  }

  /** With collision-free identities and distinct messages only the counts and the URLs of included hits matter. */
  lemma DistinctHitsAccepted(d: Digests, result: SearchResult, b: Budget)
    requires ValidBudget(b) && Injective(d) && DistinctMessages(result.hits)
    ensures ValidPack(d, Built(d, result, b)) <==>
              result.candidatesConsidered >= |result.hits| && UrlsPresent(b, result.hits, |result.hits|)
  {
    BuiltAccepted(d, result, b);
    var hits := result.hits;
    forall j, k | 0 <= j < k < |hits| && Included(b, hits, j) && Included(b, hits, k)
      ensures ItemAt(d, b, hits, j).evidenceId != ItemAt(d, b, hits, k).evidenceId
    {
      assert ItemAt(d, b, hits, j).streamId != ItemAt(d, b, hits, k).streamId;
    }
  }

  /** The citations are those of events with these payloads. */
  ghost predicate CitedBy(links: Links, payloads: seq<Payload>, hits: seq<Hit>) {
    && |payloads| == |hits|
    && forall i :: 0 <= i < |hits| ==> hits[i].citation == CitationFrom(links, payloads[i], EVIDENCE_FIELDS, [])
  }

  /** Search cites events itself, so every pack built from its distinct hits is accepted. */
  lemma SearchedHitsAccepted(d: Digests, result: SearchResult, b: Budget, links: Links, payloads: seq<Payload>)
    requires ValidBudget(b) && Injective(d) && DistinctMessages(result.hits)
    requires result.candidatesConsidered >= |result.hits| && CitedBy(links, payloads, result.hits)
    ensures ValidPack(d, Built(d, result, b))
  {
    forall k | 0 <= k < |result.hits| ensures result.hits[k].citation.url != Some("") {
      TraceableExactly(links, payloads[k], EVIDENCE_FIELDS, []);
    }
    DistinctHitsAccepted(d, result, b);
  }

  lemma EmptyUrlRejected(d: Digests, b: Budget, hit: Hit)
    requires ValidBudget(b) && Eligible(hit) && hit.citation.url == Some("")
    ensures var result := SearchResult([hit], 1, "");
            Built(d, result, b).content.items != [] && !ValidPack(d, Built(d, result, b))
  {
    assert Included(b, [hit], 0);
    ItemsAreIncluded(d, b, [hit], 1);
    BuiltAccepted(d, SearchResult([hit], 1, ""), b);
  }

  /** A hand-made hit whose citation has an empty URL is packed, and the pack is rejected. */
  lemma EmptyUrlExample(d: Digests, b: Budget)
    requires ValidBudget(b)
    ensures exists result: SearchResult ::
              result.candidatesConsidered >= |result.hits| && Built(d, result, b).content.items != []
              && !ValidPack(d, Built(d, result, b))
  {
    var hit := Hit("1-0", "event", "usgs", "", "text", Citation(Traceable, Some(""), Some("url"), []));
    EmptyUrlRejected(d, b, hit);
  }

  // ---- every hit in the pack ----

  /** The excerpt of an included hit: a prefix of its document, with its measures, digests and identity. */
  ghost predicate Excerpts(d: Digests, item: Item, hit: Hit) {
    && hit.citation.status == Traceable && hit.citation.url.Some? && hit.citation.sourceField.Some?
    && item.text != "" && item.text <= hit.document && (item.truncated <==> item.text != hit.document)
    && item.textCharacters == |item.text| && item.documentCharacters == |hit.document|
    && item.textSha == d.text(item.text) && item.documentSha == d.text(hit.document)
    && item.streamId == hit.streamId && item.eventId == hit.eventId && item.source == hit.source
    && item.details == hit.details && item.citation == hit.citation
    && item.evidenceId ==
       d.evidence(EvidenceKey(hit.streamId, hit.eventId, hit.source, d.text(hit.document), d.text(item.text), hit.citation))
  }

  /** Why a hit is excluded from a pack that ends with this many items and characters. */
  ghost predicate ExcludedFor(b: Budget, hit: Hit, items: int, characters: int, reason: ExclusionReason) {
    var c := hit.citation;
    match reason
    case NoCitation => c.status == CitationMissing
    case Rejected => c.status == CitationRejected
    case ContractInvalid => c.status == Traceable && (c.url.None? || c.sourceField.None?)
    case EmptyText => c.status == Traceable && c.url.Some? && c.sourceField.Some? && hit.document == ""
    case ItemLimit => c.status == Traceable && c.url.Some? && c.sourceField.Some? && hit.document != "" && items == b.maxItems
    case CharacterLimit =>
      && c.status == Traceable && c.url.Some? && c.sourceField.Some? && hit.document != ""
      && items < b.maxItems && characters == b.maxTotal
  }

  ghost predicate Excludes(d: Digests, b: Budget, e: Exclusion, hit: Hit, items: int, characters: int) {
    && ExcludedFor(b, hit, items, characters, e.reason)
    && e.streamId == hit.streamId && e.eventId == hit.eventId && e.source == hit.source && e.details == hit.details
    && e.documentSha == d.text(hit.document) && e.citation == hit.citation
  }

  ghost predicate ExclusionsMean(d: Digests, b: Budget, hits: seq<Hit>, n: nat)
    requires ValidBudget(b) && n <= |hits|
  {
    var p := After(d, b, hits, n);
    forall e :: e in p.exclusions ==>
      1 <= e.rank <= n && Excludes(d, b, e, hits[e.rank - 1], |p.items|, p.characters)
  }

  lemma ReasonMeaning(b: Budget, hit: Hit, p: Progress)
    requires BudgetsKept(b, p) && ReasonFor(hit, b, p).Some?
    ensures ExcludedFor(b, hit, |p.items|, p.characters, ReasonFor(hit, b, p).value)
  {
  }

  /** An item is added only while there is room, so no exclusion for want of room loses its reason. */
  lemma ReasonStays(b: Budget, hit: Hit, p: Progress, p': Progress, reason: ExclusionReason)
    requires ExcludedFor(b, hit, |p.items|, p.characters, reason)
    requires !Full(b, p) || (|p'.items| == |p.items| && p'.characters == p.characters)
    ensures ExcludedFor(b, hit, |p'.items|, p'.characters, reason)
  {
  }

  lemma StepExcludes(d: Digests, b: Budget, p: Progress, hit: Hit, rank: int, e: Exclusion)
    requires ValidBudget(b) && BudgetsKept(b, p)
    requires e in Step(d, b, p, hit, rank).exclusions && e !in p.exclusions
    ensures e.rank == rank
    ensures Excludes(d, b, e, hit, |Step(d, b, p, hit, rank).items|, Step(d, b, p, hit, rank).characters)
  {
    ReasonMeaning(b, hit, p);
  }

  lemma StepKeepsReason(d: Digests, b: Budget, p: Progress, hit: Hit, rank: int, e: Exclusion, old': Hit)
    requires ValidBudget(b) && Excludes(d, b, e, old', |p.items|, p.characters)
    ensures Excludes(d, b, e, old', |Step(d, b, p, hit, rank).items|, Step(d, b, p, hit, rank).characters)
  {
    IncludedWhen(hit, b, p);
    ReasonStays(b, old', p, Step(d, b, p, hit, rank), e.reason);
  }

  lemma {:induction false} ExclusionsHaveReasons(d: Digests, b: Budget, hits: seq<Hit>, n: nat)
    requires ValidBudget(b) && n <= |hits|
    ensures ExclusionsMean(d, b, hits, n)
  {
    if n > 0 {
      ExclusionsHaveReasons(d, b, hits, n - 1);
      BudgetsHold(d, b, hits, n - 1);
      var p, p' := After(d, b, hits, n - 1), After(d, b, hits, n);
      forall e | e in p'.exclusions
        ensures 1 <= e.rank <= n && Excludes(d, b, e, hits[e.rank - 1], |p'.items|, p'.characters)
      {
        if e in p.exclusions {
          StepKeepsReason(d, b, p, hits[n - 1], n, e, hits[e.rank - 1]);
        } else {
          StepExcludes(d, b, p, hits[n - 1], n, e);
        }
      }
    }
  }

  lemma PrefixText(text: string, length: nat)
    requires length <= |text|
    ensures text[..length] <= text && (text[..length] == text <==> length == |text|)
  {
  }

  lemma ItemExcerpts(d: Digests, b: Budget, hits: seq<Hit>, item: Item)
    requires FromHit(d, b, hits, item)
    ensures Excerpts(d, item, hits[item.rank - 1])
  {
    PrefixText(hits[item.rank - 1].document, item.textCharacters);
  }

  /**
   Every item of a built pack is an excerpt of the hit at its rank, and every exclusion names the hit at its
   rank with the one reason that hit was left out.
   */
  lemma PackMeaning(d: Digests, result: SearchResult, b: Budget)
    requires ValidBudget(b)
    ensures var c := Built(d, result, b).content;
            && (forall i :: i in c.items ==> 1 <= i.rank <= |result.hits| && Excerpts(d, i, result.hits[i.rank - 1]))
            && (forall e :: e in c.exclusions ==>
                  1 <= e.rank <= |result.hits| && Excludes(d, b, e, result.hits[e.rank - 1], |c.items|, c.characters))
  {
    var hits := result.hits;
    var c := Built(d, result, b).content;
    ItemsFromHits(d, b, hits, |hits|);
    forall i | i in c.items ensures 1 <= i.rank <= |hits| && Excerpts(d, i, hits[i.rank - 1]) {
      var k :| 0 <= k < |c.items| && c.items[k] == i;
      assert FromHit(d, b, hits, c.items[k]);
      ItemExcerpts(d, b, hits, i);
    }
    ExclusionsHaveReasons(d, b, hits, |hits|);
  }
}
