/**
 Evidence packs: retrieval hits packed greedily under three budgets, and the independent validator of
 a pack.  Digests are parameters.
 */
module EvidencePack {
  import opened Citations
  import opened Sorting
  import opened Wrappers

  /** One search hit; `details` stands for the fields that are only copied. */
  datatype Hit = Hit(
    streamId: string, eventId: string, source: string, details: string, document: string, citation: Citation)

  datatype SearchResult = SearchResult(hits: seq<Hit>, candidatesConsidered: int, settings: string)

  datatype Budget = Budget(maxItems: int, maxPerItem: int, maxTotal: int)

  predicate ValidBudget(b: Budget) {
    1 <= b.maxItems <= 50 && 1 <= b.maxPerItem <= 8000 && 1 <= b.maxTotal <= 64000
  }

  datatype ExclusionReason = NoCitation | Rejected | ContractInvalid | EmptyText | ItemLimit | CharacterLimit

  datatype Item = Item(
    evidenceId: string, rank: int, streamId: string, eventId: string, source: string, details: string, text: string,
    documentSha: string, textSha: string, documentCharacters: int, textCharacters: int, truncated: bool, citation: Citation)

  datatype Exclusion = Exclusion(
    rank: int, streamId: string, eventId: string, source: string, details: string, documentSha: string, citation: Citation,
    reason: ExclusionReason)

  datatype Status = EvidenceAvailable | NoEvidence

  datatype Content = Content(
    status: Status, budget: Budget, candidatesConsidered: int, returnedHits: int, settings: string,
    items: seq<Item>, exclusions: seq<Exclusion>, characters: int)

  datatype Pack = Pack(packId: string, content: Content)

  /** What an evidence identity is computed from. */
  datatype EvidenceKey = EvidenceKey(
    streamId: string, eventId: string, source: string, documentSha: string, textSha: string, citation: Citation)

  datatype Digests = Digests(text: string -> string, evidence: EvidenceKey -> string, pack: Content -> string)

  function Min(a: int, b: int): int {
    if a < b then a else b
  }

  // ---- the builder ----

  datatype Progress = Progress(items: seq<Item>, exclusions: seq<Exclusion>, characters: int)

  /** Why a hit is left out, if it is. */
  function ReasonFor(hit: Hit, b: Budget, p: Progress): Option<ExclusionReason> {
    if hit.citation.status == CitationMissing then Some(NoCitation)
    else if hit.citation.status == CitationRejected then Some(Rejected)
    else if hit.citation.url.None? || hit.citation.sourceField.None? then Some(ContractInvalid)
    else if hit.document == "" then Some(EmptyText)
    else if |p.items| >= b.maxItems then Some(ItemLimit)
    else if p.characters >= b.maxTotal then Some(CharacterLimit)
    else None
  }

  function ItemFor(d: Digests, hit: Hit, rank: int, length: nat): Item
    requires length <= |hit.document|
  {
    var text, documentSha := hit.document[..length], d.text(hit.document);
    Item(d.evidence(EvidenceKey(hit.streamId, hit.eventId, hit.source, documentSha, d.text(text), hit.citation)),
         rank, hit.streamId, hit.eventId, hit.source, hit.details, text, documentSha, d.text(text),
         |hit.document|, |text|, length < |hit.document|, hit.citation)
  }

  function ExclusionFor(d: Digests, hit: Hit, rank: int, reason: ExclusionReason): Exclusion {
    Exclusion(rank, hit.streamId, hit.eventId, hit.source, hit.details, d.text(hit.document), hit.citation, reason)
  }

  function LengthFor(hit: Hit, b: Budget, characters: int): int {
    Min(Min(|hit.document|, b.maxPerItem), b.maxTotal - characters)
  }

  function Step(d: Digests, b: Budget, p: Progress, hit: Hit, rank: int): Progress
    requires ValidBudget(b)
  {
    var reason := ReasonFor(hit, b, p);
    if reason.Some? then Progress(p.items, p.exclusions + [ExclusionFor(d, hit, rank, reason.value)], p.characters)
    else
      var item := ItemFor(d, hit, rank, LengthFor(hit, b, p.characters));
      Progress(p.items + [item], p.exclusions, p.characters + |item.text|)
  }

  /** The progress after the first `n` hits. */
  function After(d: Digests, b: Budget, hits: seq<Hit>, n: nat): Progress
    requires ValidBudget(b) && n <= |hits|
  {
    if n == 0 then Progress([], [], 0) else Step(d, b, After(d, b, hits, n - 1), hits[n - 1], n)
  }

  function ContentOf(result: SearchResult, b: Budget, p: Progress): Content {
    Content(if p.items != [] then EvidenceAvailable else NoEvidence, b, result.candidatesConsidered, |result.hits|,
            result.settings, p.items, p.exclusions, p.characters)
  }

  function Built(d: Digests, result: SearchResult, b: Budget): Pack
    requires ValidBudget(b)
  {
    var content := ContentOf(result, b, After(d, b, result.hits, |result.hits|));
    Pack(d.pack(content), content)
  }

  method BuildEvidencePack(d: Digests, result: SearchResult, b: Budget) returns (pack: Pack)
    requires ValidBudget(b)
    ensures pack == Built(d, result, b)
  {
    var items: seq<Item>, exclusions: seq<Exclusion>, characters := [], [], 0;
    for i := 0 to |result.hits|
      invariant Progress(items, exclusions, characters) == After(d, b, result.hits, i)
    {
      var hit := result.hits[i];
      var reason := ReasonFor(hit, b, Progress(items, exclusions, characters));
      if reason.Some? {
        exclusions := exclusions + [ExclusionFor(d, hit, i + 1, reason.value)];
      } else {
        var item := ItemFor(d, hit, i + 1, LengthFor(hit, b, characters));
        items := items + [item];
        characters := characters + |item.text|;
      }
    }
    var content := ContentOf(result, b, Progress(items, exclusions, characters));
    pack := Pack(d.pack(content), content);
  }

  // ---- the validator ----

  predicate AtMost(a: int, b: int) {
    a <= b
  }

  function OneTo(n: nat): (r: seq<int>)
    ensures |r| == n && forall i :: 0 <= i < n ==> r[i] == i + 1
  {
    seq(n, i => i + 1)
  }

  function ItemRanks(items: seq<Item>): (r: seq<int>)
    ensures |r| == |items| && forall i :: 0 <= i < |r| ==> r[i] == items[i].rank
  {
    seq(|items|, i requires 0 <= i < |items| => items[i].rank)
  }

  function ExclusionRanks(exclusions: seq<Exclusion>): (r: seq<int>)
    ensures |r| == |exclusions| && forall i :: 0 <= i < |r| ==> r[i] == exclusions[i].rank
  {
    seq(|exclusions|, i requires 0 <= i < |exclusions| => exclusions[i].rank)
  }

  function Characters(items: seq<Item>): int {
    if items == [] then 0 else Characters(items[..|items| - 1]) + items[|items| - 1].textCharacters
  }

  /** The checks on the pack as a whole. */
  predicate ContentConsistent(c: Content) {
    var itemRanks, exclusionRanks := ItemRanks(c.items), ExclusionRanks(c.exclusions);
    && c.status == (if c.items != [] then EvidenceAvailable else NoEvidence)
    && c.characters == Characters(c.items)
    && Sort(itemRanks, AtMost) == itemRanks && Sort(exclusionRanks, AtMost) == exclusionRanks
    && c.returnedHits == |itemRanks| + |exclusionRanks|
    && Sort(itemRanks + exclusionRanks, AtMost) == OneTo(|itemRanks| + |exclusionRanks|)
    && c.candidatesConsidered >= c.returnedHits
    && |c.items| <= c.budget.maxItems && c.characters <= c.budget.maxTotal
    && forall i :: 0 <= i < |c.items| ==> c.items[i].textCharacters <= c.budget.maxPerItem
  }

  /** The checks on one item. */
  predicate ItemConsistent(d: Digests, i: Item) {
    && i.citation.status == Traceable && i.citation.url.Some? && i.citation.url.value != ""
    && i.textCharacters == |i.text| && i.textSha == d.text(i.text)
    && i.documentCharacters >= i.textCharacters && i.truncated == (i.documentCharacters > i.textCharacters)
    && i.evidenceId == d.evidence(EvidenceKey(i.streamId, i.eventId, i.source, i.documentSha, i.textSha, i.citation))
  }

  ghost predicate ItemsApart(items: seq<Item>) {
    forall i, j :: 0 <= i < j < |items| ==> items[i].evidenceId != items[j].evidenceId && items[i].rank != items[j].rank
  }

  ghost predicate ValidPack(d: Digests, pack: Pack) {
    && ContentConsistent(pack.content) && ItemsApart(pack.content.items)
    && (forall i :: 0 <= i < |pack.content.items| ==> ItemConsistent(d, pack.content.items[i]))
    && pack.packId == d.pack(pack.content)
  }

  function EvidenceIds(items: seq<Item>): set<string> {
    set i | 0 <= i < |items| :: items[i].evidenceId
  }

  function RankSet(items: seq<Item>): set<int> {
    set i | 0 <= i < |items| :: items[i].rank
  }

  lemma SeenGrows(items: seq<Item>, item: Item)
    ensures EvidenceIds(items + [item]) == EvidenceIds(items) + {item.evidenceId}
    ensures RankSet(items + [item]) == RankSet(items) + {item.rank}
    ensures ItemsApart(items + [item]) <==>
              ItemsApart(items) && item.evidenceId !in EvidenceIds(items) && item.rank !in RankSet(items)
  {
    var all := items + [item];
    assert forall i :: 0 <= i < |items| ==> all[i] == items[i];
    assert all[|items|] == item;
    if ItemsApart(items) && item.evidenceId !in EvidenceIds(items) && item.rank !in RankSet(items) {
      forall i, j | 0 <= i < j < |all| ensures all[i].evidenceId != all[j].evidenceId && all[i].rank != all[j].rank {
        assert items[i].evidenceId in EvidenceIds(items) && items[i].rank in RankSet(items);
      }
    }
  }

  lemma NotApart(items: seq<Item>, k: nat)
    requires k <= |items| && !ItemsApart(items[..k])
    ensures !ItemsApart(items)
  {
    var seen := items[..k];
    var i, j :| 0 <= i < j < |seen| && !(seen[i].evidenceId != seen[j].evidenceId && seen[i].rank != seen[j].rank);
    assert items[i] == seen[i] && items[j] == seen[j];
  }

  method ValidateItems(d: Digests, items: seq<Item>) returns (accepted: bool)
    ensures accepted <==> ItemsApart(items) && forall i :: 0 <= i < |items| ==> ItemConsistent(d, items[i])
  {
    var evidenceIds: set<string>, ranks: set<int> := {}, {};
    for k := 0 to |items|
      invariant ItemsApart(items[..k]) && forall i :: 0 <= i < k ==> ItemConsistent(d, items[i])
      invariant evidenceIds == EvidenceIds(items[..k]) && ranks == RankSet(items[..k])
    {
      SeenGrows(items[..k], items[k]);
      assert items[..k + 1] == items[..k] + [items[k]];
      if items[k].evidenceId in evidenceIds || items[k].rank in ranks {
        NotApart(items, k + 1);
        return false;
      }
      evidenceIds := evidenceIds + {items[k].evidenceId};
      ranks := ranks + {items[k].rank};
      if !ItemConsistent(d, items[k]) {
        return false;
      }
    }
    assert items[..|items|] == items;
    accepted := true;
  }

  method ValidateEvidencePack(d: Digests, pack: Pack) returns (accepted: bool)
    ensures accepted <==> ValidPack(d, pack)
  {
    if !ContentConsistent(pack.content) {
      return false;
    }
    var itemsAccepted := ValidateItems(d, pack.content.items);
    accepted := itemsAccepted && pack.packId == d.pack(pack.content);
  }
}
