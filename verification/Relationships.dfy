/** Claims extracted from single records, and the relationships they establish along measured edges. */
module Relationships {
  import opened Lookups
  import opened Ordering
  import opened Sequences
  import opened Sorting
  import opened Wrappers

  datatype Subject = HazardDomain | EvacuationState | RoadAccessState

  datatype Scope = MeasuredEdgeArea | NamedPlace

  datatype Label = Corroborates | Contradicts | InsufficientEvidence

  /** The parts of a record that claims are read from; `texts` are its text fields by name. */
  datatype Record = Record(
    source: string, eventType: string, tsunami: bool, category: Option<string>, alertType: Option<string>,
    place: Option<string>, texts: seq<(string, string)>)

  datatype Node = Node(nodeId: string, record: Record)

  datatype Claim = Claim(
    claimId: string, nodeId: string, subject: Subject, value: string, scope: Scope, scopeValue: Option<string>,
    field: string, excerpt: string)

  datatype Edge = Edge(edgeId: string, fromNodeId: string, toNodeId: string)

  datatype Relationship = Relationship(
    relationshipId: string, edgeId: string, fromNodeId: string, toNodeId: string, judgment: Label,
    subject: Option<Subject>, value: Option<string>, fromClaimId: Option<string>, toClaimId: Option<string>)

  /** What the identity of a claim or a relationship is a digest of. */
  datatype Identity =
    | OfClaim(nodeId: string, subject: Subject, value: string, scope: Scope, scopeValue: string, field: string, excerpt: string)
    | OfRelationship(edgeId: string, judgment: Label, fromClaimId: string, toClaimId: string)
    | OfUnresolved(edgeId: string)

  /** Digests, text handling, and which domain or operational state a text names. */
  datatype Platform = Platform(
    contentId: Identity -> string, strip: string -> string, clean: string -> string, normalize: string -> string,
    termDomain: string -> Option<string>, categoryDomain: string -> Option<string>,
    says: (Subject, string, string) -> bool)

  function OrEmpty(s: Option<string>): string {
    if s.Some? then s.value else ""
  }

  // ---- claims ----

  /** `_make_claim` */
  function MakeClaim(
    platform: Platform, node: Node, subject: Subject, value: string, scope: Scope, scopeValue: Option<string>,
    field: string, evidence: string): (c: Claim)
    ensures c.nodeId == node.nodeId && c.subject == subject && c.value == value
  {
    var excerpt := platform.clean(evidence);
    var id := platform.contentId(OfClaim(node.nodeId, subject, value, scope, OrEmpty(scopeValue), field, excerpt));
    Claim(id, node.nodeId, subject, value, scope, scopeValue, field, excerpt)
  }

  function Hazard(platform: Platform, node: Node, value: string, field: string, evidence: string): Claim {
    MakeClaim(platform, node, HazardDomain, value, MeasuredEdgeArea, None, field, evidence)
  }

  /** `_hazard_claims` */
  function HazardClaims(platform: Platform, node: Node): (cs: seq<Claim>)
    ensures forall c :: c in cs ==> c.subject == HazardDomain && c.nodeId == node.nodeId
    ensures |cs| <= 1 || (node.record.source == "usgs" && |cs| == 2 && cs[0].value != cs[1].value)
  {
    var r := node.record;
    if r.source == "usgs" && "seismic." <= r.eventType then
      [Hazard(platform, node, "seismic", "event_type", r.eventType)]
      + if r.tsunami then [Hazard(platform, node, "tsunami_related", "payload.tsunami", "true")] else []
    else if r.source == "firms" && r.eventType == "fire.thermal_anomaly" then
      [Hazard(platform, node, "fire_related", "event_type", r.eventType)]
    else if r.source == "gdelt" && r.eventType == "geopolitical.gdelt_event" then
      var excerpt := if r.category.Some? && platform.strip(r.category.value) != "" then r.category.value else r.eventType;
      [Hazard(platform, node, "material_conflict",
              if excerpt != r.eventType then "payload.category" else "event_type", excerpt)]
    else if r.source == "nws" && r.eventType == "weather.alert" then
      var alert := if r.alertType.Some? then platform.strip(r.alertType.value) else "";
      var byTerm := platform.termDomain(alert);
      var byCategory := if r.category.Some? then platform.categoryDomain(r.category.value) else None;
      if byTerm.Some? then [Hazard(platform, node, byTerm.value, "payload.alert_type", alert)]
      else if byCategory.Some? then [Hazard(platform, node, byCategory.value, "payload.category", r.category.value)]
      else []
    else []
  }

  datatype Evidence = Evidence(value: string, field: string, raw: string)

  const PATTERNS: seq<(Subject, string)> := [
    (EvacuationState, "lifted"), (EvacuationState, "active"), (RoadAccessState, "open"), (RoadAccessState, "closed")]

  function SaidBy(platform: Platform, text: (string, string), pattern: (Subject, string), subject: Subject): seq<Evidence> {
    if pattern.0 == subject && platform.strip(text.1) != "" && platform.says(subject, pattern.1, text.1) then
      [Evidence(pattern.1, "payload." + text.0, text.1)]
    else []
  }

  function Said(platform: Platform, text: (string, string), patterns: seq<(Subject, string)>, subject: Subject): seq<Evidence> {
    if patterns == [] then []
    else
      Said(platform, text, patterns[..|patterns| - 1], subject) + SaidBy(platform, text, patterns[|patterns| - 1], subject)
  }

  lemma SaidNext(platform: Platform, text: (string, string), patterns: seq<(Subject, string)>, j: nat, subject: Subject)
    requires j < |patterns|
    ensures Said(platform, text, patterns[..j + 1], subject) ==
            Said(platform, text, patterns[..j], subject) + SaidBy(platform, text, patterns[j], subject)
  {
    assert patterns[..j + 1][..j] == patterns[..j];
  }

  /** What the texts say on a subject, in the order it is found. */
  function EvidenceOn(platform: Platform, texts: seq<(string, string)>, subject: Subject): seq<Evidence> {
    if texts == [] then []
    else
      EvidenceOn(platform, texts[..|texts| - 1], subject) + Said(platform, texts[|texts| - 1], PATTERNS, subject)
  }

  /** A subject makes a claim when all that is said on it is the same. */
  function OperationalClaim(platform: Platform, node: Node, evidence: seq<Evidence>, subject: Subject): (cs: seq<Claim>)
    ensures |cs| <= 1 && forall c :: c in cs ==> c.subject == subject && c.nodeId == node.nodeId
  {
    if evidence == [] || exists e | e in evidence :: e.value != evidence[0].value then []
    else
      [MakeClaim(platform, node, subject, evidence[0].value, NamedPlace, Some(platform.clean(OrEmpty(node.record.place))),
                 evidence[0].field, evidence[0].raw)]
  }

  /** `_operational_claims` */
  function OperationalClaims(platform: Platform, node: Node): seq<Claim> {
    if node.record.place.None? || platform.normalize(node.record.place.value) == "" then []
    else
      OperationalClaim(platform, node, EvidenceOn(platform, node.record.texts, EvacuationState), EvacuationState)
      + OperationalClaim(platform, node, EvidenceOn(platform, node.record.texts, RoadAccessState), RoadAccessState)
  }

  predicate ByClaimId(a: Claim, b: Claim) {
    AtMost(a.claimId, b.claimId)
  }

  /** `extract_claims` */
  function ExtractClaims(platform: Platform, node: Node): seq<Claim> {
    Sort(HazardClaims(platform, node) + OperationalClaims(platform, node), ByClaimId)
  }

  type Matches = map<Subject, seq<Evidence>>

  function On(matches: Matches, subject: Subject): seq<Evidence> {
    if subject in matches then matches[subject] else []
  }

  /** What `more` adds to `matches`. */
  ghost predicate Adds(
    platform: Platform, text: (string, string), patterns: seq<(Subject, string)>, matches: Matches, more: Matches)
  {
    forall s :: On(more, s) == On(matches, s) + Said(platform, text, patterns, s)
  }

  lemma AddsNext(
    platform: Platform, text: (string, string), patterns: seq<(Subject, string)>, j: nat, matches: Matches, more: Matches,
    next: Matches)
    requires j < |patterns| && Adds(platform, text, patterns[..j], matches, more)
    requires forall s :: On(next, s) == On(more, s) + SaidBy(platform, text, patterns[j], s)
    ensures Adds(platform, text, patterns[..j + 1], matches, next)
  {
    forall s ensures On(next, s) == On(matches, s) + Said(platform, text, patterns[..j + 1], s) {
      var said, added := Said(platform, text, patterns[..j], s), SaidBy(platform, text, patterns[j], s);
      SaidNext(platform, text, patterns, j, s);
      Associative(On(matches, s), said, added);
    }
  }

  /** The loop over the patterns, for one text. */
  method MatchText(platform: Platform, text: (string, string), patterns: seq<(Subject, string)>, matches: Matches)
    returns (more: Matches)
    ensures Adds(platform, text, patterns, matches, more)
  {
    more := matches;
    for j := 0 to |patterns|
      invariant Adds(platform, text, patterns[..j], matches, more)
    {
      var (subject, value) := patterns[j];
      ghost var before := more;
      if platform.strip(text.1) != "" && platform.says(subject, value, text.1) {
        more := more[subject := On(more, subject) + [Evidence(value, "payload." + text.0, text.1)]];
      }
      AddsNext(platform, text, patterns, j, matches, before, more);
    }
    TakeAll(patterns);
  }

  /** The loop that collects `matches`. */
  method MatchTexts(platform: Platform, texts: seq<(string, string)>) returns (matches: Matches)
    ensures forall s :: On(matches, s) == EvidenceOn(platform, texts, s)
  {
    matches := map[];
    for i := 0 to |texts|
      invariant forall s :: On(matches, s) == EvidenceOn(platform, texts[..i], s)
    {
      assert texts[..i + 1][..i] == texts[..i];
      matches := MatchText(platform, texts[i], PATTERNS, matches);
    }
    assert texts[..|texts|] == texts;
  }

  method ExtractOperational(platform: Platform, node: Node) returns (claims: seq<Claim>)
    ensures claims == OperationalClaims(platform, node)
  {
    if node.record.place.None? || platform.normalize(node.record.place.value) == "" {
      return [];
    }
    var matches := MatchTexts(platform, node.record.texts);
    claims := OperationalClaim(platform, node, On(matches, EvacuationState), EvacuationState)
              + OperationalClaim(platform, node, On(matches, RoadAccessState), RoadAccessState);
  }

  lemma OneOfAtMostOne(cs: seq<Claim>, a: Claim, b: Claim)
    requires |cs| <= 1 && a in cs && b in cs
    ensures a == b
  {
  }

  /** Hazard claims and operational ones do not mix. */
  lemma ExtractedSplit(platform: Platform, node: Node, c: Claim)
    requires c in ExtractClaims(platform, node)
    ensures if c.subject == HazardDomain then c in HazardClaims(platform, node) else c in OperationalClaims(platform, node)
  {
    SortKeepsMembers(HazardClaims(platform, node) + OperationalClaims(platform, node), ByClaimId);
    if c in OperationalClaims(platform, node) {
      OperationalSubjects(platform, node, c);
    }
  }

  /** On one subject a record makes one claim, except that a seismic record may be tsunami-related too. */
  lemma OneClaimPerSubject(platform: Platform, node: Node, a: Claim, b: Claim)
    requires a in ExtractClaims(platform, node) && b in ExtractClaims(platform, node) && a.subject == b.subject
    ensures a.nodeId == b.nodeId == node.nodeId
    ensures a == b || (a.subject == HazardDomain && node.record.source == "usgs" && a.value != b.value)
  {
    ExtractedSplit(platform, node, a);
    ExtractedSplit(platform, node, b);
    if a.subject == HazardDomain {
      HazardApart(HazardClaims(platform, node), node, a, b);
    } else {
      OperationalApart(platform, node, a, b);
    }
  }

  lemma HazardApart(cs: seq<Claim>, node: Node, a: Claim, b: Claim)
    requires |cs| <= 1 || (node.record.source == "usgs" && |cs| == 2 && cs[0].value != cs[1].value)
    requires a in cs && b in cs
    ensures a == b || (node.record.source == "usgs" && a.value != b.value)
  {
  }

  lemma OperationalApart(platform: Platform, node: Node, a: Claim, b: Claim)
    requires a in OperationalClaims(platform, node) && b in OperationalClaims(platform, node) && a.subject == b.subject
    ensures a == b && a.nodeId == node.nodeId
  {
    var evacuation := OperationalClaim(platform, node, EvidenceOn(platform, node.record.texts, EvacuationState), EvacuationState);
    var road := OperationalClaim(platform, node, EvidenceOn(platform, node.record.texts, RoadAccessState), RoadAccessState);
    OneOfAtMostOne(if a.subject == EvacuationState then evacuation else road, a, b);
  }

  lemma OperationalSubjects(platform: Platform, node: Node, a: Claim)
    requires a in OperationalClaims(platform, node)
    ensures a.subject != HazardDomain
  {
  }

  // ---- comparing two claims ----

  /** `_scope_key` */
  function ScopeKey(platform: Platform, c: Claim): (Subject, Scope, string) {
    var place := platform.normalize(OrEmpty(c.scopeValue));
    (c.subject, c.scope, if c.scopeValue.None? then "" else if place == "" then c.claimId else place)
  }

  predicate Opposites(subject: Subject, a: string, b: string) {
    match subject
    case HazardDomain => false
    case EvacuationState => {a, b} == {"active", "lifted"}
    case RoadAccessState => {a, b} == {"closed", "open"}
  }

  /** `_related` */
  function Related(platform: Platform, edge: Edge, left: Claim, right: Claim): Option<Relationship> {
    if ScopeKey(platform, left) != ScopeKey(platform, right) then None
    else if left.value != right.value && !Opposites(left.subject, left.value, right.value) then None
    else
      var agree := left.value == right.value;
      var judgment := if agree then Corroborates else Contradicts;
      var ordered := if AtMost(left.nodeId, right.nodeId) then (left, right) else (right, left);
      var id := platform.contentId(OfRelationship(edge.edgeId, judgment, ordered.0.claimId, ordered.1.claimId));
      Some(Relationship(
        id, edge.edgeId, edge.fromNodeId, edge.toNodeId, judgment, Some(left.subject),
        if agree then Some(left.value) else None, Some(ordered.0.claimId), Some(ordered.1.claimId)))
  }

  function Unresolved(platform: Platform, edge: Edge): Relationship {
    Relationship(
      platform.contentId(OfUnresolved(edge.edgeId)), edge.edgeId, edge.fromNodeId,
      edge.toNodeId, InsufficientEvidence, None, None, None, None)
  }

  /** Which claim is on the left does not matter. */
  lemma RelatedEitherWay(platform: Platform, edge: Edge, left: Claim, right: Claim)
    requires left.nodeId != right.nodeId
    ensures Related(platform, edge, right, left) == Related(platform, edge, left, right)
  {
    LessTotal(left.nodeId, right.nodeId);
    if Less(left.nodeId, right.nodeId) {
      LessAsymmetric(left.nodeId, right.nodeId);
    }
    assert {right.value, left.value} == {left.value, right.value};
  }

  /** A claim of the one node and a claim of the other establish the relationship. */
  ghost predicate Establishes(platform: Platform, edge: Edge, ls: seq<Claim>, rs: seq<Claim>, r: Relationship) {
    exists a, b :: a in ls && b in rs && Related(platform, edge, a, b) == Some(r)
  }

  lemma RelatedMeans(platform: Platform, edge: Edge, a: Claim, b: Claim, r: Relationship)
    requires Related(platform, edge, a, b) == Some(r)
    ensures r.subject == Some(a.subject) && b.subject == a.subject
    ensures a.subject == HazardDomain ==> a.value == b.value
  {
  }

  /**
   Along an edge between different sources two records have at most one decisive relationship on each
   subject.
   */
  lemma OneRelationshipPerSubject(
    platform: Platform, edge: Edge, m: Node, n: Node, r: Relationship, s: Relationship)
    requires m.record.source != n.record.source && r.subject == s.subject
    requires Establishes(platform, edge, ExtractClaims(platform, m), ExtractClaims(platform, n), r)
    requires Establishes(platform, edge, ExtractClaims(platform, m), ExtractClaims(platform, n), s)
    ensures r == s
  {
    var a, b :| a in ExtractClaims(platform, m) && b in ExtractClaims(platform, n) && Related(platform, edge, a, b) == Some(r);
    var c, d :| c in ExtractClaims(platform, m) && d in ExtractClaims(platform, n) && Related(platform, edge, c, d) == Some(s);
    RelatedMeans(platform, edge, a, b, r);
    RelatedMeans(platform, edge, c, d, s);
    OneClaimPerSubject(platform, m, a, c);
    OneClaimPerSubject(platform, n, b, d);
    assert a == c && b == d;
  }

  // ---- one edge ----

  type Found = map<string, Relationship>

  /** Everything found is established and stands under its identity; everything established is found. */
  ghost predicate Collects(platform: Platform, edge: Edge, ls: seq<Claim>, rs: seq<Claim>, found: Found) {
    && (forall id {:trigger found[id]} :: id in found ==>
          found[id].relationshipId == id && Establishes(platform, edge, ls, rs, found[id]))
    && (forall r :: Establishes(platform, edge, ls, rs, r) ==> r.relationshipId in found)
  }

  /** The inner loop of `analyze_incident`. */
  method RelateClaim(platform: Platform, edge: Edge, ls: seq<Claim>, left: Claim, rs: seq<Claim>, found: Found)
    returns (more: Found)
    requires Collects(platform, edge, ls, rs, found)
    ensures Collects(platform, edge, ls + [left], rs, more)
  {
    more := found;
    ghost var all := ls + [left];
    assert left in all && forall a :: a in all <==> a in ls || a == left;
    for j := 0 to |rs|
      invariant forall id :: id in more ==> more[id].relationshipId == id && Establishes(platform, edge, all, rs, more[id])
      invariant forall id :: id in found ==> id in more
      invariant forall k, r :: 0 <= k < j && Related(platform, edge, left, rs[k]) == Some(r) ==> r.relationshipId in more
    {
      var related := Related(platform, edge, left, rs[j]);
      if related.Some? {
        assert rs[j] in rs;
        more := more[related.value.relationshipId := related.value];
      }
    }
    forall r | Establishes(platform, edge, all, rs, r) ensures r.relationshipId in more {
      var a, b :| a in all && b in rs && Related(platform, edge, a, b) == Some(r);
      if a in ls {
        assert Establishes(platform, edge, ls, rs, r);
      } else {
        var k :| 0 <= k < |rs| && rs[k] == b;
      }
    }
  }

  /** No two claims establish anything. */
  ghost predicate Silent(platform: Platform, edge: Edge, ls: seq<Claim>, rs: seq<Claim>) {
    forall r :: !Establishes(platform, edge, ls, rs, r)
  }

  /** What an edge reports: what it collects, or that the evidence is insufficient. */
  ghost predicate Reports(platform: Platform, edge: Edge, ls: seq<Claim>, rs: seq<Claim>, found: Found) {
    if Silent(platform, edge, ls, rs) then
      found == map[Unresolved(platform, edge).relationshipId := Unresolved(platform, edge)]
    else Collects(platform, edge, ls, rs, found)
  }

  method RelateEdge(platform: Platform, edge: Edge, ls: seq<Claim>, rs: seq<Claim>) returns (found: Found)
    ensures Reports(platform, edge, ls, rs, found)
  {
    found := map[];
    for i := 0 to |ls|
      invariant Collects(platform, edge, ls[..i], rs, found)
    {
      assert ls[..i + 1] == ls[..i] + [ls[i]];
      found := RelateClaim(platform, edge, ls[..i], ls[i], rs, found);
    }
    assert ls[..|ls|] == ls;
    if found == map[] {
      var unresolved := Unresolved(platform, edge);
      found := map[unresolved.relationshipId := unresolved];
    } else {
      var id :| id in found;
      assert Establishes(platform, edge, ls, rs, found[id]);
    }
  }

  function OnSubject(found: Found, subject: Subject): set<string> {
    set id | id in found && found[id].subject == Some(subject)
  }

  lemma {:induction false} Single<T>(s: set<T>)
    requires forall x, y :: x in s && y in s ==> x == y
    ensures |s| <= 1
  {
    if x :| x in s {
      assert s == {x};
    }
  }

  lemma OneOnSubject(platform: Platform, edge: Edge, m: Node, n: Node, found: Found, subject: Subject)
    requires m.record.source != n.record.source
    requires Collects(platform, edge, ExtractClaims(platform, m), ExtractClaims(platform, n), found)
    ensures |OnSubject(found, subject)| <= 1
  {
    forall x, y | x in OnSubject(found, subject) && y in OnSubject(found, subject) ensures x == y {
      OneRelationshipPerSubject(platform, edge, m, n, found[x], found[y]);
    }
    Single(OnSubject(found, subject));
  }

  lemma AllOnSubjects(found: Found)
    requires forall id :: id in found ==> found[id].subject.Some?
    ensures found.Keys == OnSubject(found, HazardDomain) + OnSubject(found, EvacuationState) + OnSubject(found, RoadAccessState)
  {
    forall id | id in found
      ensures id in OnSubject(found, HazardDomain) + OnSubject(found, EvacuationState) + OnSubject(found, RoadAccessState)
    {
      var subject := found[id].subject.value;
      assert subject == HazardDomain || subject == EvacuationState || subject == RoadAccessState;
    }
  }

  lemma EstablishedIsDecisive(platform: Platform, edge: Edge, ls: seq<Claim>, rs: seq<Claim>, r: Relationship)
    requires Establishes(platform, edge, ls, rs, r)
    ensures r.subject.Some? && r.judgment != InsufficientEvidence
  {
    var a, b :| a in ls && b in rs && Related(platform, edge, a, b) == Some(r);
  }

  lemma ThreeSingles<T>(all: set<T>, a: set<T>, b: set<T>, c: set<T>)
    requires all == a + b + c && |a| <= 1 && |b| <= 1 && |c| <= 1
    ensures |all| <= 3
  {
    assert |a + b| <= |a| + |b|;
  }

  /** An edge between different sources reports at most three relationships, and always one. */
  lemma AtMostThree(platform: Platform, edge: Edge, m: Node, n: Node, found: Found)
    requires m.record.source != n.record.source
    requires Reports(platform, edge, ExtractClaims(platform, m), ExtractClaims(platform, n), found)
    ensures 1 <= |found.Keys| <= 3
  {
    var ls, rs := ExtractClaims(platform, m), ExtractClaims(platform, n);
    if !Silent(platform, edge, ls, rs) {
      var r :| Establishes(platform, edge, ls, rs, r);
      OneOnSubject(platform, edge, m, n, found, HazardDomain);
      OneOnSubject(platform, edge, m, n, found, EvacuationState);
      OneOnSubject(platform, edge, m, n, found, RoadAccessState);
      forall id | id in found ensures found[id].subject.Some? {
        EstablishedIsDecisive(platform, edge, ls, rs, found[id]);
      }
      AllOnSubjects(found);
      ThreeSingles(found.Keys, OnSubject(found, HazardDomain), OnSubject(found, EvacuationState), OnSubject(found, RoadAccessState));
      assert r.relationshipId in found.Keys;
    } else {
      assert found.Keys == {Unresolved(platform, edge).relationshipId};
    }
  }

  // ---- all edges of an incident ----

  function NodeIdOf(n: Node): string {
    n.nodeId
  }

  type Claims = map<string, seq<Claim>>

  /** `claims_by_node` */
  function ClaimsByNode(platform: Platform, nodes: seq<Node>): Claims {
    if nodes == [] then map[]
    else
      var last := nodes[|nodes| - 1];
      ClaimsByNode(platform, nodes[..|nodes| - 1])[last.nodeId := ExtractClaims(platform, last)]
  }

  /** In an incident every node has its own claims. */
  lemma {:induction false} ClaimsOfNode(platform: Platform, nodes: seq<Node>, node: Node)
    requires Apart(nodes, NodeIdOf) && node in nodes
    ensures ClaimsAt(ClaimsByNode(platform, nodes), node.nodeId) == ExtractClaims(platform, node)
  {
    var before, last := nodes[..|nodes| - 1], nodes[|nodes| - 1];
    assert nodes == before + [last];
    ApartAppend(before, last, NodeIdOf);
    if node != last {
      ClaimsOfNode(platform, before, node);
      assert HasKey(before, NodeIdOf, NodeIdOf(node));
    }
  }

  /** `claims_by_node.get(...)` */
  function ClaimsAt(claims: Claims, id: string): seq<Claim> {
    if id in claims then claims[id] else []
  }

  ghost predicate Decides(platform: Platform, claims: Claims, edge: Edge, r: Relationship) {
    Establishes(platform, edge, ClaimsAt(claims, edge.fromNodeId), ClaimsAt(claims, edge.toNodeId), r)
  }

  ghost predicate Undecided(platform: Platform, claims: Claims, edge: Edge) {
    Silent(platform, edge, ClaimsAt(claims, edge.fromNodeId), ClaimsAt(claims, edge.toNodeId))
  }

  /** A relationship the analysis may report on an edge. */
  ghost predicate Reported(platform: Platform, claims: Claims, edge: Edge, r: Relationship) {
    if Undecided(platform, claims, edge) then r == Unresolved(platform, edge) else Decides(platform, claims, edge, r)
  }

  ghost function UndecidedCount(platform: Platform, claims: Claims, edges: seq<Edge>): nat {
    if edges == [] then 0
    else
      UndecidedCount(platform, claims, edges[..|edges| - 1])
      + if Undecided(platform, claims, edges[|edges| - 1]) then 1 else 0
  }

  function CountOf(rs: seq<Relationship>, judgment: Label): nat {
    if rs == [] then 0 else (if rs[0].judgment == judgment then 1 else 0) + CountOf(rs[1..], judgment)
  }

  lemma {:induction false} CountConcat(xs: seq<Relationship>, ys: seq<Relationship>, judgment: Label)
    ensures CountOf(xs + ys, judgment) == CountOf(xs, judgment) + CountOf(ys, judgment)
  {
    if xs == [] {
      assert xs + ys == ys;
    } else {
      assert (xs + ys)[1..] == xs[1..] + ys;
      CountConcat(xs[1..], ys, judgment);
    }
  }

  lemma {:induction false} CountInserted(r: Relationship, rs: seq<Relationship>, judgment: Label)
    ensures CountOf(Insert(r, rs, ByRelationshipId), judgment) == CountOf([r] + rs, judgment)
  {
    if rs != [] && !ByRelationshipId(r, rs[0]) {
      CountInserted(r, rs[1..], judgment);
      assert ([r] + rs)[1..] == rs && ([r] + rs[1..])[1..] == rs[1..];
    }
  }

  /** Sorting changes no count. */
  lemma {:induction false} CountSorted(rs: seq<Relationship>, judgment: Label)
    ensures CountOf(Sort(rs, ByRelationshipId), judgment) == CountOf(rs, judgment)
  {
    if rs != [] {
      CountSorted(rs[1..], judgment);
      CountInserted(rs[0], Sort(rs[1..], ByRelationshipId), judgment);
      assert ([rs[0]] + Sort(rs[1..], ByRelationshipId))[1..] == Sort(rs[1..], ByRelationshipId);
    }
  }

  /** `edge_relationships.values()`, in the order of their identities. */
  function Values(found: Found): (rs: seq<Relationship>)
    ensures |rs| == |found|
  {
    var ids := SortedKeys(found.Keys);
    seq(|ids|, i requires 0 <= i < |ids| => assert ids[i] in ids; found[ids[i]])
  }

  lemma ValuesListed(found: Found, r: Relationship)
    ensures r in Values(found) <==> exists id :: id in found && found[id] == r
  {
    var ids, rs := SortedKeys(found.Keys), Values(found);
    if r in rs {
      var i :| 0 <= i < |rs| && rs[i] == r;
      assert ids[i] in ids;
    }
    if id :| id in found && found[id] == r {
      assert id in ids;
      var i :| 0 <= i < |ids| && ids[i] == id;
      assert rs[i] == r;
    }
  }

  predicate ByRelationshipId(a: Relationship, b: Relationship) {
    AtMost(a.relationshipId, b.relationshipId)
  }

  // ---- the analysis ----

  datatype Analysis = Analysis(
    relationships: seq<Relationship>, edges: nat, corroborations: nat, contradictions: nat, insufficient: nat)

  /** Some relationship on the edge is listed under this identity. */
  ghost predicate Listed(platform: Platform, claims: Claims, edge: Edge, rs: seq<Relationship>, id: string) {
    exists r :: r in rs && r.relationshipId == id && Reported(platform, claims, edge, r)
  }

  ghost predicate FromEdge(platform: Platform, claims: Claims, edges: seq<Edge>, r: Relationship) {
    exists edge :: edge in edges && Reported(platform, claims, edge, r)
  }

  /** Nothing is listed but what some edge reports, and every identity an edge reports is listed. */
  ghost predicate Covers(platform: Platform, claims: Claims, edges: seq<Edge>, rs: seq<Relationship>) {
    && (forall r {:trigger FromEdge(platform, claims, edges, r)} :: r in rs ==> FromEdge(platform, claims, edges, r))
    && (forall edge, r {:trigger Reported(platform, claims, edge, r)} ::
          edge in edges && Reported(platform, claims, edge, r) ==> Listed(platform, claims, edge, rs, r.relationshipId))
  }

  /** What one edge contributes. */
  ghost predicate Contributes(platform: Platform, claims: Claims, edge: Edge, rs: seq<Relationship>) {
    && rs != []
    && (forall r :: r in rs ==> Reported(platform, claims, edge, r))
    && (forall r {:trigger Reported(platform, claims, edge, r)} ::
          Reported(platform, claims, edge, r) ==> Listed(platform, claims, edge, rs, r.relationshipId))
    && CountOf(rs, InsufficientEvidence) == if Undecided(platform, claims, edge) then 1 else 0
  }

  lemma {:induction false} NoneInsufficient(rs: seq<Relationship>)
    requires forall r :: r in rs ==> r.judgment != InsufficientEvidence
    ensures CountOf(rs, InsufficientEvidence) == 0
  {
    if rs != [] {
      assert rs[0] in rs;
      NoneInsufficient(rs[1..]);
    }
  }

  lemma UndecidedContributes(platform: Platform, claims: Claims, edge: Edge, found: Found)
    requires Undecided(platform, claims, edge)
    requires found == map[Unresolved(platform, edge).relationshipId := Unresolved(platform, edge)]
    ensures Contributes(platform, claims, edge, Values(found))
  {
    var unresolved := Unresolved(platform, edge);
    ValuesListed(found, unresolved);
    assert found.Keys == {unresolved.relationshipId};
    assert Values(found) == [unresolved];
  }

  ghost predicate CollectsAt(platform: Platform, claims: Claims, edge: Edge, found: Found) {
    Collects(platform, edge, ClaimsAt(claims, edge.fromNodeId), ClaimsAt(claims, edge.toNodeId), found)
  }

  lemma DecidedReported(platform: Platform, claims: Claims, edge: Edge, found: Found, r: Relationship)
    requires !Undecided(platform, claims, edge) && CollectsAt(platform, claims, edge, found) && r in Values(found)
    ensures Reported(platform, claims, edge, r) && r.judgment != InsufficientEvidence
  {
    ValuesListed(found, r);
    EstablishedIsDecisive(
      platform, edge, ClaimsAt(claims, edge.fromNodeId), ClaimsAt(claims, edge.toNodeId), r);
  }

  lemma DecidedListed(platform: Platform, claims: Claims, edge: Edge, found: Found, r: Relationship)
    requires !Undecided(platform, claims, edge) && CollectsAt(platform, claims, edge, found) && Reported(platform, claims, edge, r)
    ensures Listed(platform, claims, edge, Values(found), r.relationshipId)
  {
    var s := found[r.relationshipId];
    ValuesListed(found, s);
    DecidedReported(platform, claims, edge, found, s);
  }

  lemma DecidedContributes(platform: Platform, claims: Claims, edge: Edge, found: Found)
    requires !Undecided(platform, claims, edge) && CollectsAt(platform, claims, edge, found)
    ensures Contributes(platform, claims, edge, Values(found))
  {
    forall r | r in Values(found) ensures Reported(platform, claims, edge, r) && r.judgment != InsufficientEvidence {
      DecidedReported(platform, claims, edge, found, r);
    }
    forall r | Reported(platform, claims, edge, r) ensures Listed(platform, claims, edge, Values(found), r.relationshipId) {
      DecidedListed(platform, claims, edge, found, r);
    }
    NoneInsufficient(Values(found));
    SomethingFound(
      platform, edge, ClaimsAt(claims, edge.fromNodeId), ClaimsAt(claims, edge.toNodeId), found);
    assert |Values(found)| > 0;
  }

  lemma SomethingFound(platform: Platform, edge: Edge, ls: seq<Claim>, rs: seq<Claim>, found: Found)
    requires !Silent(platform, edge, ls, rs) && Collects(platform, edge, ls, rs, found)
    ensures |found| > 0
  {
    var r :| Establishes(platform, edge, ls, rs, r);
    assert r.relationshipId in found.Keys;
  }

  lemma EdgeContributes(platform: Platform, claims: Claims, edge: Edge, found: Found)
    requires Reports(
               platform, edge, ClaimsAt(claims, edge.fromNodeId), ClaimsAt(claims, edge.toNodeId), found)
    ensures Contributes(platform, claims, edge, Values(found))
  {
    if Undecided(platform, claims, edge) {
      UndecidedContributes(platform, claims, edge, found);
    } else {
      DecidedContributes(platform, claims, edge, found);
    }
  }

  lemma ListedAmongMore(
    platform: Platform, claims: Claims, edge: Edge, rs: seq<Relationship>, all: seq<Relationship>, id: string)
    requires Listed(platform, claims, edge, rs, id) && forall r :: r in rs ==> r in all
    ensures Listed(platform, claims, edge, all, id)
  {
  }

  lemma CoversNext(
    platform: Platform, claims: Claims, edges: seq<Edge>, edge: Edge, rs: seq<Relationship>, more: seq<Relationship>)
    requires Covers(platform, claims, edges, rs) && Contributes(platform, claims, edge, more)
    ensures Covers(platform, claims, edges + [edge], rs + more)
  {
    var all := edges + [edge];
    assert forall e :: e in all <==> e in edges || e == edge;
    forall r | r in rs + more ensures FromEdge(platform, claims, all, r) {
      if r in more {
        assert Reported(platform, claims, edge, r);
      } else {
        assert FromEdge(platform, claims, edges, r);
      }
    }
    forall e, r | e in all && Reported(platform, claims, e, r) ensures Listed(platform, claims, e, rs + more, r.relationshipId) {
      ListedAmongMore(platform, claims, e, if e == edge then more else rs, rs + more, r.relationshipId);
    }
  }

  /** The first edges are covered, and those left undecided are counted. */
  ghost predicate Analyzed(platform: Platform, claims: Claims, edges: seq<Edge>, rs: seq<Relationship>) {
    && Covers(platform, claims, edges, rs) && |edges| <= |rs|
    && CountOf(rs, InsufficientEvidence) == UndecidedCount(platform, claims, edges)
  }

  lemma UndecidedNext(platform: Platform, claims: Claims, edges: seq<Edge>, edge: Edge)
    ensures UndecidedCount(platform, claims, edges + [edge]) ==
            UndecidedCount(platform, claims, edges) + if Undecided(platform, claims, edge) then 1 else 0
  {
    assert (edges + [edge])[..|edges|] == edges;
  }

  lemma AnalyzedNext(
    platform: Platform, claims: Claims, edges: seq<Edge>, edge: Edge, rs: seq<Relationship>, more: seq<Relationship>)
    requires Analyzed(platform, claims, edges, rs) && Contributes(platform, claims, edge, more)
    ensures Analyzed(platform, claims, edges + [edge], rs + more)
  {
    CoversNext(platform, claims, edges, edge, rs, more);
    UndecidedNext(platform, claims, edges, edge);
    CountConcat(rs, more, InsufficientEvidence);
  }

  function AnalysisOf(edges: nat, ordered: seq<Relationship>): Analysis {
    Analysis(ordered, edges, CountOf(ordered, Corroborates), CountOf(ordered, Contradicts),
             CountOf(ordered, InsufficientEvidence))
  }

  /** Every edge is covered, exactly the edges left undecided count as insufficient, and the counts add up. */
  ghost predicate Sound(platform: Platform, claims: Claims, edges: seq<Edge>, a: Analysis) {
    && Covers(platform, claims, edges, a.relationships) && Ordered(a.relationships, ByRelationshipId)
    && a.edges == |edges| <= |a.relationships|
    && a.insufficient == UndecidedCount(platform, claims, edges)
    && a.corroborations + a.contradictions + a.insufficient == |a.relationships|
  }

  /** `analyze_incident` */
  method AnalyzeIncident(platform: Platform, nodes: seq<Node>, edges: seq<Edge>) returns (a: Analysis)
    ensures Sound(platform, ClaimsByNode(platform, nodes), edges, a)
  {
    var claims := CollectClaims(platform, nodes);
    var relationships: seq<Relationship> := [];
    AnalyzedNothing(platform, claims);
    for i := 0 to |edges|
      invariant Analyzed(platform, claims, edges[..i], relationships)
    {
      var more := AnalyzeEdge(platform, claims, edges[i]);
      AnalyzedNext(platform, claims, edges[..i], edges[i], relationships, more);
      TakeNext(edges, i);
      relationships := relationships + more;
    }
    TakeAll(edges);
    SortedAnalysis(platform, claims, edges, relationships);
    a := AnalysisOf(|edges|, Sort(relationships, ByRelationshipId));
  }

  method CollectClaims(platform: Platform, nodes: seq<Node>) returns (claims: Claims)
    ensures claims == ClaimsByNode(platform, nodes)
  {
    claims := map[];
    for i := 0 to |nodes|
      invariant claims == ClaimsByNode(platform, nodes[..i])
    {
      assert nodes[..i + 1][..i] == nodes[..i];
      claims := claims[nodes[i].nodeId := ExtractClaims(platform, nodes[i])];
    }
    assert nodes[..|nodes|] == nodes;
  }

  lemma AnalyzedNothing(platform: Platform, claims: Claims)
    ensures Analyzed(platform, claims, [], [])
  {
  }

  method AnalyzeEdge(platform: Platform, claims: Claims, edge: Edge) returns (rs: seq<Relationship>)
    ensures Contributes(platform, claims, edge, rs)
  {
    var found := RelateEdge(
      platform, edge, ClaimsAt(claims, edge.fromNodeId), ClaimsAt(claims, edge.toNodeId));
    EdgeContributes(platform, claims, edge, found);
    rs := Values(found);
  }

  lemma IdOrderRanks()
    ensures Ranks(ByRelationshipId)
  {
    forall a: Relationship, b: Relationship ensures ByRelationshipId(a, b) || ByRelationshipId(b, a) {
      LessTotal(a.relationshipId, b.relationshipId);
    }
    forall a: Relationship, b: Relationship, c: Relationship | ByRelationshipId(a, b) && ByRelationshipId(b, c)
      ensures ByRelationshipId(a, c)
    {
      AtMostTransitive(a.relationshipId, b.relationshipId, c.relationshipId);
    }
  }

  lemma SortedCovers(platform: Platform, claims: Claims, edges: seq<Edge>, rs: seq<Relationship>)
    requires Covers(platform, claims, edges, rs)
    ensures Covers(platform, claims, edges, Sort(rs, ByRelationshipId))
  {
    SortKeepsMembers(rs, ByRelationshipId);
    forall edge, r | edge in edges && Reported(platform, claims, edge, r)
      ensures Listed(platform, claims, edge, Sort(rs, ByRelationshipId), r.relationshipId)
    {
      ListedAmongMore(platform, claims, edge, rs, Sort(rs, ByRelationshipId), r.relationshipId);
    }
  }

  lemma SortedAnalysis(platform: Platform, claims: Claims, edges: seq<Edge>, rs: seq<Relationship>)
    requires Analyzed(platform, claims, edges, rs)
    ensures Sound(platform, claims, edges, AnalysisOf(|edges|, Sort(rs, ByRelationshipId)))
  {
    SortedCovers(platform, claims, edges, rs);
    IdOrderRanks();
    SortOrdered(rs, ByRelationshipId);
    CountSorted(rs, InsufficientEvidence);
    CountsCover(Sort(rs, ByRelationshipId));
  }

  lemma {:induction false} CountsCover(rs: seq<Relationship>)
    ensures CountOf(rs, Corroborates) + CountOf(rs, Contradicts) + CountOf(rs, InsufficientEvidence) == |rs|
  {
    if rs != [] {
      CountsCover(rs[1..]);
    }
  }
}
