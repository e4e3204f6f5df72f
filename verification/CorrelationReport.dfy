/**
 What a correlation result says of the pairs it was built from: which incidents are reported, what each
 contains, and in which order, without reference to how they are computed.
 */
module CorrelationReport {
  import opened Wrappers
  import opened Ordering
  import opened EvidenceGraph
  import opened Correlation
  import opened IncidentBuilder
  import opened CorrelationLaws
  import opened Lookups
  import Sequences
  import Sorting

  ghost function PairLinks(pairs: seq<CorrelationPair>): Links {
    set p | p in pairs :: (NodeId(p.left), NodeId(p.right))
  }

  ghost function Nodes(pairs: seq<CorrelationPair>): set<string> {
    (set p | p in pairs :: NodeId(p.left)) + (set p | p in pairs :: NodeId(p.right))
  }

  /** The last message of the batch that names node `x`; in one pair the right side is the later. */
  ghost predicate Stands(pairs: seq<CorrelationPair>, x: string, m: StreamMessage) {
    exists i :: LastAt(pairs, i, x, m)
  }

  ghost predicate LastAt(pairs: seq<CorrelationPair>, i: nat, x: string, m: StreamMessage) {
    && i < |pairs| && NodeId(m) == x
    && (m == pairs[i].right || (m == pairs[i].left && NodeId(pairs[i].right) != x))
    && forall j :: i < j < |pairs| ==> NodeId(pairs[j].left) != x && NodeId(pairs[j].right) != x
  }

  /** The evidence that a chain of pairs joins to node `x`. */
  ghost predicate InClass(pairs: seq<CorrelationPair>, x: string, n: EvidenceNode) {
    Connected(PairLinks(pairs), x, n.nodeId) && Stands(pairs, n.nodeId, n.message)
  }

  /** The edge of a pair: from its lesser node to its greater, each with its own basis, as measured. */
  predicate Measures(platform: Platform, p: CorrelationPair, e: EvidenceEdge) {
    && (|| (AtMost(NodeId(p.left), NodeId(p.right)) && e.fromNodeId == NodeId(p.left) && e.toNodeId == NodeId(p.right)
            && e.fromBasis == p.leftBasis && e.toBasis == p.rightBasis)
        || (Less(NodeId(p.right), NodeId(p.left)) && e.fromNodeId == NodeId(p.right) && e.toNodeId == NodeId(p.left)
            && e.fromBasis == p.rightBasis && e.toBasis == p.leftBasis))
    && e.edgeId == ContentId(platform, "edge", [e.fromNodeId, e.toNodeId])
    && (e.spatialRelation == Intersects <==> p.distanceKm <= 0.001)
    && e.distanceKm == platform.round3(p.distanceKm) && e.timeDeltaMinutes == platform.round3(p.timeDeltaMinutes)
  }

  ghost predicate EdgeOfClass(platform: Platform, pairs: seq<CorrelationPair>, x: string, e: EvidenceEdge) {
    exists p :: p in pairs && Measures(platform, p, e) && Connected(PairLinks(pairs), x, NodeId(p.left))
  }

  function NodeIds(nodes: seq<EvidenceNode>): seq<string> {
    seq(|nodes|, i requires 0 <= i < |nodes| => nodes[i].nodeId)
  }

  function EdgeIds(edges: seq<EvidenceEdge>): seq<string> {
    seq(|edges|, i requires 0 <= i < |edges| => edges[i].edgeId)
  }

  /** All of the class, by identifier, and nothing else. */
  ghost predicate ListsClass(platform: Platform, pairs: seq<CorrelationPair>, x: string, inc: IncidentCandidate) {
    && (forall n :: n in inc.nodes <==> InClass(pairs, x, n)) && StrictlyAscending(NodeIds(inc.nodes))
    && (forall e :: e in inc.edges <==> EdgeOfClass(platform, pairs, x, e)) && StrictlyAscending(EdgeIds(inc.edges))
    && inc.incidentId == ContentId(platform, "incident", NodeIds(inc.nodes))
  }

  /** `first` and `last` are the times of the first and of the latest signal. */
  ghost predicate Between(nodes: seq<EvidenceNode>, first: int, last: int) {
    && (forall n :: n in nodes ==> first <= n.message.event.occurredAt <= last)
    && (exists n :: n in nodes && n.message.event.occurredAt == first)
    && (exists n :: n in nodes && n.message.event.occurredAt == last)
  }

  ghost predicate SpansTime(platform: Platform, inc: IncidentCandidate) {
    && Between(inc.nodes, inc.startedAt, inc.latestSignalAt)
    && inc.timeSpanMinutes == platform.round3((inc.latestSignalAt - inc.startedAt) as real / 60000000.0)
  }

  /** The longest distance among the edges. */
  ghost predicate SpansDistance(inc: IncidentCandidate) {
    && (forall e :: e in inc.edges ==> e.distanceKm <= inc.maxDistanceKm)
    && (exists e :: e in inc.edges && e.distanceKm == inc.maxDistanceKm)
  }

  predicate HasPlace(platform: Platform, n: EvidenceNode) {
    n.message.event.place.Some? && platform.strip(n.message.event.place.value) != ""
  }

  predicate Sooner(a: EvidenceNode, b: EvidenceNode) {
    a.message.event.occurredAt < b.message.event.occurredAt
    || (a.message.event.occurredAt == b.message.event.occurredAt && Less(a.nodeId, b.nodeId))
  }

  /** `place` is the place of the soonest node that has one. */
  ghost predicate NamedAfter(platform: Platform, nodes: seq<EvidenceNode>, place: string) {
    || (place == "mapped area" && forall n :: n in nodes ==> !HasPlace(platform, n))
    || (exists n :: n in nodes && HasPlace(platform, n) && place == platform.strip(n.message.event.place.value)
                    && forall m :: m in nodes && HasPlace(platform, m) ==> m == n || Sooner(n, m))
  }

  ghost predicate ListsSources(inc: IncidentCandidate) {
    && StrictlyAscending(inc.sources) && inc.titleSourceCount == |inc.sources|
    && forall s :: s in inc.sources <==> exists n :: n in inc.nodes && n.message.event.source == s
  }

  /** `inc` reports the class of `x`. */
  ghost predicate Reports(platform: Platform, pairs: seq<CorrelationPair>, x: string, inc: IncidentCandidate) {
    && ListsClass(platform, pairs, x, inc) && SpansTime(platform, inc) && SpansDistance(inc) && ListsSources(inc)
    && NamedAfter(platform, inc.nodes, inc.titlePlace) && inc.center == platform.center(inc.nodes)
  }

  /** The least node of each class. */
  ghost function FirstNodes(pairs: seq<CorrelationPair>): set<string> {
    set x | x in Nodes(pairs) && forall y :: y in Nodes(pairs) && Connected(PairLinks(pairs), x, y) ==> AtMost(x, y)
  }

  // ---- the dictionaries against the pairs ----

  lemma WalksAlike(links: Links, more: Links, x: string, y: string)
    requires forall a, b :: Linked(links, a, b) ==> Linked(more, a, b)
    ensures Connected(links, x, y) ==> Connected(more, x, y)
  {
    if Connected(links, x, y) {
      var walk :| IsWalk(links, walk) && walk[0] == x && walk[|walk| - 1] == y;
      assert IsWalk(more, walk);
    }
  }

  ghost function Collected(platform: Platform, pairs: seq<CorrelationPair>): Content {
    Collect(ReadAll(platform, pairs))
  }

  ghost predicate Accepted(platform: Platform, pairs: seq<CorrelationPair>) {
    Consistent(ReadAll(platform, pairs))
  }

  lemma MeasuresEdge(platform: Platform, p: CorrelationPair, e: EvidenceEdge)
    ensures Measures(platform, p, e) <==> e == EdgeFromPair(platform, p)
  {
    LessTotal(NodeId(p.left), NodeId(p.right));
    if Less(NodeId(p.right), NodeId(p.left)) {
      LessAsymmetric(NodeId(p.right), NodeId(p.left));
    }
  }

  lemma PairCollected(platform: Platform, pairs: seq<CorrelationPair>, p: CorrelationPair)
    requires Accepted(platform, pairs) && p in pairs
    ensures var e := EdgeFromPair(platform, p);
            e.edgeId in Collected(platform, pairs).edges && Collected(platform, pairs).edges[e.edgeId] == e
  {
    var rs := ReadAll(platform, pairs);
    var i :| 0 <= i < |pairs| && pairs[i] == p;
    assert rs[i] in rs;
    CollectedEdge(rs, rs[i]);
  }

  lemma EdgeMeasured(platform: Platform, pairs: seq<CorrelationPair>, k: string) returns (p: CorrelationPair)
    requires k in Collected(platform, pairs).edges
    ensures p in pairs && Collected(platform, pairs).edges[k] == EdgeFromPair(platform, p) && EdgeFromPair(platform, p).edgeId == k
  {
    var rs := ReadAll(platform, pairs);
    CollectEdges(rs);
    EdgeRead(platform, pairs, Collect(rs).edges[k]);
    p :| p in pairs && EdgeFromPair(platform, p) == Collect(rs).edges[k];
  }

  lemma LinkedAlike(platform: Platform, pairs: seq<CorrelationPair>, a: string, b: string)
    requires Accepted(platform, pairs)
    ensures Linked(PairLinks(pairs), a, b) <==> Linked(LinksOf(Collected(platform, pairs).edges), a, b)
  {
    var edges := Collected(platform, pairs).edges;
    if Linked(PairLinks(pairs), a, b) {
      var p :| p in pairs && ((NodeId(p.left), NodeId(p.right)) == (a, b) || (NodeId(p.left), NodeId(p.right)) == (b, a));
      PairCollected(platform, pairs, p);
      var e := EdgeFromPair(platform, p);
      assert (edges[e.edgeId].fromNodeId, edges[e.edgeId].toNodeId) in LinksOf(edges);
    }
    if Linked(LinksOf(edges), a, b) {
      var k :| k in edges && ((edges[k].fromNodeId, edges[k].toNodeId) == (a, b) || (edges[k].fromNodeId, edges[k].toNodeId) == (b, a));
      var p := EdgeMeasured(platform, pairs, k);
      assert (NodeId(p.left), NodeId(p.right)) in PairLinks(pairs);
    }
  }

  lemma ChainsAlike(platform: Platform, pairs: seq<CorrelationPair>, x: string, y: string)
    requires Accepted(platform, pairs)
    ensures Connected(PairLinks(pairs), x, y) <==> Connected(LinksOf(Collected(platform, pairs).edges), x, y)
  {
    var links, more := PairLinks(pairs), LinksOf(Collected(platform, pairs).edges);
    forall a, b ensures Linked(links, a, b) <==> Linked(more, a, b) {
      LinkedAlike(platform, pairs, a, b);
    }
    WalksAlike(links, more, x, y);
    WalksAlike(more, links, x, y);
  }

  lemma MessagesNext(platform: Platform, before: seq<CorrelationPair>, p: CorrelationPair)
    ensures Collected(platform, before + [p]).messages
            == Collected(platform, before).messages[NodeId(p.left) := p.left][NodeId(p.right) := p.right]
  {
    var rs := ReadAll(platform, before + [p]);
    assert rs[..|rs| - 1] == ReadAll(platform, before);
  }

  lemma NodesNext(before: seq<CorrelationPair>, p: CorrelationPair)
    ensures Nodes(before + [p]) == Nodes(before) + {NodeId(p.left), NodeId(p.right)}
  {
    assert forall q :: q in before + [p] <==> q in before || q == p;
  }

  lemma StandsNext(before: seq<CorrelationPair>, p: CorrelationPair, x: string, m: StreamMessage)
    requires if x == NodeId(p.right) then m == p.right else if x == NodeId(p.left) then m == p.left else Stands(before, x, m)
    ensures Stands(before + [p], x, m)
  {
    if x == NodeId(p.right) || x == NodeId(p.left) {
      assert LastAt(before + [p], |before|, x, m);
    } else {
      var i: nat :| LastAt(before, i, x, m);
      assert LastAt(before + [p], i, x, m);
    }
  }

  lemma {:induction false} MessagesStand(platform: Platform, pairs: seq<CorrelationPair>, x: string)
    ensures x in Collected(platform, pairs).messages <==> x in Nodes(pairs)
    ensures x in Collected(platform, pairs).messages ==> Stands(pairs, x, Collected(platform, pairs).messages[x])
  {
    if pairs != [] {
      var before, p := pairs[..|pairs| - 1], pairs[|pairs| - 1];
      assert pairs == before + [p];
      MessagesStand(platform, before, x);
      MessagesNext(platform, before, p);
      NodesNext(before, p);
      if x in Collected(platform, pairs).messages {
        StandsNext(before, p, x, Collected(platform, pairs).messages[x]);
      }
    }
  }

  lemma StandsUnique(pairs: seq<CorrelationPair>, x: string, m: StreamMessage, n: StreamMessage)
    requires Stands(pairs, x, m) && Stands(pairs, x, n)
    ensures m == n && x in Nodes(pairs)
  {
    var i: nat :| LastAt(pairs, i, x, m);
    var j: nat :| LastAt(pairs, j, x, n);
    assert pairs[i] in pairs;
  }

  lemma ClassListed(platform: Platform, pairs: seq<CorrelationPair>, x: string, y: string)
    requires Accepted(platform, pairs)
    ensures y in Component(Collected(platform, pairs), x) <==> y in Nodes(pairs) && Connected(PairLinks(pairs), x, y)
  {
    MessagesStand(platform, pairs, y);
    ChainsAlike(platform, pairs, x, y);
  }

  lemma FirstNodesLead(platform: Platform, pairs: seq<CorrelationPair>)
    requires Accepted(platform, pairs)
    ensures FirstNodes(pairs) == Leaders(Collected(platform, pairs))
  {
    forall x, y ensures y in Component(Collected(platform, pairs), x) <==> y in Nodes(pairs) && Connected(PairLinks(pairs), x, y) {
      ClassListed(platform, pairs, x, y);
    }
    forall x ensures x in Collected(platform, pairs).messages <==> x in Nodes(pairs) {
      MessagesStand(platform, pairs, x);
    }
  }

  // ---- one incident ----

  ghost predicate NodesFrom(messages: Messages, ids: seq<string>, nodes: seq<EvidenceNode>) {
    && |nodes| == |ids| && (forall i :: 0 <= i < |ids| ==> ids[i] in messages)
    && forall i :: 0 <= i < |ids| ==> nodes[i] == EvidenceNode(ids[i], messages[ids[i]])
  }

  lemma NodeOfClass(platform: Platform, pairs: seq<CorrelationPair>, x: string, nodes: seq<EvidenceNode>, n: EvidenceNode)
    requires Accepted(platform, pairs)
    requires NodesFrom(Collected(platform, pairs).messages, SortedKeys(Component(Collected(platform, pairs), x)), nodes)
    ensures n in nodes <==> InClass(pairs, x, n)
  {
    var c := Collected(platform, pairs);
    var ids := SortedKeys(Component(c, x));
    if n in nodes {
      var i :| 0 <= i < |nodes| && nodes[i] == n;
      assert ids[i] in ids;
      ClassListed(platform, pairs, x, ids[i]);
      MessagesStand(platform, pairs, ids[i]);
    }
    if InClass(pairs, x, n) {
      StandsUnique(pairs, n.nodeId, n.message, n.message);
      ClassListed(platform, pairs, x, n.nodeId);
      MessagesStand(platform, pairs, n.nodeId);
      StandsUnique(pairs, n.nodeId, n.message, c.messages[n.nodeId]);
      assert n.nodeId in ids;
      var i :| 0 <= i < |ids| && ids[i] == n.nodeId;
      assert nodes[i] == n;
    }
  }

  ghost predicate EdgesFrom(edges: Edges, ids: seq<string>, inside: seq<EvidenceEdge>) {
    && |inside| == |ids| && (forall i :: 0 <= i < |ids| ==> ids[i] in edges)
    && forall i :: 0 <= i < |ids| ==> inside[i] == edges[ids[i]]
  }

  lemma EdgeInClass(platform: Platform, pairs: seq<CorrelationPair>, x: string, p: CorrelationPair)
    requires Accepted(platform, pairs) && p in pairs
    ensures var e := EdgeFromPair(platform, p);
            && e.edgeId in Collected(platform, pairs).edges
            && (e.edgeId in EdgeIdsWithin(Collected(platform, pairs).edges, SortedKeys(Component(Collected(platform, pairs), x)))
                <==> Connected(PairLinks(pairs), x, NodeId(p.left)))
  {
    var l, r, links := NodeId(p.left), NodeId(p.right), PairLinks(pairs);
    PairCollected(platform, pairs, p);
    ClassListed(platform, pairs, x, l);
    ClassListed(platform, pairs, x, r);
    assert (l, r) in links;
    ConnectedByLink(links, l, r);
    if Connected(links, x, l) {
      ConnectedTransitive(links, x, l, r);
    }
  }

  lemma EdgeListed(platform: Platform, pairs: seq<CorrelationPair>, x: string, inside: seq<EvidenceEdge>, e: EvidenceEdge)
    requires Accepted(platform, pairs)
    requires EdgesFrom(Collected(platform, pairs).edges,
                       SortedKeys(EdgeIdsWithin(Collected(platform, pairs).edges, SortedKeys(Component(Collected(platform, pairs), x)))), inside)
    ensures e in inside <==> EdgeOfClass(platform, pairs, x, e)
  {
    var edges := Collected(platform, pairs).edges;
    var ids := SortedKeys(EdgeIdsWithin(edges, SortedKeys(Component(Collected(platform, pairs), x))));
    if e in inside {
      var i :| 0 <= i < |inside| && inside[i] == e;
      assert ids[i] in ids;
      var p := EdgeMeasured(platform, pairs, ids[i]);
      MeasuresEdge(platform, p, e);
      EdgeInClass(platform, pairs, x, p);
    }
    if EdgeOfClass(platform, pairs, x, e) {
      var p :| p in pairs && Measures(platform, p, e) && Connected(PairLinks(pairs), x, NodeId(p.left));
      MeasuresEdge(platform, p, e);
      EdgeInClass(platform, pairs, x, p);
      PairCollected(platform, pairs, p);
      assert e.edgeId in ids;
      var i :| 0 <= i < |ids| && ids[i] == e.edgeId;
      assert inside[i] == e;
    }
  }

  lemma SameIds(messages: Messages, ids: seq<string>, nodes: seq<EvidenceNode>)
    requires NodesFrom(messages, ids, nodes)
    ensures NodeIds(nodes) == ids
  {
  }

  lemma SameEdgeIds(edges: Edges, ids: seq<string>, inside: seq<EvidenceEdge>)
    requires EdgesFrom(edges, ids, inside) && forall k :: k in edges ==> edges[k].edgeId == k
    ensures EdgeIds(inside) == ids
  {
  }

  lemma {:induction false} FirstPlaceNames(platform: Platform, nodes: seq<EvidenceNode>)
    requires Sorting.Ordered(nodes, ByTimeThenId)
    requires forall i, j :: 0 <= i < j < |nodes| ==> nodes[i].nodeId != nodes[j].nodeId
    ensures NamedAfter(platform, nodes, FirstPlace(platform, nodes))
  {
    if nodes != [] {
      assert nodes == [nodes[0]] + nodes[1..];
      if HasPlace(platform, nodes[0]) {
        forall m | m in nodes && HasPlace(platform, m) ensures m == nodes[0] || Sooner(nodes[0], m) {
          var j :| 0 <= j < |nodes| && nodes[j] == m;
          assert j > 0 ==> ByTimeThenId(nodes[0], nodes[j]);
        }
        assert nodes[0] in nodes;
      } else {
        var rest := nodes[1..];
        FirstPlaceNames(platform, rest);
        if !(forall n :: n in rest ==> !HasPlace(platform, n)) {
          var n :| n in rest && HasPlace(platform, n) && FirstPlace(platform, rest) == platform.strip(n.message.event.place.value)
                   && forall m :: m in rest && HasPlace(platform, m) ==> m == n || Sooner(n, m);
          assert n in nodes;
        }
      }
    }
  }

  lemma TimeThenIdRanks()
    ensures Sorting.Ranks(ByTimeThenId)
  {
    forall a, b ensures ByTimeThenId(a, b) || ByTimeThenId(b, a) {
      LessTotal(a.nodeId, b.nodeId);
    }
    forall a, b, c | ByTimeThenId(a, b) && ByTimeThenId(b, c) ensures ByTimeThenId(a, c) {
      if AtMost(a.nodeId, b.nodeId) && AtMost(b.nodeId, c.nodeId) {
        AtMostTransitive(a.nodeId, b.nodeId, c.nodeId);
      }
    }
  }

  lemma NewestFirstRanks()
    ensures Sorting.Ranks(NewestFirst)
  {
    forall a, b ensures NewestFirst(a, b) || NewestFirst(b, a) {
      LessTotal(a.incidentId, b.incidentId);
    }
    forall a, b, c | NewestFirst(a, b) && NewestFirst(b, c) ensures NewestFirst(a, c) {
      if AtMost(c.incidentId, b.incidentId) && AtMost(b.incidentId, a.incidentId) {
        AtMostTransitive(c.incidentId, b.incidentId, a.incidentId);
      }
    }
  }

  function IdOf(n: EvidenceNode): string {
    n.nodeId
  }

  lemma PlaceNames(platform: Platform, nodes: seq<EvidenceNode>)
    requires StrictlyAscending(NodeIds(nodes))
    ensures NamedAfter(platform, nodes, PlaceFor(platform, nodes))
  {
    forall i, j | 0 <= i < j < |nodes| ensures IdOf(nodes[i]) != IdOf(nodes[j]) {
      assert NodeIds(nodes)[i] == nodes[i].nodeId && NodeIds(nodes)[j] == nodes[j].nodeId;
      LessAsymmetric(nodes[i].nodeId, nodes[j].nodeId);
    }
    var sorted := Sorting.Sort(nodes, ByTimeThenId);
    DistinctPositions(nodes, IdOf);
    DistinctForgetsOrder(nodes, sorted, IdOf);
    DistinctPositions(sorted, IdOf);
    TimeThenIdRanks();
    Sorting.SortOrdered(nodes, ByTimeThenId);
    Sorting.SortKeepsMembers(nodes, ByTimeThenId);
    FirstPlaceNames(platform, sorted);
  }

  lemma EarliestToLatest(nodes: seq<EvidenceNode>)
    requires nodes != []
    ensures Between(nodes, Earliest(nodes), Latest(nodes))
  {
  }

  lemma TimesSpan(platform: Platform, inc: IncidentCandidate)
    requires inc.nodes != [] && inc.startedAt == Earliest(inc.nodes) && inc.latestSignalAt == Latest(inc.nodes)
    requires inc.timeSpanMinutes == Minutes(platform, inc.startedAt, inc.latestSignalAt)
    ensures SpansTime(platform, inc)
  {
    EarliestToLatest(inc.nodes);
  }

  lemma SummarySpansTime(platform: Platform, ids: seq<string>, nodes: seq<EvidenceNode>, inside: seq<EvidenceEdge>)
    requires nodes != [] && inside != []
    ensures SpansTime(platform, Summary(platform, ids, nodes, inside))
  {
    TimesSpan(platform, Summary(platform, ids, nodes, inside));
  }

  lemma SummarySpansDistance(platform: Platform, ids: seq<string>, nodes: seq<EvidenceNode>, inside: seq<EvidenceEdge>)
    requires nodes != [] && inside != []
    ensures SpansDistance(Summary(platform, ids, nodes, inside))
  {
  }

  lemma SummarySources(platform: Platform, ids: seq<string>, nodes: seq<EvidenceNode>, inside: seq<EvidenceEdge>)
    requires nodes != [] && inside != []
    ensures ListsSources(Summary(platform, ids, nodes, inside))
  {
    var inc := Summary(platform, ids, nodes, inside);
    forall s ensures s in inc.sources <==> exists n :: n in inc.nodes && n.message.event.source == s {
      if n :| n in inc.nodes && n.message.event.source == s {
        var i :| 0 <= i < |inc.nodes| && inc.nodes[i] == n;
        assert inc.nodes[i].message.event.source == s;
      }
    }
  }

  lemma IncidentParts(platform: Platform, messages: Messages, edges: Edges, ids: seq<string>)
    returns (nodes: seq<EvidenceNode>, inside: seq<EvidenceEdge>)
    requires Describable(messages, edges, ids)
    ensures NodesFrom(messages, ids, nodes) && EdgesFrom(edges, SortedKeys(EdgeIdsWithin(edges, ids)), inside)
    ensures nodes != [] && inside != [] && IncidentOf(platform, messages, edges, ids) == Summary(platform, ids, nodes, inside)
  {
    ListedWithin(edges, ids);
    nodes, inside := NodesOf(messages, ids), EdgesOf(edges, SortedKeys(EdgeIdsWithin(edges, ids)));
  }

  lemma IncidentReports(platform: Platform, pairs: seq<CorrelationPair>, x: string)
    requires Accepted(platform, pairs) && Complete(Collected(platform, pairs)) && x in Collected(platform, pairs).messages
    ensures Reports(platform, pairs, x, IncidentAt(platform, Collected(platform, pairs), x))
  {
    var c := Collected(platform, pairs);
    var ids, inc := SortedKeys(Component(c, x)), IncidentAt(platform, c, x);
    ComponentHasEdge(c, x);
    forall i | 0 <= i < |ids| ensures ids[i] in c.messages {
      assert ids[i] in ids;
    }
    var nodes, inside := IncidentParts(platform, c.messages, c.edges, ids);
    SummarySpansTime(platform, ids, nodes, inside);
    SummarySpansDistance(platform, ids, nodes, inside);
    SummarySources(platform, ids, nodes, inside);
    SameIds(c.messages, ids, inc.nodes);
    CollectEdges(ReadAll(platform, pairs));
    SameEdgeIds(c.edges, SortedKeys(EdgeIdsWithin(c.edges, ids)), inc.edges);
    forall n ensures n in inc.nodes <==> InClass(pairs, x, n) {
      NodeOfClass(platform, pairs, x, inc.nodes, n);
    }
    forall e ensures e in inc.edges <==> EdgeOfClass(platform, pairs, x, e) {
      EdgeListed(platform, pairs, x, inc.edges, e);
    }
    PlaceNames(platform, inc.nodes);
  }

  // ---- the whole result ----

  /** One incident is reported before another: the later signal first, and of equals the greater identifier. */
  predicate Precedes(a: IncidentCandidate, b: IncidentCandidate) {
    && a.latestSignalAt >= b.latestSignalAt
    && (a.latestSignalAt == b.latestSignalAt ==> AtMost(b.incidentId, a.incidentId))
  }

  ghost predicate ReportsSome(platform: Platform, pairs: seq<CorrelationPair>, inc: IncidentCandidate) {
    exists x :: x in Nodes(pairs) && Reports(platform, pairs, x, inc)
  }

  ghost predicate ReportedIn(platform: Platform, pairs: seq<CorrelationPair>, x: string, incidents: seq<IncidentCandidate>) {
    exists inc :: inc in incidents && Reports(platform, pairs, x, inc)
  }

  /** `incidents` has one incident for every class, and none twice. */
  ghost predicate OneForEach(platform: Platform, pairs: seq<CorrelationPair>, incidents: seq<IncidentCandidate>) {
    && (forall inc :: inc in incidents ==> ReportsSome(platform, pairs, inc))
    && (forall x :: x in Nodes(pairs) ==> ReportedIn(platform, pairs, x, incidents))
    && (forall i, j :: 0 <= i < j < |incidents| ==> NodesApart(incidents[i], incidents[j]))
    && |incidents| == |FirstNodes(pairs)|
  }

  ghost predicate NodesApart(a: IncidentCandidate, b: IncidentCandidate) {
    forall m, n :: m in a.nodes && n in b.nodes ==> m.nodeId != n.nodeId
  }

  ghost function NodeSet(inc: IncidentCandidate): set<string> {
    set n | n in inc.nodes :: n.nodeId
  }

  lemma ClassNodes(platform: Platform, pairs: seq<CorrelationPair>, x: string, inc: IncidentCandidate, y: string)
    requires Accepted(platform, pairs) && Reports(platform, pairs, x, inc)
    ensures y in NodeSet(inc) <==> y in Nodes(pairs) && Connected(PairLinks(pairs), x, y)
  {
    if y in NodeSet(inc) {
      var n :| n in inc.nodes && n.nodeId == y;
      StandsUnique(pairs, y, n.message, n.message);
    }
    if y in Nodes(pairs) && Connected(PairLinks(pairs), x, y) {
      MessagesStand(platform, pairs, y);
      assert InClass(pairs, x, EvidenceNode(y, Collected(platform, pairs).messages[y]));
    }
  }

  /** Two incidents that share a node report one class. */
  lemma SharedClass(
    platform: Platform, pairs: seq<CorrelationPair>, x: string, a: IncidentCandidate, y: string, b: IncidentCandidate, n: string)
    requires Accepted(platform, pairs) && Reports(platform, pairs, x, a) && Reports(platform, pairs, y, b)
    requires n in NodeSet(a) && n in NodeSet(b)
    ensures NodeSet(a) == NodeSet(b)
  {
    var links := PairLinks(pairs);
    ClassNodes(platform, pairs, x, a, n);
    ClassNodes(platform, pairs, y, b, n);
    ConnectedSymmetric(links, x, n);
    ConnectedSymmetric(links, y, n);
    forall z ensures z in NodeSet(a) <==> z in NodeSet(b) {
      ClassNodes(platform, pairs, x, a, z);
      ClassNodes(platform, pairs, y, b, z);
      if Connected(links, x, z) {
        ConnectedTransitive(links, n, x, z);
        ConnectedTransitive(links, y, n, z);
      }
      if Connected(links, y, z) {
        ConnectedTransitive(links, n, y, z);
        ConnectedTransitive(links, x, n, z);
      }
    }
  }

  lemma AllApart(platform: Platform, pairs: seq<CorrelationPair>, i: nat, j: nat)
    requires Accepted(platform, pairs) && Complete(Collected(platform, pairs))
    requires i < j < |AllIncidents(platform, Collected(platform, pairs))|
    ensures var all := AllIncidents(platform, Collected(platform, pairs)); NodeSet(all[i]) != NodeSet(all[j])
  {
    var c := Collected(platform, pairs);
    var all, leaders := AllIncidents(platform, c), SortedKeys(Leaders(c));
    var x, y := leaders[i], leaders[j];
    IncidentOfLeader(platform, c, i);
    IncidentOfLeader(platform, c, j);
    IncidentReports(platform, pairs, x);
    IncidentReports(platform, pairs, y);
    MessagesStand(platform, pairs, x);
    ConnectedReflexive(PairLinks(pairs), x);
    ClassNodes(platform, pairs, x, all[i], x);
    ClassNodes(platform, pairs, y, all[j], x);
    LessIrreflexive(x);
    if x in NodeSet(all[j]) {
      ClassListed(platform, pairs, y, x);
      ClassListed(platform, pairs, x, x);
      LeaderUnique(c, x, y, x);
    }
  }

  lemma AllReported(platform: Platform, pairs: seq<CorrelationPair>, x: string)
    requires Accepted(platform, pairs) && Complete(Collected(platform, pairs)) && x in Nodes(pairs)
    ensures ReportedIn(platform, pairs, x, AllIncidents(platform, Collected(platform, pairs)))
  {
    var c := Collected(platform, pairs);
    var all, leaders := AllIncidents(platform, c), SortedKeys(Leaders(c));
    MessagesStand(platform, pairs, x);
    var leader := LeaderOf(c, x);
    assert leader in leaders;
    var i :| 0 <= i < |leaders| && leaders[i] == leader;
    IncidentOfLeader(platform, c, i);
    IncidentReports(platform, pairs, leader);
    ComponentsAgree(c, leader, x);
    IncidentReports(platform, pairs, x);
    assert all[i] in all;
  }

  lemma AllReport(platform: Platform, pairs: seq<CorrelationPair>, inc: IncidentCandidate)
    requires Accepted(platform, pairs) && Complete(Collected(platform, pairs))
    requires inc in AllIncidents(platform, Collected(platform, pairs))
    ensures ReportsSome(platform, pairs, inc)
  {
    var c := Collected(platform, pairs);
    var i :| 0 <= i < |AllIncidents(platform, c)| && AllIncidents(platform, c)[i] == inc;
    IncidentOfLeader(platform, c, i);
    MessagesStand(platform, pairs, SortedKeys(Leaders(c))[i]);
    IncidentReports(platform, pairs, SortedKeys(Leaders(c))[i]);
  }

  lemma ArrangedApart(platform: Platform, pairs: seq<CorrelationPair>, all: seq<IncidentCandidate>, ranked: seq<IncidentCandidate>)
    requires Accepted(platform, pairs) && forall inc :: inc in ranked ==> ReportsSome(platform, pairs, inc)
    requires Apart(all, NodeSet) && multiset(all) == multiset(ranked)
    ensures forall i, j :: 0 <= i < j < |ranked| ==> NodesApart(ranked[i], ranked[j])
  {
    DistinctPositions(all, NodeSet);
    DistinctForgetsOrder(all, ranked, NodeSet);
    DistinctPositions(ranked, NodeSet);
    forall i, j | 0 <= i < j < |ranked| ensures NodesApart(ranked[i], ranked[j]) {
      RankedApart(platform, pairs, ranked[i], ranked[j]);
    }
  }

  lemma AllDistinct(platform: Platform, pairs: seq<CorrelationPair>)
    requires Accepted(platform, pairs) && Complete(Collected(platform, pairs))
    ensures Apart(AllIncidents(platform, Collected(platform, pairs)), NodeSet)
  {
    var all := AllIncidents(platform, Collected(platform, pairs));
    forall i, j | 0 <= i < j < |all| ensures NodeSet(all[i]) != NodeSet(all[j]) {
      AllApart(platform, pairs, i, j);
    }
  }

  lemma MembersReport(platform: Platform, pairs: seq<CorrelationPair>, ranked: seq<IncidentCandidate>)
    requires Accepted(platform, pairs) && Complete(Collected(platform, pairs))
    requires forall inc :: inc in ranked <==> inc in AllIncidents(platform, Collected(platform, pairs))
    ensures forall inc :: inc in ranked ==> ReportsSome(platform, pairs, inc)
    ensures forall x :: x in Nodes(pairs) ==> ReportedIn(platform, pairs, x, ranked)
  {
    forall inc | inc in ranked ensures ReportsSome(platform, pairs, inc) {
      AllReport(platform, pairs, inc);
    }
    forall x | x in Nodes(pairs) ensures ReportedIn(platform, pairs, x, ranked) {
      AllReported(platform, pairs, x);
    }
  }

  lemma AllOneForEach(platform: Platform, pairs: seq<CorrelationPair>, all: seq<IncidentCandidate>, ranked: seq<IncidentCandidate>)
    requires Accepted(platform, pairs) && Complete(Collected(platform, pairs))
    requires all == AllIncidents(platform, Collected(platform, pairs)) && multiset(ranked) == multiset(all)
    ensures OneForEach(platform, pairs, ranked)
  {
    FirstNodesLead(platform, pairs);
    SameMembers(ranked, all);
    MembersReport(platform, pairs, ranked);
    AllDistinct(platform, pairs);
    ArrangedApart(platform, pairs, all, ranked);
  }

  lemma RankedApart(platform: Platform, pairs: seq<CorrelationPair>, a: IncidentCandidate, b: IncidentCandidate)
    requires Accepted(platform, pairs) && ReportsSome(platform, pairs, a) && ReportsSome(platform, pairs, b)
    requires NodeSet(a) != NodeSet(b)
    ensures NodesApart(a, b)
  {
    var x :| x in Nodes(pairs) && Reports(platform, pairs, x, a);
    var y :| y in Nodes(pairs) && Reports(platform, pairs, y, b);
    forall m, n | m in a.nodes && n in b.nodes ensures m.nodeId != n.nodeId {
      if m.nodeId == n.nodeId {
        SharedClass(platform, pairs, x, a, y, b, n.nodeId);
      }
    }
  }

  ghost predicate Ranked(platform: Platform, pairs: seq<CorrelationPair>, incidents: seq<IncidentCandidate>) {
    OneForEach(platform, pairs, incidents) && forall i, j :: 0 <= i < j < |incidents| ==> Precedes(incidents[i], incidents[j])
  }

  lemma SortedRanked(platform: Platform, pairs: seq<CorrelationPair>, all: seq<IncidentCandidate>)
    requires Accepted(platform, pairs) && Complete(Collected(platform, pairs))
    requires all == AllIncidents(platform, Collected(platform, pairs))
    ensures Ranked(platform, pairs, Sorting.Sort(all, NewestFirst))
  {
    NewestFirstRanks();
    Sorting.SortOrdered(all, NewestFirst);
    AllOneForEach(platform, pairs, all, Sorting.Sort(all, NewestFirst));
  }

  /**
   An accepted batch is answered with the first `limit` of its classes, one incident for each: the latest
   signal first, of equals the greater identifier first.
   */
  lemma ResultReportsNewest(platform: Platform, batch: CorrelationBatch, limit: nat, result: CorrelationResult)
    returns (ranked: seq<IncidentCandidate>)
    requires Answer(platform, batch, limit) == Success(result)
    ensures Ranked(platform, batch.pairs, ranked)
    ensures result.incidents == ranked[..if limit < |ranked| then limit else |ranked|]
    ensures result.totalIncidents == |FirstNodes(batch.pairs)|
    ensures result.incidentsTruncated <==> limit < result.totalIncidents
    ensures result.candidateEdgesTruncated == batch.truncated
  {
    var rs := ReadAll(platform, batch.pairs);
    RejectedIffInconsistent(rs);
    CollectComplete(rs);
    ranked := Sorting.Sort(AllIncidents(platform, Collect(rs)), NewestFirst);
    SortedRanked(platform, batch.pairs, AllIncidents(platform, Collect(rs)));
    Sequences.TakeAll(ranked);
  }

  /** The last of the signals that a chain of pairs joins to node `x`. */
  ghost predicate LatestSignal(pairs: seq<CorrelationPair>, x: string, t: int) {
    && (forall n :: InClass(pairs, x, n) ==> n.message.event.occurredAt <= t)
    && (exists n :: InClass(pairs, x, n) && n.message.event.occurredAt == t)
  }

  lemma LatestUnique(pairs: seq<CorrelationPair>, x: string, s: int, t: int)
    requires LatestSignal(pairs, x, s) && LatestSignal(pairs, x, t)
    ensures s == t
  {
    var m :| InClass(pairs, x, m) && m.message.event.occurredAt == s;
    var n :| InClass(pairs, x, n) && n.message.event.occurredAt == t;
  }

  lemma ReportedLatest(platform: Platform, pairs: seq<CorrelationPair>, x: string, inc: IncidentCandidate)
    requires Reports(platform, pairs, x, inc)
    ensures LatestSignal(pairs, x, inc.latestSignalAt)
  {
  }

  lemma TakenPrecedes(ranked: seq<IncidentCandidate>, taken: seq<IncidentCandidate>, a: IncidentCandidate, b: IncidentCandidate)
    requires taken <= ranked && a in taken && b in ranked && b !in taken
    requires forall i, j :: 0 <= i < j < |ranked| ==> Precedes(ranked[i], ranked[j])
    ensures Precedes(a, b)
  {
    var i :| 0 <= i < |taken| && taken[i] == a;
    var j :| 0 <= j < |ranked| && ranked[j] == b;
    assert ranked[i] == a && (j < |taken| ==> taken[j] == b);
  }

  lemma OwnIncident(platform: Platform, pairs: seq<CorrelationPair>, ranked: seq<IncidentCandidate>, x: string, t: int)
    returns (own: IncidentCandidate)
    requires Ranked(platform, pairs, ranked) && x in Nodes(pairs) && LatestSignal(pairs, x, t)
    ensures own in ranked && Reports(platform, pairs, x, own) && own.latestSignalAt == t
  {
    assert ReportedIn(platform, pairs, x, ranked);
    own :| own in ranked && Reports(platform, pairs, x, own);
    ReportedLatest(platform, pairs, x, own);
    LatestUnique(pairs, x, own.latestSignalAt, t);
  }

  /** No class that the limit leaves out has a later signal than a class that is reported. */
  lemma LeftOutNotNewer(
    platform: Platform, batch: CorrelationBatch, limit: nat, result: CorrelationResult, x: string, t: int, inc: IncidentCandidate)
    requires Answer(platform, batch, limit) == Success(result)
    requires x in Nodes(batch.pairs) && LatestSignal(batch.pairs, x, t)
    requires !ReportedIn(platform, batch.pairs, x, result.incidents) && inc in result.incidents
    ensures t <= inc.latestSignalAt && |result.incidents| == limit
  {
    var ranked := ResultReportsNewest(platform, batch, limit, result);
    var own := OwnIncident(platform, batch.pairs, ranked, x, t);
    TakenPrecedes(ranked, result.incidents, inc, own);
    Sequences.TakeAll(ranked);
  }
}
