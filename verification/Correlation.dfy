/**
 Incident correlation: the records of `correlation.py` and what its result means, stated over the
 set of nodes and edges a batch contains rather than over the order its pairs came in.
 */
module Correlation {
  import opened Wrappers
  import opened Ordering
  import opened EvidenceGraph
  import Sorting

  const RULE_VERSION := "spatiotemporal-v1"

  datatype GeometryBasis = Point | Polygon

  datatype SpatialRelation = Intersects | WithinRadius

  datatype Location = Location(latitude: real, longitude: real)

  datatype Event = Event(
    source: string, eventId: string, occurredAt: int, place: Option<string>, location: Option<Location>)

  datatype StreamMessage = StreamMessage(streamId: string, event: Event)

  datatype CorrelationPair = CorrelationPair(
    left: StreamMessage, right: StreamMessage, distanceKm: real, timeDeltaMinutes: real,
    leftBasis: GeometryBasis, rightBasis: GeometryBasis)

  datatype CorrelationBatch = CorrelationBatch(pairs: seq<CorrelationPair>, truncated: bool)

  datatype EvidenceNode = EvidenceNode(nodeId: string, message: StreamMessage)

  datatype EvidenceEdge = EvidenceEdge(
    edgeId: string, fromNodeId: string, toNodeId: string, spatialRelation: SpatialRelation,
    distanceKm: real, timeDeltaMinutes: real, fromBasis: GeometryBasis, toBasis: GeometryBasis)

  datatype IncidentCandidate = IncidentCandidate(
    incidentId: string, titleSourceCount: nat, titlePlace: string,
    startedAt: int, latestSignalAt: int, center: (Option<real>, Option<real>),
    sources: seq<string>, nodes: seq<EvidenceNode>, edges: seq<EvidenceEdge>,
    maxDistanceKm: real, timeSpanMinutes: real)

  datatype CorrelationResult = CorrelationResult(
    incidents: seq<IncidentCandidate>, totalIncidents: nat,
    incidentsTruncated: bool, candidateEdgesTruncated: bool)

  datatype CorrelationError = LimitOutOfRange | MultipleRevisions | ConflictingMeasurements

  /** What the platform supplies: a truncated digest, decimal rounding, the spherical mean, `str.strip`. */
  datatype Platform = Platform(
    digest: string -> string,
    round3: real -> real,
    center: seq<EvidenceNode> -> (Option<real>, Option<real>),
    strip: string -> string)

  /** The construction check of a pair. */
  predicate ValidPair(p: CorrelationPair) {
    p.left.event.source != p.right.event.source && p.distanceKm >= 0.0 && p.timeDeltaMinutes >= 0.0
  }

  function NodeId(m: StreamMessage): string {
    m.event.source + ":" + m.event.eventId
  }

  function Join(values: seq<string>): string {
    if values == [] then ""
    else if |values| == 1 then values[0]
    else values[0] + "\n" + Join(values[1..])
  }

  function ContentId(platform: Platform, prefix: string, values: seq<string>): string {
    prefix + "-" + platform.digest(RULE_VERSION + "\n" + Join(values))
  }

  function EdgeFromPair(platform: Platform, p: CorrelationPair): EvidenceEdge {
    var l, r := (NodeId(p.left), p.leftBasis), (NodeId(p.right), p.rightBasis);
    var from, to := if AtMost(l.0, r.0) then l else r, if AtMost(l.0, r.0) then r else l;
    EvidenceEdge(
      ContentId(platform, "edge", [from.0, to.0]), from.0, to.0,
      if p.distanceKm <= 0.001 then Intersects else WithinRadius,
      platform.round3(p.distanceKm), platform.round3(p.timeDeltaMinutes), from.1, to.1)
  }

  // ---- one incident, from the ids of its nodes ----

  function Earliest(nodes: seq<EvidenceNode>): (t: int)
    requires nodes != []
    ensures exists n :: n in nodes && n.message.event.occurredAt == t
    ensures forall n :: n in nodes ==> t <= n.message.event.occurredAt
  {
    var head := nodes[0].message.event.occurredAt;
    assert nodes[0] in nodes;
    if |nodes| == 1 then head
    else
      var rest := Earliest(nodes[1..]);
      assert nodes == [nodes[0]] + nodes[1..];
      if head <= rest then head else rest
  }

  function Latest(nodes: seq<EvidenceNode>): (t: int)
    requires nodes != []
    ensures exists n :: n in nodes && n.message.event.occurredAt == t
    ensures forall n :: n in nodes ==> t >= n.message.event.occurredAt
  {
    var head := nodes[0].message.event.occurredAt;
    assert nodes[0] in nodes;
    if |nodes| == 1 then head
    else
      var rest := Latest(nodes[1..]);
      assert nodes == [nodes[0]] + nodes[1..];
      if head >= rest then head else rest
  }

  function MaxDistance(edges: seq<EvidenceEdge>): (d: real)
    requires edges != []
    ensures exists e :: e in edges && e.distanceKm == d
    ensures forall e :: e in edges ==> d >= e.distanceKm
  {
    var head := edges[0].distanceKm;
    assert edges[0] in edges;
    if |edges| == 1 then head
    else
      var rest := MaxDistance(edges[1..]);
      assert edges == [edges[0]] + edges[1..];
      if head >= rest then head else rest
  }

  predicate ByTimeThenId(a: EvidenceNode, b: EvidenceNode) {
    var s, t := a.message.event.occurredAt, b.message.event.occurredAt;
    s < t || (s == t && AtMost(a.nodeId, b.nodeId))
  }

  function FirstPlace(platform: Platform, nodes: seq<EvidenceNode>): string {
    if nodes == [] then "mapped area"
    else
      var place := nodes[0].message.event.place;
      if place.Some? && platform.strip(place.value) != "" then platform.strip(place.value)
      else FirstPlace(platform, nodes[1..])
  }

  function PlaceFor(platform: Platform, nodes: seq<EvidenceNode>): string {
    FirstPlace(platform, Sorting.Sort(nodes, ByTimeThenId))
  }

  type Messages = map<string, StreamMessage>
  type Edges = map<string, EvidenceEdge>

  function EdgeIdsWithin(edges: Edges, ids: seq<string>): set<string> {
    set k | k in edges && edges[k].fromNodeId in ids && edges[k].toNodeId in ids
  }

  /** The nodes are known and there is an edge among them, so earliest, latest and maximum exist. */
  predicate Describable(messages: Messages, edges: Edges, ids: seq<string>) {
    ids != [] && (forall i :: 0 <= i < |ids| ==> ids[i] in messages) && EdgeIdsWithin(edges, ids) != {}
  }

  /** The time from one instant to another in minutes, as it is reported. */
  function Minutes(platform: Platform, first: int, last: int): real {
    platform.round3((last - first) as real / 60000000.0)
  }

  function Summary(
    platform: Platform, ids: seq<string>, nodes: seq<EvidenceNode>, inside: seq<EvidenceEdge>): IncidentCandidate
    requires nodes != [] && inside != []
  {
    var sources := SortedKeys(set i | 0 <= i < |nodes| :: nodes[i].message.event.source);
    IncidentCandidate(
      ContentId(platform, "incident", ids), |sources|, PlaceFor(platform, nodes),
      Earliest(nodes), Latest(nodes), platform.center(nodes),
      sources, nodes, inside, MaxDistance(inside),
      Minutes(platform, Earliest(nodes), Latest(nodes)))
  }

  function NodesOf(messages: Messages, ids: seq<string>): (nodes: seq<EvidenceNode>)
    requires forall i :: 0 <= i < |ids| ==> ids[i] in messages
    ensures |nodes| == |ids| && forall i :: 0 <= i < |ids| ==> nodes[i] == EvidenceNode(ids[i], messages[ids[i]])
  {
    seq(|ids|, i requires 0 <= i < |ids| => EvidenceNode(ids[i], messages[ids[i]]))
  }

  function EdgesOf(edges: Edges, ids: seq<string>): (inside: seq<EvidenceEdge>)
    requires forall i :: 0 <= i < |ids| ==> ids[i] in edges
    ensures |inside| == |ids| && forall i :: 0 <= i < |ids| ==> inside[i] == edges[ids[i]]
  {
    seq(|ids|, i requires 0 <= i < |ids| => edges[ids[i]])
  }

  lemma ListedWithin(edges: Edges, ids: seq<string>)
    ensures forall i :: 0 <= i < |SortedKeys(EdgeIdsWithin(edges, ids))| ==> SortedKeys(EdgeIdsWithin(edges, ids))[i] in edges
  {
    forall i | 0 <= i < |SortedKeys(EdgeIdsWithin(edges, ids))| ensures SortedKeys(EdgeIdsWithin(edges, ids))[i] in edges {
      assert SortedKeys(EdgeIdsWithin(edges, ids))[i] in SortedKeys(EdgeIdsWithin(edges, ids));
    }
  }

  function IncidentOf(platform: Platform, messages: Messages, edges: Edges, ids: seq<string>): IncidentCandidate
    requires Describable(messages, edges, ids)
  {
    ListedWithin(edges, ids);
    Summary(platform, ids, NodesOf(messages, ids), EdgesOf(edges, SortedKeys(EdgeIdsWithin(edges, ids))))
  }

  /** Latest signal first; among equals the larger identifier first. */
  predicate NewestFirst(a: IncidentCandidate, b: IncidentCandidate) {
    a.latestSignalAt > b.latestSignalAt ||
    (a.latestSignalAt == b.latestSignalAt && AtMost(b.incidentId, a.incidentId))
  }

  // ---- what a batch contains ----

  /** One pair as the builder reads it: its two identified messages and its edge. */
  datatype Reading = Reading(leftId: string, left: StreamMessage, rightId: string, right: StreamMessage, edge: EvidenceEdge)

  function Read(platform: Platform, p: CorrelationPair): (r: Reading)
    ensures JoinsItsNodes(r)
  {
    Reading(NodeId(p.left), p.left, NodeId(p.right), p.right, EdgeFromPair(platform, p))
  }

  predicate JoinsItsNodes(r: Reading) {
    || (r.edge.fromNodeId == r.leftId && r.edge.toNodeId == r.rightId)
    || (r.edge.fromNodeId == r.rightId && r.edge.toNodeId == r.leftId)
  }

  function ReadAll(platform: Platform, pairs: seq<CorrelationPair>): (rs: seq<Reading>)
    ensures |rs| == |pairs|
    ensures forall i :: 0 <= i < |rs| ==> rs[i] == Read(platform, pairs[i])
  {
    seq(|pairs|, i requires 0 <= i < |pairs| => Read(platform, pairs[i]))
  }

  datatype Content = Content(messages: Messages, edges: Edges)

  function AddReading(c: Content, r: Reading): Content {
    Content(c.messages[r.leftId := r.left][r.rightId := r.right], c.edges[r.edge.edgeId := r.edge])
  }

  function Collect(rs: seq<Reading>): Content {
    if rs == [] then Content(map[], map[])
    else AddReading(Collect(rs[..|rs| - 1]), rs[|rs| - 1])
  }

  /** Some reading names message `m` as node `x`. */
  ghost predicate Names(rs: seq<Reading>, x: string, m: StreamMessage) {
    exists r :: r in rs && ((r.leftId == x && r.left == m) || (r.rightId == x && r.right == m))
  }

  /** One node never appears in two revisions, one edge never with two measurements. */
  ghost predicate Consistent(rs: seq<Reading>) {
    && (forall x, m, n :: Names(rs, x, m) && Names(rs, x, n) ==> m.streamId == n.streamId)
    && (forall r, s :: r in rs && s in rs && r.edge.edgeId == s.edge.edgeId ==> r.edge == s.edge)
  }

  ghost function LinksOf(edges: Edges): Links {
    set k | k in edges :: (edges[k].fromNodeId, edges[k].toNodeId)
  }

  /** `x` is an end of some edge. */
  ghost predicate Joined(c: Content, x: string) {
    exists k :: k in c.edges && (c.edges[k].fromNodeId == x || c.edges[k].toNodeId == x)
  }

  /** Every node is an end of some edge, and every end of an edge is a node. */
  ghost predicate Complete(c: Content) {
    && (forall k :: k in c.edges ==> c.edges[k].fromNodeId in c.messages && c.edges[k].toNodeId in c.messages)
    && (forall x {:trigger Joined(c, x)} :: x in c.messages ==> Joined(c, x))
  }

  /** The reachability class of `x`. */
  ghost function Component(c: Content, x: string): set<string> {
    set y | y in c.messages && Connected(LinksOf(c.edges), x, y)
  }

  /** `x` is the least node of its class. */
  ghost predicate IsLeader(c: Content, x: string) {
    x in c.messages && forall y :: y in Component(c, x) ==> AtMost(x, y)
  }

  ghost function Leaders(c: Content): set<string> {
    set x | x in c.messages && IsLeader(c, x)
  }

  lemma ComponentHasEdge(c: Content, x: string)
    requires Complete(c) && x in c.messages
    ensures x in Component(c, x)
    ensures SortedKeys(Component(c, x)) != []
    ensures EdgeIdsWithin(c.edges, SortedKeys(Component(c, x))) != {}
  {
    ConnectedReflexive(LinksOf(c.edges), x);
    assert Joined(c, x);
    var k :| k in c.edges && (c.edges[k].fromNodeId == x || c.edges[k].toNodeId == x);
    var e := c.edges[k];
    assert (e.fromNodeId, e.toNodeId) in LinksOf(c.edges);
    ConnectedByLink(LinksOf(c.edges), e.fromNodeId, e.toNodeId);
    ConnectedSymmetric(LinksOf(c.edges), e.fromNodeId, e.toNodeId);
    ConnectedReflexive(LinksOf(c.edges), e.fromNodeId);
    assert k in EdgeIdsWithin(c.edges, SortedKeys(Component(c, x)));
  }

  ghost function IncidentAt(platform: Platform, c: Content, x: string): IncidentCandidate
    requires Complete(c) && x in c.messages
  {
    ComponentHasEdge(c, x);
    var ids := SortedKeys(Component(c, x));
    assert forall i :: 0 <= i < |ids| ==> ids[i] in ids;
    IncidentOf(platform, c.messages, c.edges, ids)
  }

  /** One incident per reachability class, before ranking. */
  ghost function AllIncidents(platform: Platform, c: Content): seq<IncidentCandidate>
    requires Complete(c)
  {
    var leaders := SortedKeys(Leaders(c));
    assert forall i :: 0 <= i < |leaders| ==> leaders[i] in leaders;
    seq(|leaders|, i requires 0 <= i < |leaders| => IncidentAt(platform, c, leaders[i]))
  }

  ghost function Expected(platform: Platform, c: Content, limit: nat, truncated: bool): CorrelationResult
    requires Complete(c)
  {
    var ranked := Sorting.Sort(AllIncidents(platform, c), NewestFirst);
    CorrelationResult(
      if limit < |ranked| then ranked[..limit] else ranked, |ranked|, |ranked| > limit, truncated)
  }
}
