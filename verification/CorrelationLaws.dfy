/** What correlation promises: classes partition the evidence, and input order does not matter. */
module CorrelationLaws {
  import opened Wrappers
  import opened Ordering
  import opened EvidenceGraph
  import opened Correlation
  import opened IncidentBuilder
  import Sorting

  // ---- every node and every edge lies in exactly one class ----

  lemma ComponentsAgree(c: Content, x: string, y: string)
    requires x in c.messages && y in Component(c, x)
    ensures Component(c, x) == Component(c, y)
  {
    var links := LinksOf(c.edges);
    ConnectedSymmetric(links, x, y);
    forall z | z in c.messages ensures z in Component(c, x) <==> z in Component(c, y) {
      if z in Component(c, x) {
        ConnectedTransitive(links, y, x, z);
      }
      if z in Component(c, y) {
        ConnectedTransitive(links, x, y, z);
      }
    }
  }

  /** The class a node belongs to, named by its least node. */
  ghost function LeaderOf(c: Content, x: string): (leader: string)
    requires x in c.messages
    ensures leader in Leaders(c) && x in Component(c, leader)
  {
    ConnectedReflexive(LinksOf(c.edges), x);
    assert x in Component(c, x);
    var leader := Least(Component(c, x));
    ComponentsAgree(c, x, leader);
    leader
  }

  lemma LeaderUnique(c: Content, a: string, b: string, x: string)
    requires a in Leaders(c) && b in Leaders(c) && x in Component(c, a) && x in Component(c, b)
    ensures a == b
  {
    ComponentsAgree(c, a, x);
    ComponentsAgree(c, b, x);
    ConnectedReflexive(LinksOf(c.edges), a);
    ConnectedReflexive(LinksOf(c.edges), b);
    assert a in Component(c, a) && b in Component(c, b);
    AtMostAntisymmetric(a, b);
  }

  ghost predicate EdgeIn(c: Content, k: string, leader: string) {
    k in EdgeIdsWithin(c.edges, SortedKeys(Component(c, leader)))
  }

  /** Every edge falls in exactly one reported component. */
  lemma EdgeInOneComponent(c: Content, k: string)
    requires Complete(c) && k in c.edges
    ensures EdgeIn(c, k, LeaderOf(c, c.edges[k].fromNodeId))
    ensures forall leader :: leader in Leaders(c) && EdgeIn(c, k, leader) ==> leader == LeaderOf(c, c.edges[k].fromNodeId)
  {
    var e := c.edges[k];
    var home := LeaderOf(c, e.fromNodeId);
    var links := LinksOf(c.edges);
    assert (e.fromNodeId, e.toNodeId) in links;
    ConnectedByLink(links, e.fromNodeId, e.toNodeId);
    ConnectedTransitive(links, home, e.fromNodeId, e.toNodeId);
    forall leader | leader in Leaders(c) && EdgeIn(c, k, leader) ensures leader == home {
      LeaderUnique(c, leader, home, e.fromNodeId);
    }
  }

  ghost predicate HasNode(incident: IncidentCandidate, x: string) {
    exists n :: n in incident.nodes && n.nodeId == x
  }

  lemma NodesFollowIds(platform: Platform, messages: Messages, edges: Edges, ids: seq<string>)
    requires ids != [] && forall i :: 0 <= i < |ids| ==> ids[i] in messages
    requires EdgeIdsWithin(edges, ids) != {}
    ensures var nodes := IncidentOf(platform, messages, edges, ids).nodes;
            |nodes| == |ids| && forall i :: 0 <= i < |ids| ==> nodes[i].nodeId == ids[i]
  {
  }

  lemma IncidentNodes(platform: Platform, c: Content, leader: string, incident: IncidentCandidate, x: string)
    requires Complete(c) && leader in c.messages && incident == IncidentAt(platform, c, leader)
    ensures HasNode(incident, x) <==> x in Component(c, leader)
  {
    ComponentHasEdge(c, leader);
    var ids := SortedKeys(Component(c, leader));
    forall i | 0 <= i < |ids| ensures ids[i] in c.messages {
      assert ids[i] in ids;
    }
    NodesFollowIds(platform, c.messages, c.edges, ids);
    ListedNode(incident.nodes, ids, x);
  }

  lemma ListedNode(nodes: seq<EvidenceNode>, ids: seq<string>, x: string)
    requires |nodes| == |ids| && forall i :: 0 <= i < |ids| ==> nodes[i].nodeId == ids[i]
    ensures (exists n :: n in nodes && n.nodeId == x) <==> x in ids
  {
    if x in ids {
      var i :| 0 <= i < |ids| && ids[i] == x;
      assert nodes[i] in nodes;
    }
  }

  ghost predicate ReportedTogether(all: seq<IncidentCandidate>, x: string, y: string) {
    exists i :: 0 <= i < |all| && HasNode(all[i], x) && HasNode(all[i], y)
  }

  /** Two nodes are reported in one incident exactly when a chain of pairs joins them. */
  lemma SameIncidentIffConnected(platform: Platform, c: Content, x: string, y: string)
    requires Complete(c) && x in c.messages && y in c.messages
    ensures ReportedTogether(AllIncidents(platform, c), x, y) <==> Connected(LinksOf(c.edges), x, y)
  {
    var all, leaders, links := AllIncidents(platform, c), SortedKeys(Leaders(c)), LinksOf(c.edges);
    if Connected(links, x, y) {
      var leader := LeaderOf(c, x);
      ConnectedTransitive(links, leader, x, y);
      assert leader in leaders;
      var i :| 0 <= i < |leaders| && leaders[i] == leader;
      IncidentOfLeader(platform, c, i);
      IncidentNodes(platform, c, leader, all[i], x);
      IncidentNodes(platform, c, leader, all[i], y);
      assert HasNode(all[i], x) && HasNode(all[i], y);
    }
    if ReportedTogether(all, x, y) {
      var i :| 0 <= i < |all| && HasNode(all[i], x) && HasNode(all[i], y);
      IncidentOfLeader(platform, c, i);
      IncidentNodes(platform, c, leaders[i], all[i], x);
      IncidentNodes(platform, c, leaders[i], all[i], y);
      ConnectedSymmetric(links, leaders[i], x);
      ConnectedTransitive(links, x, leaders[i], y);
    }
  }

  // ---- order, repetition and orientation of the pairs do not matter ----

  function Mirror(p: CorrelationPair): CorrelationPair {
    CorrelationPair(p.right, p.left, p.distanceKm, p.timeDeltaMinutes, p.rightBasis, p.leftBasis)
  }

  /** Every pair of `a` occurs in `b`, possibly with its sides swapped. */
  ghost predicate CoveredBy(a: seq<CorrelationPair>, b: seq<CorrelationPair>) {
    forall p :: p in a ==> p in b || Mirror(p) in b
  }

  predicate HasSide(p: CorrelationPair, m: StreamMessage) {
    p.left == m || p.right == m
  }

  /** A stream identifier determines its message. */
  ghost predicate StreamIdsIdentify(pairs: seq<CorrelationPair>) {
    forall p, q, m, n :: p in pairs && q in pairs && HasSide(p, m) && HasSide(q, n) && m.streamId == n.streamId ==> m == n
  }

  ghost predicate WellFormed(pairs: seq<CorrelationPair>) {
    && (forall p :: p in pairs ==> ValidPair(p))
    && StreamIdsIdentify(pairs)
  }

  lemma NamedHasSide(platform: Platform, pairs: seq<CorrelationPair>, x: string, m: StreamMessage)
    requires Names(ReadAll(platform, pairs), x, m)
    ensures NodeId(m) == x && exists p :: p in pairs && HasSide(p, m)
  {
    var rs := ReadAll(platform, pairs);
    var r :| r in rs && ((r.leftId == x && r.left == m) || (r.rightId == x && r.right == m));
    var i :| 0 <= i < |rs| && rs[i] == r;
    assert pairs[i] in pairs && HasSide(pairs[i], m);
  }

  lemma SideNamed(platform: Platform, pairs: seq<CorrelationPair>, p: CorrelationPair, m: StreamMessage)
    requires p in pairs && HasSide(p, m)
    ensures Names(ReadAll(platform, pairs), NodeId(m), m)
  {
    var rs := ReadAll(platform, pairs);
    var i :| 0 <= i < |pairs| && pairs[i] == p;
    assert rs[i] in rs && rs[i] == Read(platform, p);
  }

  lemma NamedBySide(platform: Platform, pairs: seq<CorrelationPair>, x: string, m: StreamMessage)
    ensures Names(ReadAll(platform, pairs), x, m) <==> NodeId(m) == x && exists p :: p in pairs && HasSide(p, m)
  {
    if Names(ReadAll(platform, pairs), x, m) {
      NamedHasSide(platform, pairs, x, m);
    }
    if NodeId(m) == x && exists p :: p in pairs && HasSide(p, m) {
      var p :| p in pairs && HasSide(p, m);
      SideNamed(platform, pairs, p, m);
    }
  }

  lemma SideCovered(a: seq<CorrelationPair>, b: seq<CorrelationPair>, m: StreamMessage)
    requires CoveredBy(a, b) && exists p :: p in a && HasSide(p, m)
    ensures exists p :: p in b && HasSide(p, m)
  {
    var p :| p in a && HasSide(p, m);
    if p !in b {
      assert HasSide(Mirror(p), m);
    }
  }

  /** In a consistent batch the two nodes of a pair differ, so an edge does not depend on orientation. */
  lemma ConsistentPairsJoinTwoNodes(platform: Platform, pairs: seq<CorrelationPair>, p: CorrelationPair)
    requires WellFormed(pairs) && p in pairs && Consistent(ReadAll(platform, pairs))
    ensures NodeId(p.left) != NodeId(p.right)
    ensures EdgeFromPair(platform, Mirror(p)) == EdgeFromPair(platform, p)
  {
    assert HasSide(p, p.left) && HasSide(p, p.right);
    NamedBySide(platform, pairs, NodeId(p.left), p.left);
    NamedBySide(platform, pairs, NodeId(p.left), p.right);
    LessTotal(NodeId(p.left), NodeId(p.right));
    if Less(NodeId(p.left), NodeId(p.right)) {
      LessAsymmetric(NodeId(p.left), NodeId(p.right));
    } else if Less(NodeId(p.right), NodeId(p.left)) {
      LessAsymmetric(NodeId(p.right), NodeId(p.left));
    }
  }

  lemma EdgeRead(platform: Platform, pairs: seq<CorrelationPair>, e: EvidenceEdge)
    ensures (exists r :: r in ReadAll(platform, pairs) && r.edge == e) <==>
            (exists p :: p in pairs && EdgeFromPair(platform, p) == e)
  {
    var rs := ReadAll(platform, pairs);
    if r :| r in rs && r.edge == e {
      var i :| 0 <= i < |rs| && rs[i] == r;
      assert pairs[i] in pairs && EdgeFromPair(platform, pairs[i]) == e;
    }
    if p :| p in pairs && EdgeFromPair(platform, p) == e {
      var i :| 0 <= i < |pairs| && pairs[i] == p;
      assert rs[i] in rs && rs[i].edge == e;
    }
  }

  /** Covered batches read the same edges, when the covering one is consistent. */
  lemma EdgeCovered(platform: Platform, a: seq<CorrelationPair>, b: seq<CorrelationPair>, e: EvidenceEdge)
    requires WellFormed(b) && CoveredBy(a, b) && Consistent(ReadAll(platform, b))
    requires HasEdge(ReadAll(platform, a), e)
    ensures HasEdge(ReadAll(platform, b), e)
  {
    EdgeRead(platform, a, e);
    EdgeRead(platform, b, e);
    var p :| p in a && EdgeFromPair(platform, p) == e;
    if p !in b {
      var q := Mirror(p);
      ConsistentPairsJoinTwoNodes(platform, b, q);
      assert Mirror(q) == p;
    }
  }

  lemma NamesCovered(platform: Platform, a: seq<CorrelationPair>, b: seq<CorrelationPair>, x: string, m: StreamMessage)
    requires CoveredBy(a, b) && Names(ReadAll(platform, a), x, m)
    ensures Names(ReadAll(platform, b), x, m)
  {
    NamedBySide(platform, a, x, m);
    NamedBySide(platform, b, x, m);
    SideCovered(a, b, m);
  }

  /** A batch covered by a consistent batch is consistent. */
  lemma ConsistencyCovered(platform: Platform, a: seq<CorrelationPair>, b: seq<CorrelationPair>)
    requires WellFormed(b) && CoveredBy(a, b) && Consistent(ReadAll(platform, b))
    ensures Consistent(ReadAll(platform, a))
  {
    var rs, ss := ReadAll(platform, a), ReadAll(platform, b);
    forall x, m, n | Names(rs, x, m) && Names(rs, x, n) ensures m.streamId == n.streamId {
      NamesCovered(platform, a, b, x, m);
      NamesCovered(platform, a, b, x, n);
    }
    forall r, s | r in rs && s in rs && r.edge.edgeId == s.edge.edgeId ensures r.edge == s.edge {
      assert HasEdge(rs, r.edge) && HasEdge(rs, s.edge);
      EdgeCovered(platform, a, b, r.edge);
      EdgeCovered(platform, a, b, s.edge);
    }
  }

  lemma EdgeKept(platform: Platform, a: seq<CorrelationPair>, b: seq<CorrelationPair>, k: string)
    requires WellFormed(b) && CoveredBy(a, b) && Consistent(ReadAll(platform, b))
    requires k in Collect(ReadAll(platform, a)).edges
    ensures k in Collect(ReadAll(platform, b)).edges
    ensures Collect(ReadAll(platform, b)).edges[k] == Collect(ReadAll(platform, a)).edges[k]
  {
    var rs, ss := ReadAll(platform, a), ReadAll(platform, b);
    CollectEdges(rs);
    var e := Collect(rs).edges[k];
    assert HasEdge(rs, e);
    EdgeCovered(platform, a, b, e);
    var s :| s in ss && s.edge == e;
    CollectedEdge(ss, s);
  }

  lemma MessageCovered(platform: Platform, a: seq<CorrelationPair>, b: seq<CorrelationPair>, x: string)
    requires CoveredBy(a, b) && x in Collect(ReadAll(platform, a)).messages
    ensures x in Collect(ReadAll(platform, b)).messages
    ensures Names(ReadAll(platform, b), x, Collect(ReadAll(platform, a)).messages[x])
  {
    CollectMessages(ReadAll(platform, a));
    CollectMessages(ReadAll(platform, b));
    NamesCovered(platform, a, b, x, Collect(ReadAll(platform, a)).messages[x]);
  }

  lemma SameMessageAt(platform: Platform, a: seq<CorrelationPair>, b: seq<CorrelationPair>, x: string)
    requires WellFormed(a) && WellFormed(b) && CoveredBy(a, b)
    requires Consistent(ReadAll(platform, b)) && x in Collect(ReadAll(platform, a)).messages
    ensures x in Collect(ReadAll(platform, b)).messages
    ensures Collect(ReadAll(platform, b)).messages[x] == Collect(ReadAll(platform, a)).messages[x]
  {
    var ss := ReadAll(platform, b);
    MessageCovered(platform, a, b, x);
    CollectMessages(ss);
    NamedBySide(platform, b, x, Collect(ReadAll(platform, a)).messages[x]);
    NamedBySide(platform, b, x, Collect(ss).messages[x]);
  }

  lemma SameMessages(platform: Platform, a: seq<CorrelationPair>, b: seq<CorrelationPair>)
    requires WellFormed(a) && WellFormed(b) && CoveredBy(a, b) && CoveredBy(b, a)
    requires Consistent(ReadAll(platform, a)) && Consistent(ReadAll(platform, b))
    ensures Collect(ReadAll(platform, a)).messages == Collect(ReadAll(platform, b)).messages
  {
    var p, q := Collect(ReadAll(platform, a)).messages, Collect(ReadAll(platform, b)).messages;
    forall x | x in p ensures x in q && q[x] == p[x] {
      SameMessageAt(platform, a, b, x);
    }
    forall x | x in q ensures x in p {
      MessageCovered(platform, b, a, x);
    }
  }

  lemma SameEdges(platform: Platform, a: seq<CorrelationPair>, b: seq<CorrelationPair>)
    requires WellFormed(a) && WellFormed(b) && CoveredBy(a, b) && CoveredBy(b, a)
    requires Consistent(ReadAll(platform, a)) && Consistent(ReadAll(platform, b))
    ensures Collect(ReadAll(platform, a)).edges == Collect(ReadAll(platform, b)).edges
  {
    var p, q := Collect(ReadAll(platform, a)).edges, Collect(ReadAll(platform, b)).edges;
    forall k | k in p ensures k in q && q[k] == p[k] {
      EdgeKept(platform, a, b, k);
    }
    forall k | k in q ensures k in p {
      EdgeKept(platform, b, a, k);
    }
  }

  /**
   Reordering pairs, repeating them, or swapping the sides of any of them neither changes whether a
   batch is rejected nor anything in the result of one that is accepted.
   */
  lemma OrderIndependence(platform: Platform, a: CorrelationBatch, b: CorrelationBatch, limit: nat)
    requires WellFormed(a.pairs) && WellFormed(b.pairs) && a.truncated == b.truncated
    requires CoveredBy(a.pairs, b.pairs) && CoveredBy(b.pairs, a.pairs)
    ensures Answer(platform, a, limit).Success? <==> Answer(platform, b, limit).Success?
    ensures Answer(platform, a, limit).Success? ==> Answer(platform, a, limit) == Answer(platform, b, limit)
  {
    var rs, ss := ReadAll(platform, a.pairs), ReadAll(platform, b.pairs);
    RejectedIffInconsistent(rs);
    RejectedIffInconsistent(ss);
    if Consistent(rs) {
      ConsistencyCovered(platform, b.pairs, a.pairs);
    }
    if Consistent(ss) {
      ConsistencyCovered(platform, a.pairs, b.pairs);
    }
    if Consistent(rs) {
      SameMessages(platform, a.pairs, b.pairs);
      SameEdges(platform, a.pairs, b.pairs);
      assert Collect(rs) == Collect(ss);
    }
  }

  // ---- identifiers tell incidents apart, so the ranking is strict ----

  ghost predicate OneLine(s: string) {
    '\n' !in s
  }

  lemma {:induction false} JoinCut(x: string, y: string, a: string, b: string)
    requires OneLine(x) && OneLine(y) && x + "\n" + a == y + "\n" + b
    ensures x == y && a == b
  {
    var s, t := x + "\n" + a, y + "\n" + b;
    assert s[|x|] == '\n' && t[|y|] == '\n';
    assert forall i :: 0 <= i < |x| ==> s[i] == x[i] && x[i] in x;
    assert forall i :: 0 <= i < |y| ==> t[i] == y[i] && y[i] in y;
    assert |x| == |y|;
    assert x == s[..|x|] && y == t[..|y|];
    assert a == s[|x| + 1..] && b == t[|y| + 1..];
  }

  lemma JoinNotOneLine(values: seq<string>)
    requires |values| > 1
    ensures !OneLine(Join(values))
  {
    assert Join(values)[|values[0]|] == '\n';
  }

  /** Joining single lines loses nothing. */
  lemma {:induction false} JoinInjective(a: seq<string>, b: seq<string>)
    requires a != [] && b != [] && Join(a) == Join(b)
    requires (forall v :: v in a ==> OneLine(v)) && (forall v :: v in b ==> OneLine(v))
    ensures a == b
  {
    assert a[0] in a && b[0] in b;
    if |a| == 1 || |b| == 1 {
      if |a| > 1 {
        JoinNotOneLine(a);
      }
      if |b| > 1 {
        JoinNotOneLine(b);
      }
    } else {
      JoinCut(a[0], b[0], Join(a[1..]), Join(b[1..]));
      JoinInjective(a[1..], b[1..]);
      assert a == [a[0]] + a[1..] && b == [b[0]] + b[1..];
    }
  }

  ghost predicate CollisionFree(platform: Platform) {
    forall s, t :: platform.digest(s) == platform.digest(t) ==> s == t
  }

  lemma ContentIdInjective(platform: Platform, prefix: string, a: seq<string>, b: seq<string>)
    requires CollisionFree(platform) && a != [] && b != []
    requires (forall v :: v in a ==> OneLine(v)) && (forall v :: v in b ==> OneLine(v))
    requires ContentId(platform, prefix, a) == ContentId(platform, prefix, b)
    ensures a == b
  {
    var head := prefix + "-";
    assert (head + platform.digest(RULE_VERSION + "\n" + Join(a)))[|head|..] == platform.digest(RULE_VERSION + "\n" + Join(a));
    assert (head + platform.digest(RULE_VERSION + "\n" + Join(b)))[|head|..] == platform.digest(RULE_VERSION + "\n" + Join(b));
    var rule := RULE_VERSION + "\n";
    assert (rule + Join(a))[|rule|..] == Join(a) && (rule + Join(b))[|rule|..] == Join(b);
    JoinInjective(a, b);
  }

  /** Incidents of different classes carry different identifiers. */
  lemma IncidentIdsDiffer(platform: Platform, c: Content, i: nat, j: nat)
    requires Complete(c) && CollisionFree(platform) && forall x :: x in c.messages ==> OneLine(x)
    requires i < j < |AllIncidents(platform, c)|
    ensures AllIncidents(platform, c)[i].incidentId != AllIncidents(platform, c)[j].incidentId
  {
    var leaders := SortedKeys(Leaders(c));
    var x, y := leaders[i], leaders[j];
    assert x in leaders && y in leaders;
    LessIrreflexive(x);
    ComponentHasEdge(c, x);
    ComponentHasEdge(c, y);
    var a, b := SortedKeys(Component(c, x)), SortedKeys(Component(c, y));
    if ContentId(platform, "incident", a) == ContentId(platform, "incident", b) {
      ContentIdInjective(platform, "incident", a, b);
      assert x in a && x in b;
      LeaderUnique(c, x, y, x);
      assert false;
    }
  }

  /** Nodes tell events apart: sources are names without a colon. */
  lemma NodeIdsDiffer(m: StreamMessage, n: StreamMessage)
    requires ':' !in m.event.source && ':' !in n.event.source
    ensures NodeId(m) == NodeId(n) <==> m.event.source == n.event.source && m.event.eventId == n.event.eventId
  {
    var a, b := m.event.source, n.event.source;
    if NodeId(m) == NodeId(n) {
      assert NodeId(m)[|a|] == ':' && NodeId(n)[|b|] == ':';
      assert forall i :: 0 <= i < |a| ==> NodeId(m)[i] == a[i] && a[i] in a;
      assert forall i :: 0 <= i < |b| ==> NodeId(n)[i] == b[i] && b[i] in b;
      assert |a| == |b|;
      assert a == NodeId(m)[..|a|] && m.event.eventId == NodeId(m)[|a| + 1..];
      assert b == NodeId(n)[..|b|] && n.event.eventId == NodeId(n)[|b| + 1..];
    }
  }
}
