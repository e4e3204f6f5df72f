/** The imperative builder of `correlation.py`, proved against the reachability classes of its batch. */
module IncidentBuilder {
  import opened Wrappers
  import opened Ordering
  import opened EvidenceForest
  import opened EvidenceGraph
  import opened Correlation
  import opened Sequences
  import Sorting

  // ---- rejection, pair by pair ----

  /** What stops the builder from adding `r` to what it has collected. */
  function Misfit(c: Content, r: Reading): Option<CorrelationError> {
    var withLeft := c.messages[r.leftId := r.left];
    if r.leftId in c.messages && c.messages[r.leftId].streamId != r.left.streamId then Some(MultipleRevisions)
    else if r.rightId in withLeft && withLeft[r.rightId].streamId != r.right.streamId then Some(MultipleRevisions)
    else if r.edge.edgeId in c.edges && c.edges[r.edge.edgeId] != r.edge then Some(ConflictingMeasurements)
    else None
  }

  /** The first conflict met when the readings are added in order. */
  function FirstConflict(rs: seq<Reading>): Option<CorrelationError> {
    if rs == [] then None
    else
      var before := rs[..|rs| - 1];
      match FirstConflict(before)
      case Some(e) => Some(e)
      case None => Misfit(Collect(before), rs[|rs| - 1])
  }

  lemma NamesStep(before: seq<Reading>, r: Reading)
    ensures forall x, m :: Names(before + [r], x, m) <==>
              Names(before, x, m) || (x == r.leftId && m == r.left) || (x == r.rightId && m == r.right)
  {
    forall x, m ensures Names(before + [r], x, m) <==>
        Names(before, x, m) || (x == r.leftId && m == r.left) || (x == r.rightId && m == r.right)
    {
      assert r in before + [r];
      if Names(before, x, m) {
        var s :| s in before && ((s.leftId == x && s.left == m) || (s.rightId == x && s.right == m));
        assert s in before + [r];
      }
      if Names(before + [r], x, m) {
        var s :| s in before + [r] && ((s.leftId == x && s.left == m) || (s.rightId == x && s.right == m));
        assert s in before || s == r;
      }
    }
  }

  /** The collected message of a node is one that named it; the collected nodes are the named ones. */
  lemma {:induction false} CollectMessages(rs: seq<Reading>)
    ensures forall x :: x in Collect(rs).messages ==> Names(rs, x, Collect(rs).messages[x])
    ensures forall x, m :: Names(rs, x, m) ==> x in Collect(rs).messages
  {
    if rs != [] {
      var before, r := rs[..|rs| - 1], rs[|rs| - 1];
      CollectMessages(before);
      assert rs == before + [r];
      NamesStep(before, r);
    }
  }

  /** Some reading has this edge. */
  ghost predicate HasEdge(rs: seq<Reading>, e: EvidenceEdge) {
    exists r :: r in rs && r.edge == e
  }

  lemma HasEdgeStep(before: seq<Reading>, r: Reading, e: EvidenceEdge)
    ensures HasEdge(before + [r], e) <==> HasEdge(before, e) || r.edge == e
  {
    assert forall s :: s in before + [r] <==> s in before || s == r;
  }

  lemma {:induction false} CollectEdges(rs: seq<Reading>)
    ensures forall k :: k in Collect(rs).edges ==> Collect(rs).edges[k].edgeId == k && HasEdge(rs, Collect(rs).edges[k])
    ensures forall r :: r in rs ==> r.edge.edgeId in Collect(rs).edges
  {
    if rs != [] {
      var before, r := rs[..|rs| - 1], rs[|rs| - 1];
      CollectEdges(before);
      assert rs == before + [r];
      forall k | k in Collect(rs).edges ensures Collect(rs).edges[k].edgeId == k && HasEdge(rs, Collect(rs).edges[k]) {
        HasEdgeStep(before, r, Collect(rs).edges[k]);
      }
    }
  }

  lemma ConsistentPrefix(before: seq<Reading>, r: Reading)
    requires Consistent(before + [r])
    ensures Consistent(before)
  {
    NamesStep(before, r);
    assert forall s :: s in before ==> s in before + [r];
  }

  lemma FitKeepsRevision(before: seq<Reading>, r: Reading, x: string, m: StreamMessage, n: StreamMessage)
    requires Consistent(before) && Misfit(Collect(before), r).None?
    requires Names(before + [r], x, m) && Names(before + [r], x, n)
    ensures m.streamId == n.streamId
  {
    NamesStep(before, r);
    CollectMessages(before);
    var c := Collect(before);
    assert Names(before, x, m) ==> Names(before, x, c.messages[x]);
    assert Names(before, x, n) ==> Names(before, x, c.messages[x]);
  }

  lemma EdgesAgree(rs: seq<Reading>, e: EvidenceEdge, f: EvidenceEdge)
    requires Consistent(rs) && HasEdge(rs, e) && HasEdge(rs, f) && e.edgeId == f.edgeId
    ensures e == f
  {
    var r :| r in rs && r.edge == e;
    var s :| s in rs && s.edge == f;
    assert r.edge.edgeId == s.edge.edgeId;
  }

  lemma FitKeepsEdge(before: seq<Reading>, r: Reading, s: Reading)
    requires Consistent(before) && Misfit(Collect(before), r).None? && s in before && s.edge.edgeId == r.edge.edgeId
    ensures s.edge == r.edge
  {
    CollectEdges(before);
    assert HasEdge(before, s.edge);
    EdgesAgree(before, s.edge, Collect(before).edges[r.edge.edgeId]);
  }

  lemma FitKeepsConsistent(before: seq<Reading>, r: Reading)
    requires Consistent(before) && Misfit(Collect(before), r).None?
    ensures Consistent(before + [r])
  {
    forall x, m, n | Names(before + [r], x, m) && Names(before + [r], x, n) ensures m.streamId == n.streamId {
      FitKeepsRevision(before, r, x, m, n);
    }
    forall s, t | s in before + [r] && t in before + [r] && s.edge.edgeId == t.edge.edgeId ensures s.edge == t.edge {
      if s in before && t in before {
        EdgesAgree(before, s.edge, t.edge);
      } else if s in before {
        FitKeepsEdge(before, r, s);
      } else if t in before {
        FitKeepsEdge(before, r, t);
      }
    }
  }

  lemma RevisionsDiffer(rs: seq<Reading>, x: string, m: StreamMessage, n: StreamMessage)
    requires Names(rs, x, m) && Names(rs, x, n) && m.streamId != n.streamId
    ensures !Consistent(rs)
  {
  }

  lemma EdgesDiffer(rs: seq<Reading>, r: Reading, s: Reading)
    requires r in rs && s in rs && r.edge.edgeId == s.edge.edgeId && r.edge != s.edge
    ensures !Consistent(rs)
  {
  }

  lemma MisfitBreaks(before: seq<Reading>, r: Reading)
    requires Misfit(Collect(before), r).Some?
    ensures !Consistent(before + [r])
  {
    var c, rs := Collect(before), before + [r];
    NamesStep(before, r);
    CollectMessages(before);
    CollectEdges(before);
    if r.leftId in c.messages && c.messages[r.leftId].streamId != r.left.streamId {
      RevisionsDiffer(rs, r.leftId, c.messages[r.leftId], r.left);
    } else if r.rightId == r.leftId && r.left.streamId != r.right.streamId {
      RevisionsDiffer(rs, r.rightId, r.left, r.right);
    } else if r.rightId != r.leftId && r.rightId in c.messages && c.messages[r.rightId].streamId != r.right.streamId {
      RevisionsDiffer(rs, r.rightId, c.messages[r.rightId], r.right);
    } else {
      var s :| s in before && s.edge == c.edges[r.edge.edgeId];
      EdgesDiffer(rs, s, r);
    }
  }

  /** A consistent batch stays consistent exactly when the next reading fits. */
  lemma ConsistentStep(before: seq<Reading>, r: Reading)
    requires Consistent(before)
    ensures Consistent(before + [r]) <==> Misfit(Collect(before), r).None?
  {
    if Misfit(Collect(before), r).None? {
      FitKeepsConsistent(before, r);
    } else {
      MisfitBreaks(before, r);
    }
  }

  /** The builder rejects a batch exactly when the batch contradicts itself. */
  lemma {:induction false} RejectedIffInconsistent(rs: seq<Reading>)
    ensures FirstConflict(rs).None? <==> Consistent(rs)
  {
    if rs != [] {
      var before, r := rs[..|rs| - 1], rs[|rs| - 1];
      assert rs == before + [r];
      RejectedIffInconsistent(before);
      if Consistent(before) {
        ConsistentStep(before, r);
      } else if Consistent(rs) {
        ConsistentPrefix(before, r);
      }
    }
  }

  lemma CollectedEdge(rs: seq<Reading>, r: Reading)
    requires Consistent(rs) && r in rs
    ensures r.edge.edgeId in Collect(rs).edges && Collect(rs).edges[r.edge.edgeId] == r.edge
  {
    CollectEdges(rs);
    assert HasEdge(rs, r.edge);
    EdgesAgree(rs, r.edge, Collect(rs).edges[r.edge.edgeId]);
  }

  lemma EdgeEndsCollected(rs: seq<Reading>, k: string)
    requires (forall r :: r in rs ==> JoinsItsNodes(r)) && k in Collect(rs).edges
    ensures var e := Collect(rs).edges[k]; e.fromNodeId in Collect(rs).messages && e.toNodeId in Collect(rs).messages
  {
    CollectMessages(rs);
    CollectEdges(rs);
    var r :| r in rs && r.edge == Collect(rs).edges[k];
    assert Names(rs, r.leftId, r.left) && Names(rs, r.rightId, r.right);
  }

  lemma NodeHasEdge(rs: seq<Reading>, x: string)
    requires Consistent(rs) && (forall r :: r in rs ==> JoinsItsNodes(r)) && x in Collect(rs).messages
    ensures Joined(Collect(rs), x)
  {
    CollectMessages(rs);
    var m := Collect(rs).messages[x];
    assert Names(rs, x, m);
    var r :| r in rs && ((r.leftId == x && r.left == m) || (r.rightId == x && r.right == m));
    CollectedEdge(rs, r);
  }

  lemma CollectComplete(rs: seq<Reading>)
    requires Consistent(rs) && forall r :: r in rs ==> JoinsItsNodes(r)
    ensures Complete(Collect(rs))
  {
    var c := Collect(rs);
    forall k | k in c.edges ensures c.edges[k].fromNodeId in c.messages && c.edges[k].toNodeId in c.messages {
      EdgeEndsCollected(rs, k);
    }
    forall x | x in c.messages ensures Joined(c, x) {
      NodeHasEdge(rs, x);
    }
  }

  // ---- the forest against the classes ----

  ghost function RootSet(p: Parents): set<string>
    requires IsForest(p)
  {
    set x | x in p && Root(p, x) == x
  }

  ghost function Tree(p: Parents, root: string): set<string>
    requires IsForest(p)
  {
    set x | x in p && Root(p, x) == root
  }

  /** In a forest representing a content, trees are its classes and roots are their least nodes. */
  lemma TreesAreComponents(p: Parents, c: Content)
    requires Represents(p, LinksOf(c.edges)) && p.Keys == c.messages.Keys
    ensures RootSet(p) == Leaders(c)
    ensures forall x :: x in RootSet(p) ==> Tree(p, x) == Component(c, x)
  {
    forall x | x in RootSet(p) ensures Tree(p, x) == Component(c, x) {
      forall y | y in p ensures y in Tree(p, x) <==> y in Component(c, x) {
        SameRootIffConnected(p, LinksOf(c.edges), x, y);
      }
    }
    forall x | x in p ensures x in RootSet(p) <==> IsLeader(c, x) {
      RootIsLeader(p, c, x);
    }
  }

  lemma RootIsLeader(p: Parents, c: Content, x: string)
    requires Represents(p, LinksOf(c.edges)) && p.Keys == c.messages.Keys && x in p
    ensures Root(p, x) == x <==> IsLeader(c, x)
  {
    RootIsLeast(p, x);
    if Root(p, x) == x {
      forall y | y in Component(c, x) ensures AtMost(x, y) {
        SameRootIffConnected(p, LinksOf(c.edges), x, y);
        RootIsLeast(p, y);
      }
    }
    if IsLeader(c, x) {
      assert Root(p, x) in Component(c, x);
      AtMostAntisymmetric(x, Root(p, x));
    }
  }

  lemma LinksGrow(edges: Edges, e: EvidenceEdge)
    requires e.edgeId in edges ==> edges[e.edgeId] == e
    ensures LinksOf(edges[e.edgeId := e]) == LinksOf(edges) + {(e.fromNodeId, e.toNodeId)}
  {
    var more := edges[e.edgeId := e];
    forall l | l in LinksOf(edges) ensures l in LinksOf(more) {
      var k :| k in edges && l == (edges[k].fromNodeId, edges[k].toNodeId);
      assert more[k] == edges[k];
    }
    assert more[e.edgeId] == e;
    forall l | l in LinksOf(more) ensures l in LinksOf(edges) + {(e.fromNodeId, e.toNodeId)} {
      var k :| k in more && l == (more[k].fromNodeId, more[k].toNodeId);
      if k != e.edgeId {
        assert k in edges && more[k] == edges[k];
      }
    }
  }

  /** `messages[node_id] = message; parents.setdefault(node_id, node_id)` */
  method AddNode(forest: Forest, messages: Messages, nodeId: string, message: StreamMessage, ghost links: Links)
    returns (added: Messages)
    requires Represents(forest.parents, links) && forest.parents.Keys == messages.Keys
    modifies forest
    ensures added == messages[nodeId := message]
    ensures Represents(forest.parents, links) && forest.parents.Keys == added.Keys
  {
    added := messages[nodeId := message];
    if nodeId !in forest.parents {
      RepresentsNewNode(forest.parents, forest.parents[nodeId := nodeId], links, nodeId);
    }
    forest.SetDefault(nodeId);
  }

  /** `xs` lists exactly the members of `s`, ascending. */
  ghost predicate Lists(xs: seq<string>, s: set<string>) {
    StrictlyAscending(xs) && forall x :: x in xs <==> x in s
  }

  lemma ListsAppend(xs: seq<string>, s: set<string>, y: string)
    requires Lists(xs, s) && forall x :: x in s ==> Less(x, y)
    ensures Lists(xs + [y], s + {y})
  {
    forall i, j | 0 <= i < j < |xs + [y]| ensures Less((xs + [y])[i], (xs + [y])[j]) {
      assert xs[i] in xs;
    }
  }

  /** The grouping once the nodes in `seen` have been visited. */
  ghost predicate Grouped(p: Parents, seen: set<string>, order: seq<string>, components: map<string, seq<string>>)
    requires IsForest(p)
  {
    && Lists(order, RootSet(p) * seen)
    && components.Keys == RootSet(p) * seen
    && forall r {:trigger components[r]} :: r in components.Keys ==> Lists(components[r], Tree(p, r) * seen)
  }

  /** Visiting one more node adds it to its own tree only. */
  lemma TreeStep(p: Parents, seen: set<string>, id: string, r: string)
    requires IsForest(p) && id in p
    ensures Tree(p, r) * (seen + {id}) == if r == Root(p, id) then Tree(p, r) * seen + {id} else Tree(p, r) * seen
  {
  }

  /** A root is the first node of its tree to be visited. */
  lemma RootUnseen(p: Parents, seen: set<string>, id: string)
    requires IsForest(p) && id in p && Root(p, id) == id && forall x :: x in seen <==> x in p && Less(x, id)
    ensures Tree(p, id) * seen == {}
  {
    forall x | x in Tree(p, id) ensures x !in seen {
      RootIsLeast(p, x);
      if Less(x, id) {
        LessAsymmetric(x, id);
      }
    }
  }

  /** Visiting nodes in ascending order, a root opens its list when it is itself visited. */
  lemma GroupStep(
    p: Parents, seen: set<string>, id: string,
    order: seq<string>, components: map<string, seq<string>>, next: map<string, seq<string>>)
    requires IsForest(p) && id in p && Grouped(p, seen, order, components)
    requires forall x :: x in seen <==> x in p && Less(x, id)
    requires next == components[Root(p, id) := (if Root(p, id) in components then components[Root(p, id)] else []) + [id]]
    ensures Grouped(p, seen + {id}, if Root(p, id) in components then order else order + [Root(p, id)], next)
  {
    var root, more := Root(p, id), seen + {id};
    RootIsLeast(p, id);
    RootSteps(p, root);
    LessIrreflexive(id);
    if root == id {
      assert RootSet(p) * more == RootSet(p) * seen + {id};
      RootUnseen(p, seen, id);
      ListsAppend(order, RootSet(p) * seen, id);
    } else {
      assert RootSet(p) * more == RootSet(p) * seen;
    }
    forall r {:trigger next[r]} | r in next.Keys ensures Lists(next[r], Tree(p, r) * more) {
      TreeStep(p, seen, id, r);
      if r == root {
        ListsAppend(if root in components then components[root] else [], Tree(p, r) * seen, id);
      } else {
        assert next[r] == components[r];
      }
    }
  }

  lemma GroupingDone(p: Parents, order: seq<string>, components: map<string, seq<string>>)
    requires IsForest(p) && Grouped(p, p.Keys, order, components)
    ensures order == SortedKeys(RootSet(p)) && components.Keys == RootSet(p)
    ensures forall r {:trigger components[r]} :: r in components.Keys ==> components[r] == SortedKeys(Tree(p, r))
  {
    assert RootSet(p) * p.Keys == RootSet(p);
    AscendingUnique(order, RootSet(p));
    forall r {:trigger components[r]} | r in components.Keys ensures components[r] == SortedKeys(Tree(p, r)) {
      assert Tree(p, r) * p.Keys == Tree(p, r);
      AscendingUnique(components[r], Tree(p, r));
    }
  }

  ghost function Seen(xs: seq<string>, i: nat): set<string>
    requires i <= |xs|
  {
    set x | x in xs[..i]
  }

  lemma SeenStep(xs: seq<string>, i: nat)
    requires i < |xs|
    ensures Seen(xs, i + 1) == Seen(xs, i) + {xs[i]}
  {
    assert xs[..i + 1] == xs[..i] + [xs[i]];
  }

  lemma PrefixBelow(xs: seq<string>, i: nat, x: string)
    requires StrictlyAscending(xs) && i < |xs|
    ensures x in xs[..i] <==> x in xs && Less(x, xs[i])
  {
    if x in xs[..i] {
      var j :| 0 <= j < i && xs[j] == x;
    }
    if x in xs && Less(x, xs[i]) {
      var j :| 0 <= j < |xs| && xs[j] == x;
      LessAsymmetric(x, xs[i]);
      assert xs[..i][j] == x;
    }
  }

  lemma SeenBelow(xs: seq<string>, s: set<string>, i: nat)
    requires xs == SortedKeys(s) && i < |xs|
    ensures xs[i] in s
    ensures forall x :: x in Seen(xs, i) <==> x in s && Less(x, xs[i])
  {
    assert xs[i] in xs;
    forall x ensures x in Seen(xs, i) <==> x in s && Less(x, xs[i]) {
      PrefixBelow(xs, i, x);
    }
  }

  /** The list a node is appended to, and the roots listed, once node `id` with root `root` is visited. */
  function Append(components: map<string, seq<string>>, root: string, id: string): map<string, seq<string>> {
    components[root := (if root in components then components[root] else []) + [id]]
  }

  function Open(order: seq<string>, components: map<string, seq<string>>, root: string): seq<string> {
    if root in components then order else order + [root]
  }

  ghost predicate GroupedUpTo(p: Parents, nodeIds: seq<string>, i: nat, order: seq<string>, components: map<string, seq<string>>)
    requires i <= |nodeIds|
  {
    IsForest(p) && nodeIds == SortedKeys(p.Keys) && Grouped(p, Seen(nodeIds, i), order, components)
  }

  lemma GroupVisit(
    p: Parents, q: Parents, nodeIds: seq<string>, i: nat, order: seq<string>, components: map<string, seq<string>>)
    requires i < |nodeIds| && GroupedUpTo(p, nodeIds, i, order, components)
    requires IsForest(q) && SameRoots(p, q)
    ensures nodeIds[i] in q
    ensures var root := Root(q, nodeIds[i]);
            GroupedUpTo(p, nodeIds, i + 1, Open(order, components, root), Append(components, root, nodeIds[i]))
  {
    SeenBelow(nodeIds, p.Keys, i);
    SeenStep(nodeIds, i);
    assert Root(q, nodeIds[i]) == Root(p, nodeIds[i]);
    GroupStep(p, Seen(nodeIds, i), nodeIds[i], order, components, Append(components, Root(p, nodeIds[i]), nodeIds[i]));
  }

  lemma GroupStart(p: Parents, nodeIds: seq<string>)
    requires IsForest(p) && nodeIds == SortedKeys(p.Keys)
    ensures GroupedUpTo(p, nodeIds, 0, [], map[])
  {
  }

  lemma GroupEnd(p: Parents, nodeIds: seq<string>, order: seq<string>, components: map<string, seq<string>>)
    requires GroupedUpTo(p, nodeIds, |nodeIds|, order, components)
    ensures GroupsTrees(p, order, components)
  {
    assert nodeIds[..|nodeIds|] == nodeIds;
    assert Seen(nodeIds, |nodeIds|) == p.Keys;
    GroupingDone(p, order, components);
  }

  /** Every root in ascending order, each with the ascending list of its tree. */
  ghost predicate GroupsTrees(p: Parents, order: seq<string>, components: map<string, seq<string>>)
    requires IsForest(p)
  {
    && order == SortedKeys(RootSet(p)) && components.Keys == RootSet(p)
    && forall r {:trigger components[r]} :: r in components.Keys ==> components[r] == SortedKeys(Tree(p, r))
  }

  /** `components.setdefault(find(node_id), []).append(node_id)` over the sorted nodes. */
  method GroupByRoot(forest: Forest, nodeIds: seq<string>)
    returns (order: seq<string>, components: map<string, seq<string>>)
    requires forest.Valid() && nodeIds == SortedKeys(forest.parents.Keys)
    modifies forest
    ensures old(forest.Valid()) && GroupsTrees(old(forest.parents), order, components)
  {
    ghost var p := forest.parents;
    order, components := [], map[];
    GroupStart(p, nodeIds);
    for i := 0 to |nodeIds|
      invariant forest.Valid() && SameRoots(p, forest.parents)
      invariant GroupedUpTo(p, nodeIds, i, order, components)
    {
      ghost var q := forest.parents;
      GroupVisit(p, q, nodeIds, i, order, components);
      var root := forest.Find(nodeIds[i]);
      SameRootsTransitive(p, q, forest.parents);
      order := Open(order, components, root);
      components := Append(components, root, nodeIds[i]);
    }
    GroupEnd(p, nodeIds, order, components);
  }

  lemma {:induction false} ConflictSticks(rs: seq<Reading>, i: nat)
    requires i <= |rs| && FirstConflict(rs[..i]).Some?
    ensures FirstConflict(rs) == FirstConflict(rs[..i])
    decreases |rs|
  {
    if i == |rs| {
      assert rs[..i] == rs;
    } else {
      var before := rs[..|rs| - 1];
      assert before[..i] == rs[..i];
      ConflictSticks(before, i);
    }
  }

  lemma PrefixStep(rs: seq<Reading>, i: nat)
    requires i < |rs|
    ensures rs[..i + 1] == rs[..i] + [rs[i]]
    ensures Collect(rs[..i + 1]) == AddReading(Collect(rs[..i]), rs[i])
    ensures FirstConflict(rs[..i]).None? ==> FirstConflict(rs[..i + 1]) == Misfit(Collect(rs[..i]), rs[i])
  {
    assert rs[..i + 1][..i] == rs[..i];
  }

  /** The answer as a function of the batch: its first conflict, or its ranked classes. */
  ghost function Answer(platform: Platform, batch: CorrelationBatch, limit: nat): Result<CorrelationResult, CorrelationError> {
    var rs := ReadAll(platform, batch.pairs);
    match FirstConflict(rs)
    case Some(e) => Failure(e)
    case None =>
      RejectedIffInconsistent(rs);
      CollectComplete(rs);
      Success(Expected(platform, Collect(rs), limit, batch.truncated))
  }

  /** The dictionaries and the forest once the readings in `rs` have been added without conflict. */
  ghost predicate Holds(rs: seq<Reading>, p: Parents, messages: Messages, edges: Edges) {
    && FirstConflict(rs).None? && Content(messages, edges) == Collect(rs)
    && Represents(p, LinksOf(edges)) && p.Keys == messages.Keys
  }

  method CollectPairs(platform: Platform, pairs: seq<CorrelationPair>, forest: Forest)
    returns (conflict: Option<CorrelationError>, messages: Messages, edges: Edges)
    requires forest.parents == map[]
    modifies forest
    ensures conflict == FirstConflict(ReadAll(platform, pairs))
    ensures conflict.None? ==> Holds(ReadAll(platform, pairs), forest.parents, messages, edges)
  {
    messages, edges := map[], map[];
    ghost var rs := ReadAll(platform, pairs);
    for i := 0 to |pairs|
      invariant Holds(rs[..i], forest.parents, messages, edges)
    {
      var reading := Read(platform, pairs[i]);
      ghost var links := LinksOf(edges);
      PrefixStep(rs, i);
      if Misfit(Collect(rs[..i]), reading).Some? {
        ConflictSticks(rs, i + 1);
      }
      if reading.leftId in messages && messages[reading.leftId].streamId != reading.left.streamId {
        return Some(MultipleRevisions), messages, edges;
      }
      messages := AddNode(forest, messages, reading.leftId, reading.left, links);
      if reading.rightId in messages && messages[reading.rightId].streamId != reading.right.streamId {
        return Some(MultipleRevisions), messages, edges;
      }
      messages := AddNode(forest, messages, reading.rightId, reading.right, links);
      var edge := reading.edge;
      if edge.edgeId in edges && edges[edge.edgeId] != edge {
        return Some(ConflictingMeasurements), messages, edges;
      }
      LinksGrow(edges, edge);
      edges := edges[edge.edgeId := edge];
      ghost var p := forest.parents;
      forest.Union(edge.fromNodeId, edge.toNodeId);
      RepresentsMerge(p, forest.parents, links, LinksOf(edges), edge.fromNodeId, edge.toNodeId);
    }
    assert rs[..|pairs|] == rs;
    conflict := None;
  }

  /** The classes of a content, listed as the grouping loop lists them. */
  ghost predicate GroupsClasses(c: Content, order: seq<string>, components: map<string, seq<string>>) {
    && order == SortedKeys(Leaders(c)) && components.Keys == Leaders(c)
    && forall x {:trigger components[x]} :: x in components.Keys ==> components[x] == SortedKeys(Component(c, x))
  }

  lemma ClassIds(platform: Platform, c: Content, x: string)
    requires Complete(c) && x in Leaders(c)
    ensures Describable(c.messages, c.edges, SortedKeys(Component(c, x)))
    ensures IncidentOf(platform, c.messages, c.edges, SortedKeys(Component(c, x))) == IncidentAt(platform, c, x)
  {
    ComponentHasEdge(c, x);
    var ids := SortedKeys(Component(c, x));
    forall j | 0 <= j < |ids| ensures ids[j] in c.messages {
      assert ids[j] in ids;
    }
  }

  lemma ListedLeader(c: Content, order: seq<string>, i: nat)
    requires order == SortedKeys(Leaders(c)) && i < |order|
    ensures order[i] in Leaders(c)
  {
    assert order[i] in order;
  }

  function AsSet(xs: seq<string>): set<string> {
    set x | x in xs
  }

  lemma SortedListing(xs: seq<string>, s: set<string>)
    requires xs == SortedKeys(s)
    ensures AsSet(xs) == s
  {
  }

  lemma OrderedIds(c: Content, order: seq<string>, components: map<string, seq<string>>, i: nat)
    requires GroupsClasses(c, order, components) && i < |order|
    ensures order[i] in components && order[i] in Leaders(c)
    ensures AsSet(components[order[i]]) == Component(c, order[i])
  {
    ListedLeader(c, order, i);
    SortedListing(components[order[i]], Component(c, order[i]));
  }

  /** The ordered nodes of the `i`-th group describe this incident. */
  ghost predicate Describes(
    platform: Platform, messages: Messages, edges: Edges, order: seq<string>, components: map<string, seq<string>>, i: nat,
    incident: IncidentCandidate)
  {
    && i < |order| && order[i] in components
    && var ids := SortedKeys(AsSet(components[order[i]]));
       Describable(messages, edges, ids) && IncidentOf(platform, messages, edges, ids) == incident
  }

  lemma IncidentOfLeader(platform: Platform, c: Content, i: nat)
    requires Complete(c) && i < |SortedKeys(Leaders(c))|
    ensures SortedKeys(Leaders(c))[i] in Leaders(c)
    ensures i < |AllIncidents(platform, c)|
    ensures AllIncidents(platform, c)[i] == IncidentAt(platform, c, SortedKeys(Leaders(c))[i])
  {
    assert SortedKeys(Leaders(c))[i] in SortedKeys(Leaders(c));
  }

  lemma GroupDescribes(
    platform: Platform, c: Content, order: seq<string>, components: map<string, seq<string>>, i: nat)
    requires Complete(c) && GroupsClasses(c, order, components) && i < |order|
    ensures i < |AllIncidents(platform, c)|
    ensures Describes(platform, c.messages, c.edges, order, components, i, AllIncidents(platform, c)[i])
  {
    OrderedIds(c, order, components, i);
    ClassIds(platform, c, order[i]);
    IncidentOfLeader(platform, c, i);
  }

  lemma GroupsDescribe(platform: Platform, c: Content, order: seq<string>, components: map<string, seq<string>>)
    requires Complete(c) && GroupsClasses(c, order, components)
    ensures |AllIncidents(platform, c)| == |order|
    ensures forall i :: 0 <= i < |order| ==>
              Describes(platform, c.messages, c.edges, order, components, i, AllIncidents(platform, c)[i])
  {
    forall i | 0 <= i < |order|
      ensures Describes(platform, c.messages, c.edges, order, components, i, AllIncidents(platform, c)[i])
    {
      GroupDescribes(platform, c, order, components, i);
    }
  }

  method BuildIncidents(
    platform: Platform, messages: Messages, edges: Edges, order: seq<string>, components: map<string, seq<string>>,
    ghost expected: seq<IncidentCandidate>)
    returns (incidents: seq<IncidentCandidate>)
    requires |expected| == |order|
    requires forall i :: 0 <= i < |order| ==> Describes(platform, messages, edges, order, components, i, expected[i])
    ensures incidents == expected
  {
    incidents := [];
    for i := 0 to |order|
      invariant incidents == expected[..i]
    {
      assert Describes(platform, messages, edges, order, components, i, expected[i]);
      var orderedIds := SortedKeys(AsSet(components[order[i]]));
      TakeNext(expected, i);
      incidents := incidents + [IncidentOf(platform, messages, edges, orderedIds)];
    }
  }

  method BuildIncidentCandidates(platform: Platform, batch: CorrelationBatch, limit: int)
    returns (r: Result<CorrelationResult, CorrelationError>)
    ensures !(1 <= limit <= 100) ==> r == Failure(LimitOutOfRange)
    ensures 1 <= limit <= 100 ==> r == Answer(platform, batch, limit)
  {
    if !(1 <= limit <= 100) {
      return Failure(LimitOutOfRange);
    }
    var forest := new Forest();
    var conflict, messages, edges := CollectPairs(platform, batch.pairs, forest);
    if conflict.Some? {
      return Failure(conflict.value);
    }
    ghost var rs, c := ReadAll(platform, batch.pairs), Content(messages, edges);
    RejectedIffInconsistent(rs);
    CollectComplete(rs);
    TreesAreComponents(forest.parents, c);
    var order, components := GroupByRoot(forest, SortedKeys(messages.Keys));
    GroupsDescribe(platform, c, order, components);
    var incidents := BuildIncidents(platform, messages, edges, order, components, AllIncidents(platform, c));
    var ranked := Sorting.Sort(incidents, NewestFirst);
    r := Success(CorrelationResult(
                   if limit < |ranked| then ranked[..limit] else ranked, |ranked|, |ranked| > limit, batch.truncated));
  }
}
