/** Reachability over undirected evidence links, and what makes a forest represent it. */
module EvidenceGraph {
  import opened EvidenceForest
  import opened Ordering

  type Links = set<(string, string)>

  ghost predicate Linked(links: Links, a: string, b: string) {
    (a, b) in links || (b, a) in links
  }

  ghost predicate IsWalk(links: Links, walk: seq<string>) {
    |walk| > 0 && forall i :: 0 < i < |walk| ==> Linked(links, walk[i - 1], walk[i])
  }

  /** Some walk along the links leads from `a` to `b`. */
  ghost predicate Connected(links: Links, a: string, b: string) {
    exists walk :: IsWalk(links, walk) && walk[0] == a && walk[|walk| - 1] == b
  }

  lemma ConnectedReflexive(links: Links, a: string)
    ensures Connected(links, a, a)
  {
    assert IsWalk(links, [a]);
  }

  lemma ConnectedByLink(links: Links, a: string, b: string)
    requires Linked(links, a, b)
    ensures Connected(links, a, b)
  {
    assert IsWalk(links, [a, b]);
  }

  lemma ConnectedSymmetric(links: Links, a: string, b: string)
    requires Connected(links, a, b)
    ensures Connected(links, b, a)
  {
    var walk :| IsWalk(links, walk) && walk[0] == a && walk[|walk| - 1] == b;
    var back := seq(|walk|, i requires 0 <= i < |walk| => walk[|walk| - 1 - i]);
    forall i | 0 < i < |back| ensures Linked(links, back[i - 1], back[i]) {
      assert Linked(links, walk[|walk| - 1 - i], walk[|walk| - i]);
    }
    assert IsWalk(links, back);
  }

  lemma ConnectedTransitive(links: Links, a: string, b: string, c: string)
    requires Connected(links, a, b) && Connected(links, b, c)
    ensures Connected(links, a, c)
  {
    var v :| IsWalk(links, v) && v[0] == a && v[|v| - 1] == b;
    var w :| IsWalk(links, w) && w[0] == b && w[|w| - 1] == c;
    var joined := v + w[1..];
    forall i | 0 < i < |joined| ensures Linked(links, joined[i - 1], joined[i]) {
      if i >= |v| {
        assert Linked(links, w[i - |v|], w[i - |v| + 1]);
      }
    }
    assert IsWalk(links, joined);
  }

  lemma ConnectedGrows(links: Links, more: Links, a: string, b: string)
    requires links <= more && Connected(links, a, b)
    ensures Connected(more, a, b)
  {
    var walk :| IsWalk(links, walk) && walk[0] == a && walk[|walk| - 1] == b;
    assert IsWalk(more, walk);
  }

  // ---- a forest that represents the reachability classes of its nodes ----

  /** Links join only nodes, both ends of a link share a root, and every node reaches its root. */
  ghost predicate Represents(p: Parents, links: Links) {
    && IsForest(p)
    && (forall l {:trigger l in links} | l in links :: l.0 in p && l.1 in p && Root(p, l.0) == Root(p, l.1))
    && (forall x {:trigger Root(p, x)} | x in p :: Connected(links, x, Root(p, x)))
  }

  lemma {:induction false} RootAlongWalk(p: Parents, links: Links, walk: seq<string>)
    requires Represents(p, links) && IsWalk(links, walk) && walk[0] in p
    ensures walk[|walk| - 1] in p && Root(p, walk[|walk| - 1]) == Root(p, walk[0])
  {
    if |walk| > 1 {
      var short := walk[..|walk| - 1];
      assert IsWalk(links, short);
      RootAlongWalk(p, links, short);
      assert Linked(links, walk[|walk| - 2], walk[|walk| - 1]);
    }
  }

  /** In a representing forest, sharing a root is the same as being connected. */
  lemma SameRootIffConnected(p: Parents, links: Links, x: string, y: string)
    requires Represents(p, links) && x in p && y in p
    ensures Root(p, x) == Root(p, y) <==> Connected(links, x, y)
  {
    if Connected(links, x, y) {
      var walk :| IsWalk(links, walk) && walk[0] == x && walk[|walk| - 1] == y;
      RootAlongWalk(p, links, walk);
    }
    if Root(p, x) == Root(p, y) {
      ConnectedSymmetric(links, y, Root(p, y));
      ConnectedTransitive(links, x, Root(p, x), y);
    }
  }

  lemma NewNodeIsForest(p: Parents, n: string)
    requires IsForest(p) && n !in p
    ensures IsForest(p[n := n]) && Root(p[n := n], n) == n
  {
    var q := p[n := n];
    assert forall x | x in p :: Parent(q, x) == Parent(p, x);
    assert Parent(q, n) == n;
  }

  lemma {:induction false} NewNodeKeepsRoot(p: Parents, n: string, x: string)
    requires IsForest(p) && IsForest(p[n := n]) && n !in p && x in p
    ensures Root(p[n := n], x) == Root(p, x)
    decreases |Below(p.Keys, x)|
  {
    assert Parent(p[n := n], x) == Parent(p, x);
    if Parent(p, x) != x {
      RankDecreases(p.Keys, Parent(p, x), x);
      NewNodeKeepsRoot(p, n, Parent(p, x));
    }
  }

  /** A new isolated node keeps the representation. */
  lemma RepresentsNewNode(p: Parents, q: Parents, links: Links, n: string)
    requires Represents(p, links) && n !in p && q == p[n := n]
    ensures Represents(q, links)
  {
    NewNodeIsForest(p, n);
    forall x {:trigger Root(q, x)} | x in p ensures Root(q, x) == Root(p, x) {
      NewNodeKeepsRoot(p, n, x);
    }
    ConnectedReflexive(links, n);
  }

  /** With the roots of `a` and `b` joined by a link, a node reaches whichever became its root. */
  lemma MergeConnects(links: Links, a: string, b: string, rootA: string, rootB: string, x: string, root: string)
    requires Connected(links, a, rootA) && Connected(links, b, rootB) && Connected(links, x, root)
    ensures Connected(links + {(a, b)}, x, MergedRoot(rootA, rootB, root))
  {
    var more := links + {(a, b)};
    ConnectedGrows(links, more, x, root);
    if root == rootA || root == rootB {
      ConnectedGrows(links, more, a, rootA);
      ConnectedGrows(links, more, b, rootB);
      ConnectedByLink(more, a, b);
      ConnectedSymmetric(more, a, rootA);
      ConnectedTransitive(more, rootA, a, b);
      ConnectedTransitive(more, rootA, b, rootB);
      ConnectedSymmetric(more, rootA, rootB);
      ConnectedReflexive(more, root);
      ConnectedTransitive(more, x, root, MergedRoot(rootA, rootB, root));
    }
  }

  lemma MergeJoins(p: Parents, q: Parents, links: Links, a: string, b: string, x: string, y: string)
    requires Represents(p, links) && IsForest(q) && a in p && b in p
    requires MergedRoots(p, q, a, b)
    requires (x, y) in links || (x == a && y == b)
    ensures x in q && y in q && Root(q, x) == Root(q, y)
  {
  }

  lemma MergeReaches(p: Parents, q: Parents, links: Links, a: string, b: string, x: string)
    requires Represents(p, links) && IsForest(q) && a in p && b in p && x in q
    requires MergedRoots(p, q, a, b)
    ensures Connected(links + {(a, b)}, x, Root(q, x))
  {
    MergeConnects(links, a, b, Root(p, a), Root(p, b), x, Root(p, x));
  }

  /** Merging the trees of two nodes represents the links plus one between those nodes. */
  lemma RepresentsMerge(p: Parents, q: Parents, links: Links, more: Links, a: string, b: string)
    requires Represents(p, links) && IsForest(q) && a in p && b in p
    requires MergedRoots(p, q, a, b) && more == links + {(a, b)}
    ensures Represents(q, more)
  {
    forall x {:trigger Root(q, x)} | x in q ensures Connected(more, x, Root(q, x)) {
      MergeReaches(p, q, links, a, b, x);
    }
    forall l {:trigger l in more} | l in more ensures l.0 in q && l.1 in q && Root(q, l.0) == Root(q, l.1) {
      MergeJoins(p, q, links, a, b, l.0, l.1);
    }
  }
}
