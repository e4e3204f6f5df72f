/**
 The union-find behind incident correlation: a dictionary of parents, path halving in `find`,
 and a `union` that always hangs the larger root under the smaller one.
 */
module EvidenceForest {
  import opened Ordering

  type Parents = map<string, string>

  ghost function Parent(p: Parents, x: string): string
    requires x in p
  {
    p[x]
  }

  /** Every parent is a node and never larger than its child, so no walk can cycle. */
  ghost predicate IsForest(p: Parents) {
    forall x {:trigger Parent(p, x)} | x in p :: Parent(p, x) in p && AtMost(Parent(p, x), x)
  }

  /** The fixed point reached by following parents. */
  ghost function Root(p: Parents, x: string): string
    requires IsForest(p) && x in p
    decreases |Below(p.Keys, x)|
  {
    if Parent(p, x) == x then x
    else
      RankDecreases(p.Keys, Parent(p, x), x);
      Root(p, Parent(p, x))
  }

  /** A root is a node, its own parent, and no larger than any node below it. */
  lemma {:induction false} RootIsLeast(p: Parents, x: string)
    requires IsForest(p) && x in p
    ensures Root(p, x) in p && p[Root(p, x)] == Root(p, x)
    ensures AtMost(Root(p, x), x)
    decreases |Below(p.Keys, x)|
  {
    if Parent(p, x) != x {
      RankDecreases(p.Keys, Parent(p, x), x);
      RootIsLeast(p, Parent(p, x));
      AtMostTransitive(Root(p, x), Parent(p, x), x);
    }
  }

  /** The same nodes, and every node under the root it had before. */
  ghost predicate SameRoots(p: Parents, q: Parents)
    requires IsForest(p) && IsForest(q)
  {
    && p.Keys == q.Keys
    && forall x {:trigger Root(q, x)} | x in p :: Root(q, x) == Root(p, x)
  }

  /** The root of a node that had root `r`, once the trees rooted at `a` and `b` are one. */
  ghost function MergedRoot(a: string, b: string, r: string): string {
    if r == a || r == b then if Less(a, b) then a else b else r
  }

  ghost predicate MergedRoots(p: Parents, q: Parents, l: string, r: string)
    requires IsForest(p) && IsForest(q) && l in p && r in p
  {
    && p.Keys == q.Keys
    && forall x {:trigger Root(q, x)} | x in p ::
         Root(q, x) == MergedRoot(Root(p, l), Root(p, r), Root(p, x))
  }

  lemma RehangIsForest(p: Parents, v: string, a: string)
    requires IsForest(p) && v in p && a in p && AtMost(a, v)
    ensures IsForest(p[v := a]) && p[v := a].Keys == p.Keys
  {
    var q := p[v := a];
    assert forall x | x in p :: Parent(q, x) == if x == v then a else Parent(p, x);
  }

  lemma {:induction false} RehangKeepsRoot(p: Parents, v: string, a: string, x: string)
    requires IsForest(p) && v in p && a in p && x in p
    requires AtMost(a, v) && Root(p, a) == Root(p, v)
    requires a == v ==> p[v] == v
    ensures IsForest(p[v := a]) && Root(p[v := a], x) == Root(p, x)
    decreases |Below(p.Keys, x)|
  {
    var q := p[v := a];
    RehangIsForest(p, v, a);
    if Parent(q, x) != x {
      RankDecreases(p.Keys, Parent(q, x), x);
      RehangKeepsRoot(p, v, a, Parent(q, x));
    } else if x == v {
      assert a == v;
    }
  }

  /** Re-hanging `v` on a smaller node of its own tree, or on its root, moves no root. */
  lemma RehangKeepsRoots(p: Parents, q: Parents, v: string, a: string)
    requires IsForest(p) && v in p && a in p && q == p[v := a]
    requires AtMost(a, v) && Root(p, a) == Root(p, v)
    requires a == v ==> p[v] == v
    ensures IsForest(q) && SameRoots(p, q)
  {
    RehangIsForest(p, v, a);
    forall x {:trigger Root(q, x)} | x in p ensures Root(q, x) == Root(p, x) {
      RehangKeepsRoot(p, v, a, x);
    }
  }

  /** Hanging one root under another merges exactly those two trees. */
  lemma {:induction false} LinkMergesRoots(p: Parents, first: string, second: string, x: string)
    requires IsForest(p) && first in p && second in p && x in p
    requires p[first] == first && p[second] == second && Less(first, second)
    ensures IsForest(p[second := first])
    ensures Root(p[second := first], x) == if Root(p, x) == second then first else Root(p, x)
    decreases |Below(p.Keys, x)|
  {
    var q := p[second := first];
    RehangIsForest(p, second, first);
    LessIrreflexive(first);
    if Parent(q, x) != x {
      RankDecreases(p.Keys, Parent(q, x), x);
      LinkMergesRoots(p, first, second, Parent(q, x));
    }
  }

  lemma LinkMerges(p: Parents, q: Parents, first: string, second: string)
    requires IsForest(p) && first in p && second in p && q == p[second := first]
    requires p[first] == first && p[second] == second && Less(first, second)
    ensures IsForest(q) && p.Keys == q.Keys
    ensures forall x {:trigger Root(q, x)} | x in p :: Root(q, x) == MergedRoot(first, second, Root(p, x))
  {
    RehangIsForest(p, second, first);
    forall x {:trigger Root(q, x)} | x in p ensures Root(q, x) == MergedRoot(first, second, Root(p, x)) {
      LinkMergesRoots(p, first, second, x);
    }
  }

  lemma MergedRootSymmetric(a: string, b: string)
    requires Less(a, b)
    ensures forall r :: MergedRoot(a, b, r) == MergedRoot(b, a, r)
  {
    LessAsymmetric(a, b);
  }

  /** Following one parent, or arriving at a root, does not change the root. */
  lemma RootSteps(p: Parents, x: string)
    requires IsForest(p) && x in p
    ensures p[x] in p && Root(p, p[x]) == Root(p, x)
    ensures p[x] == x ==> Root(p, x) == x
    ensures AtMost(p[x], x)
  {
    assert Parent(p, x) == p[x];
  }

  lemma HalvingStep(p: Parents, nodeId: string, parent: string)
    requires IsForest(p) && parent in p && AtMost(parent, nodeId)
    requires p[parent] in p && p[parent] != parent
    ensures var grandparent := p[p[parent]];
            && grandparent in p && AtMost(grandparent, nodeId)
            && |Below(p.Keys, grandparent)| < |Below(p.Keys, parent)|
            && IsForest(p[parent := grandparent]) && SameRoots(p, p[parent := grandparent])
            && Root(p, grandparent) == Root(p, parent)
  {
    var grandparent := p[p[parent]];
    RootSteps(p, parent);
    RootSteps(p, p[parent]);
    AtMostTransitive(grandparent, p[parent], parent);
    AtMostTransitive(grandparent, parent, nodeId);
    LessIrreflexive(parent);
    RankDecreases(p.Keys, grandparent, parent);
    RehangKeepsRoots(p, p[parent := grandparent], parent, grandparent);
  }

  lemma SameRootsTransitive(p: Parents, q: Parents, r: Parents)
    requires IsForest(p) && IsForest(q) && IsForest(r)
    requires SameRoots(p, q) && SameRoots(q, r)
    ensures SameRoots(p, r)
  {
  }

  class Forest {
    var parents: Parents

    ghost predicate Valid()
      reads this
    {
      IsForest(parents)
    }

    constructor ()
      ensures Valid() && parents == map[]
    {
      parents := map[];
    }

    /** `parents.setdefault(node_id, node_id)` */
    method SetDefault(nodeId: string)
      requires Valid()
      modifies this
      ensures Valid()
      ensures parents == if nodeId in old(parents) then old(parents) else old(parents)[nodeId := nodeId]
    {
      if nodeId !in parents {
        assert forall x | x in parents :: Parent(parents[nodeId := nodeId], x) == Parent(parents, x);
        parents := parents[nodeId := nodeId];
      }
    }

    /** Path halving terminates, returns the root, and leaves every node's root where it was. */
    method Find(nodeId: string) returns (root: string)
      requires Valid() && nodeId in parents
      modifies this
      ensures Valid() && SameRoots(old(parents), parents)
      ensures root == Root(old(parents), nodeId)
      ensures parents[nodeId] == root && root in parents && parents[root] == root
    {
      var parent := parents[nodeId];
      RootSteps(parents, nodeId);
      while parent != parents[parent]
        invariant Valid() && SameRoots(old(parents), parents)
        invariant parent in parents && AtMost(parent, nodeId)
        invariant parents[parent] in parents
        invariant Root(parents, parent) == Root(old(parents), nodeId)
        decreases |Below(parents.Keys, parent)|
      {
        ghost var before, grandparent := parents, parents[parents[parent]];
        HalvingStep(parents, nodeId, parent);
        parents := parents[parent := parents[parents[parent]]];
        assert parents == before[parent := grandparent];
        parent := parents[parent];
        SameRootsTransitive(old(parents), before, parents);
        RootSteps(parents, parent);
      }
      RootSteps(parents, parent);
      ghost var before := parents;
      RehangKeepsRoots(parents, parents[nodeId := parent], nodeId, parent);
      parents := parents[nodeId := parent];
      SameRootsTransitive(old(parents), before, parents);
      return parent;
    }

    /** After `union` exactly the two trees are merged, and their root is the smaller of the two. */
    method Union(leftId: string, rightId: string)
      requires Valid() && leftId in parents && rightId in parents
      modifies this
      ensures Valid() && MergedRoots(old(parents), parents, leftId, rightId)
    {
      var leftRoot := Find(leftId);
      ghost var middle := parents;
      var rightRoot := Find(rightId);
      SameRootsTransitive(old(parents), middle, parents);
      assert Root(middle, rightId) == Root(old(parents), rightId);
      if leftRoot == rightRoot {
        return;
      }
      RootIsLeast(middle, leftId);
      RootSteps(middle, leftRoot);
      RootSteps(parents, leftRoot);
      RootSteps(parents, rightRoot);
      LessTotal(leftRoot, rightRoot);
      var first, second := leftRoot, rightRoot;
      if Less(rightRoot, leftRoot) {
        LessAsymmetric(rightRoot, leftRoot);
        first, second := rightRoot, leftRoot;
      }
      RootIsLeast(parents, leftRoot);
      MergedRootSymmetric(first, second);
      LinkMerges(parents, parents[second := first], first, second);
      parents := parents[second := first];
    }
  }
}
