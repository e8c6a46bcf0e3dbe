/** Visiting the whole tree from the root with a stack reaches every node once. */
module RadixWalk {
  import opened Sequences
  import opened TreeNodes
  import opened RadixTree
  import opened RadixBooks
  import opened RadixOps

  ghost function Elements<T>(s: seq<T>): (r: set<T>)
    ensures s == [] ==> r == {}
  {
    set x | x in s
  }

  lemma PopLast<T>(s: seq<T>)
    requires |s| > 0 && Distinct(s)
    ensures Distinct(s[..|s| - 1]) && s[|s| - 1] in Elements(s)
    ensures Elements(s[..|s| - 1]) == Elements(s) - {s[|s| - 1]}
  {
  }

  lemma PushOne<T>(s: seq<T>, x: T)
    requires Distinct(s) && x !in Elements(s)
    ensures Distinct(s + [x]) && Elements(s + [x]) == Elements(s) + {x}
  {
  }

  ghost function ChildSet(t: Tree, n: TreeNode): set<TreeNode>
    requires n in t.nd
  {
    set k | k in t.nd[n].children :: t.nd[n].children[k]
  }

  /** `done` has been visited and `todo` is its frontier. */
  ghost predicate Explored(t: Tree, done: set<TreeNode>, todo: set<TreeNode>) {
    && done + todo <= t.nd.Keys && done !! todo && t.root in done + todo
    && (forall n | n in done + todo && n != t.root :: t.nd[n].parent in done)
    && (forall n | n in t.nd && n != t.root && t.nd[n].parent in done :: n in done + todo)
  }

  lemma ExploreStart(t: Tree)
    requires Wf(t)
    ensures Explored(t, {}, {t.root}) && KeySum(t, {}) == 0
  {
  }

  /** The children of a node are exactly the nodes whose parent it is. */
  lemma ChildrenAre(t: Tree, cur: TreeNode, n: TreeNode)
    requires Wf(t) && cur in t.nd
    ensures n in ChildSet(t, cur) <==> n in t.nd && n != t.root && t.nd[n].parent == cur
    ensures n in ChildSet(t, cur) ==> n != cur
  {
    if n in ChildSet(t, cur) {
      var k :| k in t.nd[cur].children && t.nd[cur].children[k] == n;
      var d := ChildEdge(t, cur, k);
    }
    if n in t.nd && n != t.root && t.nd[n].parent == cur {
      assert NodeOk(t, n);
      var k := t.nd[n].key[0];
      assert k in t.nd[cur].children && t.nd[cur].children[k] == n;
    }
  }

  lemma ExploreSets(t: Tree, done: set<TreeNode>, todo: set<TreeNode>, cur: TreeNode, kids: set<TreeNode>)
    requires Explored(t, done, todo) && cur in todo && kids <= t.nd.Keys && cur !in kids
    requires forall c | c in t.nd :: c in kids <==> c != t.root && t.nd[c].parent == cur
    ensures kids !! done + todo && Explored(t, done + {cur}, todo - {cur} + kids)
  {
  }

  /** Visiting a node replaces it on the frontier by its children. */
  lemma ExploreStep(t: Tree, done: set<TreeNode>, todo: set<TreeNode>, cur: TreeNode)
    requires Wf(t) && Explored(t, done, todo) && cur in todo
    ensures ChildSet(t, cur) !! done + todo
    ensures Explored(t, done + {cur}, todo - {cur} + ChildSet(t, cur))
  {
    forall c | c in t.nd ensures c in ChildSet(t, cur) <==> c != t.root && t.nd[c].parent == cur {
      ChildrenAre(t, cur, c);
    }
    forall c | c in ChildSet(t, cur) ensures c in t.nd && c != cur {
      ChildrenAre(t, cur, c);
    }
    ExploreSets(t, done, todo, cur, ChildSet(t, cur));
  }

  lemma ExploreFrontier(t: Tree, done: set<TreeNode>, todo: set<TreeNode>, cur: TreeNode)
    requires Explored(t, done, todo) && cur in todo
    ensures cur in t.nd && cur !in done && done + {cur} <= t.nd.Keys
  {
  }

  /** The sum grows by what the visited node holds, and there is one node less to visit. */
  lemma ExploreSum(t: Tree, done: set<TreeNode>, cur: TreeNode)
    requires Wf(t) && done <= t.nd.Keys && cur in t.nd && cur !in done
    ensures |t.nd[cur].value| + KeySum(t, done) == KeySum(t, done + {cur})
    ensures |t.nd.Keys - (done + {cur})| < |t.nd.Keys - done|
  {
    KeySumRemove(t, done + {cur}, cur);
    assert done + {cur} - {cur} == done && NodeOk(t, cur);
    SetGrows(t.nd.Keys - (done + {cur}), t.nd.Keys - done, cur);
  }

  lemma {:induction false} ReachedByPath(t: Tree, done: set<TreeNode>, n: TreeNode)
    requires Wf(t) && Explored(t, done, {}) && n in t.nd
    ensures n in done
    decreases |t.nd[n].path|
  {
    if n != t.root {
      EdgeOf(t, n);
      ReachedByPath(t, done, t.nd[n].parent);
    }
  }

  /** Once the stack is empty the key lengths visited add up to both size counters. */
  lemma ExploredAll(t: Tree, done: set<TreeNode>, b: Book)
    requires Wf(t) && BookOk(t, b) && Explored(t, done, {})
    ensures KeySum(t, done) == b.evictable + b.protected
  {
    forall n | n in t.nd ensures n in done {
      ReachedByPath(t, done, n);
    }
    assert done == {t.root} + (Unlocked(t) + Locked(t));
    KeySumSplit(t, Unlocked(t), Locked(t));
    KeySumRemove(t, done, t.root);
    assert done - {t.root} == Unlocked(t) + Locked(t);
  }
}
