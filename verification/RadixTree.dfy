/**
  The radix tree as a value: a snapshot of every node's structural fields, with
  the pure operations the cache performs on it and what each of them keeps.
 */
module RadixTree {
  import opened PrefixMap
  import opened TreeNodes

  /** A node's fields, and the token path it spells. The root is its own parent. */
  datatype Info = Info(parent: TreeNode, key: Path, value: seq<Slot>,
                       children: map<Token, TreeNode>, lock: int, path: Path)

  datatype Tree = Tree(root: TreeNode, nd: map<TreeNode, Info>)

  ghost function Start(i: Info): int { |i.path| - |i.key| }

  ghost predicate NodeOk(t: Tree, n: TreeNode)
    requires n in t.nd
  {
    var i := t.nd[n];
    n != t.root ==>
      && |i.key| > 0 && |i.value| == |i.key|
      && i.parent in t.nd
      && i.path == t.nd[i.parent].path + i.key
      && i.key[0] in t.nd[i.parent].children
      && t.nd[i.parent].children[i.key[0]] == n
  }

  ghost predicate ChildOk(t: Tree, n: TreeNode, k: Token)
    requires n in t.nd && k in t.nd[n].children
  {
    var c := t.nd[n].children[k];
    c in t.nd && c != t.root && t.nd[c].parent == n && |t.nd[c].key| > 0 && t.nd[c].key[0] == k
  }

  ghost predicate Wf(t: Tree) {
    && t.root in t.nd
    && t.nd[t.root].path == [] && t.nd[t.root].key == [] && t.nd[t.root].value == []
    && t.nd[t.root].lock == 1
    && (forall n {:trigger NodeOk(t, n)} | n in t.nd :: NodeOk(t, n))
    && (forall n, k {:trigger ChildOk(t, n, k)} | n in t.nd && k in t.nd[n].children :: ChildOk(t, n, k))
  }

  /** The edge into `n` contains the last token of `p`. */
  ghost predicate Covers(t: Tree, n: TreeNode, p: Path) {
    n in t.nd && n != t.root && Start(t.nd[n]) < |p| && p <= t.nd[n].path
  }

  ghost function SlotAt(t: Tree, n: TreeNode, p: Path): Slot
    requires Wf(t) && Covers(t, n, p)
  {
    assert NodeOk(t, n);
    t.nd[n].value[|p| - 1 - Start(t.nd[n])]
  }

  /** No prefix lies on two edges. */
  lemma {:induction false} UniqueCover(t: Tree, a: TreeNode, b: TreeNode, p: Path)
    requires Wf(t) && Covers(t, a, p) && Covers(t, b, p)
    ensures a == b
    decreases |p|
  {
    assert NodeOk(t, a) && NodeOk(t, b);
    var pa, pb := t.nd[a].parent, t.nd[b].parent;
    var ka, kb := |t.nd[pa].path|, |t.nd[pb].path|;
    assert NodeOk(t, pa) && NodeOk(t, pb);
    if ka < kb {
      UniqueCover(t, a, pb, p[..kb]);
    } else if kb < ka {
      UniqueCover(t, b, pa, p[..ka]);
    } else {
      if pa != t.root && pb != t.root {
        UniqueCover(t, pa, pb, p[..ka]);
      }
      assert t.nd[a].key[0] == p[ka] == t.nd[b].key[0];
    }
  }

  /** Two nodes spelling the same path are the same node. */
  lemma UniquePath(t: Tree, a: TreeNode, b: TreeNode)
    requires Wf(t) && a in t.nd && b in t.nd && t.nd[a].path == t.nd[b].path
    ensures a == b
  {
    assert NodeOk(t, a) && NodeOk(t, b);
    if a != t.root && b != t.root {
      UniqueCover(t, a, b, t.nd[a].path);
    }
  }

  /** A cached prefix longer than the path of `m` goes through a child of `m`. */
  lemma {:induction false} StepDown(t: Tree, m: TreeNode, n: TreeNode, p: Path)
    requires Wf(t) && m in t.nd && Covers(t, n, p)
    requires t.nd[m].path <= p && |t.nd[m].path| < |p|
    ensures p[|t.nd[m].path|] in t.nd[m].children
    decreases |p|
  {
    assert NodeOk(t, n) && NodeOk(t, m);
    var k, s := |t.nd[m].path|, Start(t.nd[n]);
    var up := t.nd[n].parent;
    assert NodeOk(t, up);
    if s == k {
      UniquePath(t, up, m);
    } else if s > k {
      StepDown(t, m, up, p[..s]);
    } else {
      UniqueCover(t, n, m, p[..k]);
    }
  }

  /** A node below a point of an edge is below the whole edge. */
  lemma {:induction false} BelowEdge(t: Tree, c: TreeNode, g: TreeNode, p: Path)
    requires Wf(t) && Covers(t, c, p) && g in t.nd && p <= t.nd[g].path
    ensures t.nd[c].path <= t.nd[g].path
    decreases |t.nd[g].path|
  {
    assert NodeOk(t, g) && NodeOk(t, c);
    if Start(t.nd[g]) < |p| {
      UniqueCover(t, c, g, p);
    } else {
      BelowEdge(t, c, t.nd[g].parent, p);
    }
  }

  // ---------------------------------------------------------------- abstraction

  ghost function Cached(t: Tree): set<Path> {
    set n, i | n in t.nd && n != t.root && Start(t.nd[n]) < i <= |t.nd[n].path| && i >= 0 :: t.nd[n].path[..i]
  }

  ghost function Owner(t: Tree, p: Path): (n: TreeNode)
    requires p in Cached(t)
    ensures Covers(t, n, p)
  {
    var n, i :| n in t.nd && n != t.root && Start(t.nd[n]) < i <= |t.nd[n].path| && i >= 0 && p == t.nd[n].path[..i];
    n
  }

  /** The prefix-to-slot map a tree stands for. */
  ghost function Contents(t: Tree): Entries
    requires Wf(t)
  {
    map p | p in Cached(t) :: SlotAt(t, Owner(t, p), p)
  }

  lemma CoveredIsCached(t: Tree, n: TreeNode, p: Path)
    requires Wf(t) && Covers(t, n, p)
    ensures p in Contents(t) && Contents(t)[p] == SlotAt(t, n, p)
  {
    assert p == t.nd[n].path[..|p|];
    UniqueCover(t, n, Owner(t, p), p);
  }

  lemma EntriesPrefixClosed(t: Tree)
    requires Wf(t)
    ensures PrefixClosed(Contents(t))
  {
    var e := Contents(t);
    forall p | p in e ensures p != [] && (|p| > 1 ==> p[..|p| - 1] in e) {
      var n := Owner(t, p);
      assert NodeOk(t, n);
      var up := t.nd[n].parent;
      assert NodeOk(t, up);
      if |p| > 1 {
        CoveredIsCached(t, if Start(t.nd[n]) < |p| - 1 then n else up, p[..|p| - 1]);
      }
    }
  }
}
