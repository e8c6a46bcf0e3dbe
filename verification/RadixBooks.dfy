/**
  What the cache keeps beside the tree: lock counts, the two size counters and
  the set of evictable leaves, each as a function of the tree or of the held locks.
 */
module RadixBooks {
  import opened PrefixMap
  import opened TreeNodes
  import opened RadixTree

  // ---------------------------------------------------------------- locks

  /** How many held locks were taken at or below the node spelling `p`. */
  ghost function CountBelow(held: seq<Path>, p: Path): nat {
    if held == [] then 0
    else (if p <= held[0] then 1 else 0) + CountBelow(held[1..], p)
  }

  ghost predicate HasNode(t: Tree, p: Path) {
    exists n :: n in t.nd && t.nd[n].path == p
  }

  /** Lock counts count held locks, and every held lock still has its node. */
  ghost predicate LocksOk(t: Tree, held: seq<Path>) {
    && (forall n | n in t.nd && n != t.root :: t.nd[n].lock == CountBelow(held, t.nd[n].path))
    && (forall p | p in held :: HasNode(t, p))
  }

  lemma {:induction false} CountMonotone(held: seq<Path>, p: Path, q: Path)
    requires p <= q
    ensures CountBelow(held, q) <= CountBelow(held, p)
  {
    if held != [] {
      CountMonotone(held[1..], p, q);
    }
  }

  lemma {:induction false} CountPositive(held: seq<Path>, p: Path, q: Path)
    requires q in held && p <= q
    ensures CountBelow(held, p) > 0
  {
    if held[0] != q {
      CountPositive(held[1..], p, q);
    }
  }

  /** Two paths that the same held locks are below have the same count. */
  lemma {:induction false} CountSame(held: seq<Path>, p: Path, q: Path)
    requires forall h | h in held :: p <= h <==> q <= h
    ensures CountBelow(held, p) == CountBelow(held, q)
  {
    if held != [] {
      assert held[0] in held && forall h | h in held[1..] :: h in held;
      CountSame(held[1..], p, q);
    }
  }

  lemma {:induction false} CountAppend(a: seq<Path>, b: seq<Path>, p: Path)
    ensures CountBelow(a + b, p) == CountBelow(a, p) + CountBelow(b, p)
  {
    if a == [] {
      assert a + b == b;
    } else {
      assert (a + b)[1..] == a[1..] + b;
      CountAppend(a[1..], b, p);
    }
  }

  lemma {:induction false} CountZero(held: seq<Path>, p: Path)
    requires forall h | h in held :: !(p <= h)
    ensures CountBelow(held, p) == 0
  {
    if held != [] {
      assert held[0] in held && forall h | h in held[1..] :: h in held;
      CountZero(held[1..], p);
    }
  }

  lemma {:induction false} CountNone(held: seq<Path>, p: Path)
    requires CountBelow(held, p) == 0
    ensures forall h | h in held :: !(p <= h)
  {
    if held != [] {
      CountNone(held[1..], p);
      assert forall h | h in held :: h == held[0] || h in held[1..];
    }
  }

  lemma LocksNonNegative(t: Tree, held: seq<Path>, n: TreeNode)
    requires LocksOk(t, held) && n in t.nd && n != t.root
    ensures t.nd[n].lock >= 0
  {
  }

  lemma LockPositive(t: Tree, held: seq<Path>, n: TreeNode, h: Path)
    requires LocksOk(t, held) && n in t.nd && n != t.root && h in held && t.nd[n].path <= h
    ensures t.nd[n].lock > 0
  {
    CountPositive(held, t.nd[n].path, h);
  }

  // ---------------------------------------------------------------- sizes and leaves

  /** Sum of the key lengths of a set of nodes. */
  ghost function KeySum(t: Tree, s: set<TreeNode>): int
    requires s <= t.nd.Keys
  {
    if s == {} then 0
    else var n :| n in s; |t.nd[n].key| + KeySum(t, s - {n})
  }

  lemma {:induction false} KeySumRemove(t: Tree, s: set<TreeNode>, n: TreeNode)
    requires s <= t.nd.Keys && n in s
    ensures KeySum(t, s) == |t.nd[n].key| + KeySum(t, s - {n})
    decreases |s|
  {
    var m :| m in s && KeySum(t, s) == |t.nd[m].key| + KeySum(t, s - {m});
    if m != n {
      KeySumRemove(t, s - {m}, n);
      KeySumRemove(t, s - {n}, m);
      assert s - {m} - {n} == s - {n} - {m};
    }
  }

  lemma {:induction false} KeySumSame(t: Tree, u: Tree, s: set<TreeNode>)
    requires s <= t.nd.Keys && s <= u.nd.Keys
    requires forall n | n in s :: |t.nd[n].key| == |u.nd[n].key|
    ensures KeySum(t, s) == KeySum(u, s)
    decreases |s|
  {
    if s != {} {
      var n :| n in s;
      KeySumRemove(t, s, n);
      KeySumRemove(u, s, n);
      KeySumSame(t, u, s - {n});
    }
  }

  lemma {:induction false} KeySumSplit(t: Tree, a: set<TreeNode>, b: set<TreeNode>)
    requires a <= t.nd.Keys && b <= t.nd.Keys && a !! b
    ensures KeySum(t, a + b) == KeySum(t, a) + KeySum(t, b)
    decreases |a|
  {
    if a == {} {
      assert a + b == b;
    } else {
      var n :| n in a;
      KeySumRemove(t, a + b, n);
      KeySumRemove(t, a, n);
      assert a + b - {n} == (a - {n}) + b;
      KeySumSplit(t, a - {n}, b);
    }
  }

  ghost function Unlocked(t: Tree): (s: set<TreeNode>)
    ensures s <= t.nd.Keys
  {
    set n | n in t.nd && n != t.root && t.nd[n].lock == 0
  }

  ghost function Locked(t: Tree): (s: set<TreeNode>)
    ensures s <= t.nd.Keys
  {
    set n | n in t.nd && n != t.root && t.nd[n].lock != 0
  }

  /** The nodes that eviction may remove now. */
  ghost function Leaves(t: Tree): set<TreeNode> {
    set n | n in t.nd && n != t.root && t.nd[n].lock == 0 && t.nd[n].children == map[]
  }

  datatype Book = Book(evictable: int, protected: int, leaves: set<TreeNode>)

  /** The incrementally kept figures equal their recomputation from the tree. */
  ghost predicate BookOk(t: Tree, b: Book) {
    && b.evictable == KeySum(t, Unlocked(t))
    && b.protected == KeySum(t, Locked(t))
    && b.leaves == Leaves(t)
  }

  ghost predicate Inv(t: Tree, held: seq<Path>, b: Book) {
    Wf(t) && LocksOk(t, held) && BookOk(t, b)
  }

  /** A locked node is above some held lock, so its ancestors are locked too. */
  lemma LockedAncestor(t: Tree, held: seq<Path>, n: TreeNode)
    requires Wf(t) && LocksOk(t, held) && n in t.nd && n != t.root && t.nd[n].parent != t.root
    ensures t.nd[n].parent in t.nd && t.nd[n].lock <= t.nd[t.nd[n].parent].lock
  {
    assert NodeOk(t, n);
    CountMonotone(held, t.nd[t.nd[n].parent].path, t.nd[n].path);
  }
}
