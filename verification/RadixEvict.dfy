/** Eviction as a run of leaf deletions, and what every such run does to the prefix map. */
module RadixEvict {
  import opened PrefixMap
  import opened Sequences
  import opened TreeNodes
  import opened RadixTree
  import opened RadixBooks
  import opened RadixOps
  import opened EvictPolicies

  /** `after` is `before` without the entries `removed`, whose slots are `freed`, in order. */
  ghost predicate Removed(before: Entries, after: Entries, removed: seq<Path>, freed: seq<Slot>) {
    && |removed| == |freed| && Distinct(removed)
    && (forall i | 0 <= i < |removed| :: removed[i] in before && before[removed[i]] == freed[i])
    && after == before - (set p | p in removed)
  }

  lemma RemovedTwice(a: Entries, b: Entries, c: Entries, r: seq<Path>, s: seq<Path>, f: seq<Slot>, g: seq<Slot>)
    requires Removed(a, b, r, f) && Removed(b, c, s, g)
    ensures Removed(a, c, r + s, f + g)
  {
    assert forall p | p in s :: p in b && p !in r;
  }

  /** The prefixes on the edge into `x`, shortest first. */
  ghost function EdgeList(t: Tree, x: TreeNode): (r: seq<Path>)
    requires Wf(t) && x in t.nd && x != t.root
    ensures |r| == |t.nd[x].key|
    ensures forall i | 0 <= i < |r| :: |r[i]| == Start(t.nd[x]) + i + 1 && r[i] <= t.nd[x].path
  {
    EdgeOf(t, x);
    seq(|t.nd[x].key|, i requires 0 <= i < |t.nd[x].key| => t.nd[x].path[..Start(t.nd[x]) + i + 1])
  }

  lemma DeleteRemoves(t: Tree, x: TreeNode)
    requires CanDelete(t, x)
    ensures Wf(DeleteTree(t, x))
    ensures Removed(Contents(t), Contents(DeleteTree(t, x)), EdgeList(t, x), t.nd[x].value)
  {
    DeleteEntries(t, x);
    EdgeOf(t, x);
    var r := EdgeList(t, x);
    forall i | 0 <= i < |r| ensures r[i] in Contents(t) && Contents(t)[r[i]] == t.nd[x].value[i] {
      CoveredIsCached(t, x, r[i]);
    }
    forall i, j | 0 <= i < j < |r| ensures r[i] != r[j] {
      assert |r[i]| != |r[j]|;
    }
    forall p ensures p in r <==> p in EdgePrefixes(t, x) {
      if p in EdgePrefixes(t, x) {
        assert p == r[|p| - 1 - Start(t.nd[x])];
      }
    }
  }

  type Keys = map<TreeNode, HeapKey>

  /** `x` may be evicted next: it is a leaf and no leaf comes before it in heap order. */
  ghost predicate IsVictim(t: Tree, keys: Keys, x: TreeNode) {
    && x in Leaves(t) && x in keys
    && forall y | y in Leaves(t) && y in keys :: !KeyLess(keys[y], keys[x])
  }

  /** A run of evictions: `trees[i]` is the tree before `victims[i]` is deleted. */
  ghost predicate EvictRun(trees: seq<Tree>, victims: seq<TreeNode>, keys: Keys) {
    && |trees| == |victims| + 1
    && forall i | 0 <= i < |victims| ::
         && CanDelete(trees[i], victims[i]) && IsVictim(trees[i], keys, victims[i])
         && trees[i + 1] == DeleteTree(trees[i], victims[i])
  }

  /** The record of an eviction in progress. */
  datatype History = History(keys: Keys, victims: seq<TreeNode>, trees: seq<Tree>, removed: seq<Path>, freed: seq<Slot>)

  /** Only nodes were lost, and those left spell the paths they did. */
  ghost predicate Shrunk(t: Tree, u: Tree) {
    forall n | n in u.nd :: n in t.nd && u.nd[n].path == t.nd[n].path
  }

  /** `h` records how eviction got from `t` to `u`. */
  ghost predicate Evicted(h: History, t: Tree, u: Tree) {
    && Wf(t) && Wf(u) && Shrunk(t, u)
    && EvictRun(h.trees, h.victims, h.keys) && h.trees[0] == t && h.trees[|h.victims|] == u
    && Removed(Contents(t), Contents(u), h.removed, h.freed)
  }

  /** Number of tokens of the last node evicted. */
  ghost function LastSize(h: History): nat {
    var i := |h.victims| - 1;
    if 0 <= i < |h.trees| && h.victims[i] in h.trees[i].nd then |h.trees[i].nd[h.victims[i]].key| else 0
  }

  ghost function EvictNext(h: History, t: Tree, x: TreeNode): History
    requires CanDelete(t, x)
  {
    h.(victims := h.victims + [x], trees := h.trees + [DeleteTree(t, x)],
       removed := h.removed + EdgeList(t, x), freed := h.freed + t.nd[x].value)
  }

  lemma EvictedStart(t: Tree, keys: Keys)
    requires Wf(t)
    ensures Evicted(History(keys, [], [t], [], []), t, t)
  {
  }

  lemma EvictedNext(h: History, t: Tree, u: Tree, x: TreeNode)
    requires Evicted(h, t, u) && CanDelete(u, x) && IsVictim(u, h.keys, x)
    ensures Evicted(EvictNext(h, u, x), t, DeleteTree(u, x))
    ensures LastSize(EvictNext(h, u, x)) == |u.nd[x].key| == |u.nd[x].value|
    ensures |EvictNext(h, u, x).freed| == |h.freed| + |u.nd[x].key|
  {
    EdgeOf(u, x);
    DeleteRemoves(u, x);
    RemovedTwice(Contents(t), Contents(u), Contents(DeleteTree(u, x)), h.removed, EdgeList(u, x), h.freed, u.nd[x].value);
    ExtendRun(h.trees, h.victims, h.keys, x);
  }

  lemma FreedNext(h: History, t: Tree, x: TreeNode, base: seq<Slot>)
    requires CanDelete(t, x)
    ensures EvictNext(h, t, x).keys == h.keys && EvictNext(h, t, x).victims != []
    ensures base + h.freed + t.nd[x].value == base + EvictNext(h, t, x).freed
  {
  }

  lemma DeleteSmaller(t: Tree, x: TreeNode)
    requires CanDelete(t, x)
    ensures |DeleteTree(t, x).nd| < |t.nd|
  {
    EdgeOf(t, x);
    assert DeleteTree(t, x).nd.Keys == t.nd.Keys - {x};
    assert |t.nd| == |t.nd.Keys| && |DeleteTree(t, x).nd| == |DeleteTree(t, x).nd.Keys|;
  }

  lemma ExtendRun(trees: seq<Tree>, victims: seq<TreeNode>, keys: Keys, x: TreeNode)
    requires EvictRun(trees, victims, keys)
    requires CanDelete(trees[|victims|], x) && IsVictim(trees[|victims|], keys, x)
    ensures EvictRun(trees + [DeleteTree(trees[|victims|], x)], victims + [x], keys)
  {
  }

  // ---------------------------------------------------------------- the heap

  /** An element of the eviction heap. The list order `heapq` keeps is not modelled. */
  datatype HeapEntry = HeapEntry(key: HeapKey, node: TreeNode)

  /** The heap that ranks exactly the evictable leaves. */
  ghost function HeapOf(t: Tree, keys: Keys): set<HeapEntry> {
    set n | n in Leaves(t) && n in keys :: HeapEntry(keys[n], n)
  }

  ghost predicate Comparable(heap: set<HeapEntry>) {
    forall a, b | a in heap && b in heap :: SameKind(a.key, b.key)
  }

  /** Some minimum of a non-empty heap. */
  method PeekMin(heap: set<HeapEntry>) returns (m: HeapEntry)
    requires heap != {} && Comparable(heap)
    ensures m in heap && forall y | y in heap :: !KeyLess(y.key, m.key)
  {
    m :| m in heap;
    var rest := heap - {m};
    while rest != {}
      invariant rest <= heap && m in heap
      invariant forall y | y in heap && y !in rest :: !KeyLess(y.key, m.key)
      decreases |rest|
    {
      var y :| y in rest;
      assert SameKind(y.key, m.key);
      forall z | z in heap && z !in rest ensures !KeyLess(z.key, (if KeyLess(y.key, m.key) then y else m).key) {
        assert SameKind(z.key, m.key);
        KeyOrder(y.key, m.key, z.key);
      }
      if KeyLess(y.key, m.key) {
        m := y;
      }
      rest := rest - {y};
    }
  }

  /** What the heap pops is a victim. */
  lemma MinIsVictim(t: Tree, keys: Keys, m: HeapEntry)
    requires Wf(t) && t.nd.Keys <= keys.Keys && m in HeapOf(t, keys)
    requires forall y | y in HeapOf(t, keys) :: !KeyLess(y.key, m.key)
    ensures CanDelete(t, m.node) && t.nd[m.node].lock == 0 && IsVictim(t, keys, m.node) && m.key == keys[m.node]
  {
    forall y | y in Leaves(t) ensures !KeyLess(keys[y], m.key) {
      assert HeapEntry(keys[y], y) in HeapOf(t, keys);
    }
  }

  lemma HeapEmpty(t: Tree, keys: Keys)
    requires t.nd.Keys <= keys.Keys && HeapOf(t, keys) == {}
    ensures Leaves(t) == {}
  {
    assert forall n | n in Leaves(t) :: HeapEntry(keys[n], n) in HeapOf(t, keys);
  }

  /** The ranks of one strategy are comparable. */
  ghost predicate OneKind(keys: Keys) {
    forall a, b | a in keys && b in keys :: SameKind(keys[a], keys[b])
  }

  lemma HeapComparable(t: Tree, keys: Keys)
    requires OneKind(keys) && t.nd.Keys <= keys.Keys
    ensures Comparable(HeapOf(t, keys))
  {
  }

  /** After a deletion the heap loses the victim and gains its parent if that became a leaf. */
  lemma HeapAfterDelete(t: Tree, x: TreeNode, keys: Keys)
    requires CanDelete(t, x) && t.nd[x].lock == 0 && t.nd.Keys <= keys.Keys
    ensures var u := DeleteTree(t, x); var par := t.nd[x].parent;
            && u.nd.Keys <= t.nd.Keys && par in u.nd && par in keys
            && HeapOf(u, keys) == HeapOf(t, keys) - {HeapEntry(keys[x], x)}
                 + (if u.nd[par].lock == 0 && u.nd[par].children == map[] then {HeapEntry(keys[par], par)} else {})
  {
    EdgeOf(t, x);
    var u, par := DeleteTree(t, x), t.nd[x].parent;
    forall n ensures n in Leaves(u) <==> n in LeavesAfterDelete(t, x) {
    }
  }

  /** Nothing is left to evict exactly when the evictable size is zero. */
  lemma NoLeafNoSize(t: Tree, held: seq<Path>, b: Book)
    requires Inv(t, held, b) && Leaves(t) == {}
    ensures b.evictable == 0
  {
    forall n | n in Unlocked(t) ensures false {
      SomeLeaf(t, held, n);
    }
    assert Unlocked(t) == {};
  }

  lemma {:induction false} KeySumNonNegative(t: Tree, s: set<TreeNode>)
    requires s <= t.nd.Keys
    ensures KeySum(t, s) >= 0
    decreases |s|
  {
    if s != {} {
      var n :| n in s;
      KeySumRemove(t, s, n);
      KeySumNonNegative(t, s - {n});
    }
  }

  /** Whatever is held stays cached: no run of evictions reaches a prefix of a held path. */
  lemma HeldIsCached(t: Tree, held: seq<Path>, h: Path, k: int)
    requires Wf(t) && LocksOk(t, held) && h in held && 0 < k <= |h|
    ensures h[..k] in Contents(t)
  {
    var n :| n in t.nd && t.nd[n].path == h;
    NodePathCached(t, n, k);
  }

  /** An unlocked node adds at least one token to the evictable size. */
  lemma UnlockedCounts(t: Tree, n: TreeNode)
    requires Wf(t) && n in Unlocked(t)
    ensures KeySum(t, Unlocked(t)) > 0
  {
    assert NodeOk(t, n);
    KeySumRemove(t, Unlocked(t), n);
    KeySumNonNegative(t, Unlocked(t) - {n});
  }

  lemma EvictableNonNegative(t: Tree, held: seq<Path>, b: Book)
    requires Inv(t, held, b)
    ensures b.evictable >= 0
  {
    KeySumNonNegative(t, Unlocked(t));
  }

  /** `p` begins a path whose lock is held. */
  ghost predicate OnHeld(held: seq<Path>, p: Path) {
    exists h :: h in held && p <= h
  }

  /** After a complete eviction exactly the prefixes of held paths are cached. */
  lemma FullyEvicted(t: Tree, held: seq<Path>, b: Book, p: Path)
    requires Inv(t, held, b) && b.evictable == 0
    ensures p in Contents(t) <==> p != [] && OnHeld(held, p)
  {
    if p in Contents(t) {
      var n := Owner(t, p);
      assert NodeOk(t, n);
      if t.nd[n].lock == 0 {
        UnlockedCounts(t, n);
      } else if !OnHeld(held, p) {
        CountZero(held, t.nd[n].path);
      }
    }
    if OnHeld(held, p) && p != [] {
      var h :| h in held && p <= h;
      assert p == h[..|p|];
      HeldIsCached(t, held, h, |p|);
    }
  }
}
