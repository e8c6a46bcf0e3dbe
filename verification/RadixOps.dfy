/** The cache's tree operations as functions on snapshots, and what each one keeps. */
module RadixOps {
  import opened PrefixMap
  import opened TreeNodes
  import opened RadixTree
  import opened RadixBooks

  /** Reading the prefix map off a tree: it holds exactly what the edges cover. */
  lemma EntriesAre(t: Tree, e: Entries)
    requires Wf(t)
    requires forall n: TreeNode, p | Covers(t, n, p) :: p in e && e[p] == SlotAt(t, n, p)
    requires forall p | p in e :: exists n :: Covers(t, n, p)
    ensures Contents(t) == e
  {
    forall p | p in e ensures p in Contents(t) {
      var n :| Covers(t, n, p);
      CoveredIsCached(t, n, p);
    }
    forall p | p in Contents(t) ensures p in e && e[p] == Contents(t)[p] {
      assert Covers(t, Owner(t, p), p);
    }
  }

  /** What an edge of `u` holds when `u` is `t` with `all` inserted. */
  ghost predicate EdgeInserted(t: Tree, u: Tree, all: Path, slots: seq<Slot>, n: TreeNode, p: Path)
    requires Wf(t) && Wf(u) && |all| == |slots| && Covers(u, n, p)
  {
    if p in Contents(t) then SlotAt(u, n, p) == Contents(t)[p]
    else p != [] && p <= all && SlotAt(u, n, p) == slots[|p| - 1]
  }

  lemma EntriesInserted(t: Tree, u: Tree, all: Path, slots: seq<Slot>)
    requires Wf(t) && Wf(u) && |all| == |slots|
    requires forall n, p | Covers(u, n, p) :: EdgeInserted(t, u, all, slots, n, p)
    requires forall p | p in Contents(t) :: exists n :: Covers(u, n, p)
    requires forall p | p != [] && p <= all && p !in Contents(t) :: exists n :: Covers(u, n, p)
    ensures Contents(u) == InsertAll(Contents(t), all, slots)
  {
    var e := InsertAll(Contents(t), all, slots);
    forall n: TreeNode, p | Covers(u, n, p) ensures p in e && e[p] == SlotAt(u, n, p) {
      assert EdgeInserted(t, u, all, slots, n, p);
    }
    EntriesAre(u, e);
  }

  // ---------------------------------------------------------------- split

  ghost predicate CanSplit(t: Tree, c: TreeNode, k: int, m: TreeNode) {
    Wf(t) && c in t.nd && c != t.root && 0 < k < |t.nd[c].key| && m !in t.nd
  }

  /** `m` takes the first `k` tokens of the edge into `c`. */
  ghost function SplitTree(t: Tree, c: TreeNode, k: int, m: TreeNode): Tree
    requires CanSplit(t, c, k, m)
  {
    assert NodeOk(t, c);
    var ci := t.nd[c];
    var up := t.nd[ci.parent];
    var upper := Info(ci.parent, ci.key[..k], ci.value[..k], map[ci.key[k] := c], ci.lock,
                      ci.path[..Start(ci) + k]);
    var lower := ci.(parent := m, key := ci.key[k..], value := ci.value[k..]);
    Tree(t.root, t.nd[c := lower][m := upper][ci.parent := up.(children := up.children[ci.key[0] := m])])
  }

  /** The paths of the two halves add up to the path of the edge they came from. */
  lemma SplitPaths(t: Tree, c: TreeNode, k: int)
    requires Wf(t) && c in t.nd && c != t.root && 0 < k < |t.nd[c].key|
    ensures t.nd[c].parent in t.nd && t.nd[c].parent != c
    ensures Start(t.nd[c]) == |t.nd[t.nd[c].parent].path|
    ensures var i := t.nd[c]; var upper := i.path[..Start(i) + k];
            upper == t.nd[i.parent].path + i.key[..k] && i.path == upper + i.key[k..]
  {
    assert NodeOk(t, c);
  }

  /** What a split makes: one new node, above the one it was split off; every old node spells the path it did. */
  lemma SplitGrows(t: Tree, c: TreeNode, k: int, m: TreeNode)
    requires CanSplit(t, c, k, m)
    ensures var u := SplitTree(t, c, k, m);
            && u.nd.Keys == t.nd.Keys + {m} && m !in t.nd && c in t.nd && u.root == t.root && t.root in t.nd
            && (forall n | n in t.nd :: u.nd[n].path == t.nd[n].path)
            && u.nd[m].parent == t.nd[c].parent && u.nd[m].parent in t.nd && |t.nd[c].value| == |t.nd[c].key|
            && u.nd[m].key == t.nd[c].key[..k] && u.nd[m].value == t.nd[c].value[..k]
            && u.nd[m].children.Keys == {t.nd[c].key[k]} && u.nd[m].path == t.nd[t.nd[c].parent].path + t.nd[c].key[..k]
            && (forall n | n in t.nd && n != t.root && u.nd[n].parent == m :: n == c)
  {
    assert NodeOk(t, c);
    SplitPaths(t, c, k);
    forall n | n in t.nd && n != t.root ensures t.nd[n].parent != m {
      assert NodeOk(t, n);
    }
  }

  lemma SplitNodeOk(t: Tree, c: TreeNode, k: int, m: TreeNode, n: TreeNode)
    requires CanSplit(t, c, k, m) && n in SplitTree(t, c, k, m).nd
    ensures NodeOk(SplitTree(t, c, k, m), n)
  {
    SplitPaths(t, c, k);
    assert NodeOk(t, c);
    if n != m && n != c {
      assert NodeOk(t, n);
    }
  }

  lemma SplitChildOk(t: Tree, c: TreeNode, k: int, m: TreeNode, n: TreeNode, x: Token)
    requires CanSplit(t, c, k, m) && n in SplitTree(t, c, k, m).nd && x in SplitTree(t, c, k, m).nd[n].children
    ensures ChildOk(SplitTree(t, c, k, m), n, x)
  {
    SplitPaths(t, c, k);
    assert NodeOk(t, c);
    if n != m && !(n == t.nd[c].parent && x == t.nd[c].key[0]) {
      assert ChildOk(t, n, x);
    }
  }

  lemma SplitWf(t: Tree, c: TreeNode, k: int, m: TreeNode)
    requires CanSplit(t, c, k, m)
    ensures Wf(SplitTree(t, c, k, m))
  {
    var u := SplitTree(t, c, k, m);
    SplitPaths(t, c, k);
    assert NodeOk(t, c);
    assert m != t.root;
    forall n | n in u.nd ensures NodeOk(u, n) {
      SplitNodeOk(t, c, k, m, n);
    }
    forall n: TreeNode, x | n in u.nd && x in u.nd[n].children ensures ChildOk(u, n, x) {
      SplitChildOk(t, c, k, m, n, x);
    }
  }

  lemma SplitEntries(t: Tree, c: TreeNode, k: int, m: TreeNode)
    requires CanSplit(t, c, k, m)
    ensures Wf(SplitTree(t, c, k, m)) && Contents(SplitTree(t, c, k, m)) == Contents(t)
  {
    SplitWf(t, c, k, m);
    var u := SplitTree(t, c, k, m);
    var e := Contents(t);
    assert NodeOk(t, c);
    forall n: TreeNode, p | Covers(u, n, p) ensures p in e && e[p] == SlotAt(u, n, p) {
      CoveredIsCached(t, if n == m then c else n, p);
    }
    forall p | p in e ensures exists n :: Covers(u, n, p) {
      var n := Owner(t, p);
      assert Covers(u, if n == c && |p| <= Start(t.nd[c]) + k then m else n, p);
    }
    EntriesAre(u, e);
  }

  lemma SplitLocks(t: Tree, c: TreeNode, k: int, m: TreeNode, held: seq<Path>)
    requires CanSplit(t, c, k, m) && LocksOk(t, held)
    ensures LocksOk(SplitTree(t, c, k, m), held)
  {
    var u := SplitTree(t, c, k, m);
    assert NodeOk(t, c);
    var p, q := u.nd[m].path, t.nd[c].path;
    assert p <= q && Covers(t, c, p);
    forall h | h in held ensures HasNode(u, h) && (p <= h <==> q <= h) {
      var g :| g in t.nd && t.nd[g].path == h;
      assert g in u.nd && u.nd[g].path == h;
      if p <= h {
        BelowEdge(t, c, g, p);
      }
    }
    CountSame(held, p, q);
  }

  lemma SplitSums(t: Tree, c: TreeNode, k: int, m: TreeNode, side: set<TreeNode>)
    requires CanSplit(t, c, k, m) && side <= t.nd.Keys
    ensures KeySum(SplitTree(t, c, k, m), if c in side then side + {m} else side) == KeySum(t, side)
  {
    var u := SplitTree(t, c, k, m);
    SplitPaths(t, c, k);
    if c in side {
      KeySumRemove(t, side, c);
      KeySumRemove(u, side + {m}, m);
      assert side + {m} - {m} == side;
      KeySumRemove(u, side, c);
      KeySumSame(t, u, side - {c});
    } else {
      KeySumSame(t, u, side);
    }
  }

  lemma SplitLeaves(t: Tree, c: TreeNode, k: int, m: TreeNode)
    requires CanSplit(t, c, k, m)
    ensures Leaves(SplitTree(t, c, k, m)) == Leaves(t)
  {
    var u := SplitTree(t, c, k, m);
    SplitPaths(t, c, k);
    assert NodeOk(t, c);
    var par, x := t.nd[c].parent, t.nd[c].key[0];
    assert x in t.nd[par].children && x in u.nd[par].children && t.nd[c].key[k] in u.nd[m].children;
  }

  lemma SplitSides(t: Tree, c: TreeNode, k: int, m: TreeNode)
    requires CanSplit(t, c, k, m)
    ensures Unlocked(SplitTree(t, c, k, m)) == if c in Unlocked(t) then Unlocked(t) + {m} else Unlocked(t)
    ensures Locked(SplitTree(t, c, k, m)) == if c in Locked(t) then Locked(t) + {m} else Locked(t)
  {
    SplitPaths(t, c, k);
  }

  lemma SplitBook(t: Tree, c: TreeNode, k: int, m: TreeNode, b: Book)
    requires CanSplit(t, c, k, m) && BookOk(t, b)
    ensures BookOk(SplitTree(t, c, k, m), b)
  {
    SplitSums(t, c, k, m, Unlocked(t));
    SplitSums(t, c, k, m, Locked(t));
    SplitLeaves(t, c, k, m);
    SplitSides(t, c, k, m);
  }

  /** A split changes neither the cached prefixes nor any held lock or counter. */
  lemma SplitKeeps(t: Tree, c: TreeNode, k: int, m: TreeNode, held: seq<Path>, b: Book)
    requires CanSplit(t, c, k, m) && Inv(t, held, b)
    ensures Inv(SplitTree(t, c, k, m), held, b)
    ensures Contents(SplitTree(t, c, k, m)) == Contents(t)
  {
    SplitEntries(t, c, k, m);
    SplitLocks(t, c, k, m, held);
    SplitBook(t, c, k, m, b);
  }

  // ---------------------------------------------------------------- new leaf

  ghost predicate CanAdd(t: Tree, par: TreeNode, m: TreeNode, key: Path, value: seq<Slot>) {
    Wf(t) && par in t.nd && m !in t.nd && |value| == |key| > 0 && key[0] !in t.nd[par].children
  }

  /** `m` becomes an unlocked leaf below `par`. */
  ghost function AddTree(t: Tree, par: TreeNode, m: TreeNode, key: Path, value: seq<Slot>): Tree
    requires CanAdd(t, par, m, key, value)
  {
    var pi := t.nd[par];
    Tree(t.root, t.nd[m := Info(par, key, value, map[], 0, pi.path + key)]
                     [par := pi.(children := pi.children[key[0] := m])])
  }

  lemma AddWf(t: Tree, par: TreeNode, m: TreeNode, key: Path, value: seq<Slot>)
    requires CanAdd(t, par, m, key, value)
    ensures Wf(AddTree(t, par, m, key, value))
  {
    var u := AddTree(t, par, m, key, value);
    forall n | n in u.nd ensures NodeOk(u, n) {
      if n != m {
        assert NodeOk(t, n);
      }
    }
    forall n: TreeNode, x | n in u.nd && x in u.nd[n].children ensures ChildOk(u, n, x) {
      if n != m && !(n == par && x == key[0]) {
        assert ChildOk(t, n, x);
      }
    }
  }

  /** A node's own path, when it is not the root, is cached. */
  lemma NodePathCached(t: Tree, n: TreeNode, k: int)
    requires Wf(t) && n in t.nd && 0 < k <= |t.nd[n].path|
    ensures t.nd[n].path[..k] in Contents(t)
  {
    assert NodeOk(t, n);
    CoveredIsCached(t, n, t.nd[n].path);
    EntriesPrefixClosed(t);
    CachedPrefixes(Contents(t), t.nd[n].path, k);
  }

  /** Beyond `par`, nothing along an absent child token is cached. */
  lemma NothingBeyond(t: Tree, par: TreeNode, p: Path)
    requires Wf(t) && par in t.nd && t.nd[par].path <= p && |t.nd[par].path| < |p|
    requires p[|t.nd[par].path|] !in t.nd[par].children
    ensures p !in Contents(t)
    ensures forall n | n in t.nd :: !(p <= t.nd[n].path)
  {
    if p in Contents(t) {
      StepDown(t, par, Owner(t, p), p);
    }
    forall n | n in t.nd ensures !(p <= t.nd[n].path) {
      if p <= t.nd[n].path {
        assert t.nd[n].path[..|p|] == p;
        NodePathCached(t, n, |p|);
      }
    }
  }

  lemma AddGrows(t: Tree, par: TreeNode, m: TreeNode, key: Path, value: seq<Slot>)
    requires CanAdd(t, par, m, key, value)
    ensures var u := AddTree(t, par, m, key, value);
            && (forall n | n in t.nd :: n in u.nd && u.nd[n].path == t.nd[n].path)
            && (forall n | n in u.nd :: n in t.nd || n == m)
  {
  }

  /** `n` is as far as `wanted` is cached. */
  ghost predicate EndsAt(t: Tree, n: TreeNode, wanted: Path) {
    Wf(t) && n in t.nd && t.nd[n].path <= wanted && LongestMatch(Contents(t), wanted) == |t.nd[n].path|
  }

  lemma EndsAtLength(t: Tree, n: TreeNode, wanted: Path)
    requires EndsAt(t, n, wanted)
    ensures Wf(t) && n in t.nd && LongestMatch(Contents(t), wanted) == |t.nd[n].path|
    ensures t.nd[n].path == wanted[..LongestMatch(Contents(t), wanted)]
  {
  }

  /** A node's path is as much of a key as is cached when no child continues it. */
  lemma MatchEndsAt(t: Tree, n: TreeNode, all: Path)
    requires Wf(t) && n in t.nd && t.nd[n].path <= all
    requires |t.nd[n].path| < |all| ==> all[|t.nd[n].path|] !in t.nd[n].children
    ensures EndsAt(t, n, all)
  {
    var k := |t.nd[n].path|;
    EntriesPrefixClosed(t);
    if k > 0 {
      NodePathCached(t, n, k);
      assert all[..k] == t.nd[n].path[..k];
    }
    if k < |all| {
      NothingBeyond(t, n, all[..k + 1]);
    }
    LongestMatchIs(Contents(t), all, k);
  }

  /** The new leaf's prefixes were missing, and get the slots the whole key gives them. */
  lemma AddMissing(t: Tree, par: TreeNode, m: TreeNode, key: Path, value: seq<Slot>, all: Path, slots: seq<Slot>,
                   p: Path)
    requires CanAdd(t, par, m, key, value)
    requires all == t.nd[par].path + key && |slots| == |all| && slots[|t.nd[par].path|..] == value
    requires Wf(AddTree(t, par, m, key, value)) && Covers(AddTree(t, par, m, key, value), m, p)
    ensures p <= all && p != [] && p !in Contents(t)
    ensures SlotAt(AddTree(t, par, m, key, value), m, p) == slots[|p| - 1]
  {
    var k := |t.nd[par].path|;
    assert all[k] == key[0];
    NothingBeyond(t, par, p);
    assert value[|p| - 1 - k] == slots[|p| - 1];
  }

  lemma AddOld(t: Tree, par: TreeNode, m: TreeNode, key: Path, value: seq<Slot>, n: TreeNode, p: Path)
    requires CanAdd(t, par, m, key, value) && n != m
    requires Wf(AddTree(t, par, m, key, value)) && Covers(AddTree(t, par, m, key, value), n, p)
    ensures p in Contents(t) && Contents(t)[p] == SlotAt(AddTree(t, par, m, key, value), n, p)
  {
    CoveredIsCached(t, n, p);
  }

  /** A prefix of the whole key that was missing lies on the new leaf's edge. */
  lemma AddCovered(t: Tree, par: TreeNode, m: TreeNode, key: Path, value: seq<Slot>, p: Path)
    requires CanAdd(t, par, m, key, value) && p != [] && p <= t.nd[par].path + key && p !in Contents(t)
    ensures Covers(AddTree(t, par, m, key, value), m, p)
  {
    if |p| <= |t.nd[par].path| {
      assert p == t.nd[par].path[..|p|];
      NodePathCached(t, par, |p|);
    }
  }

  /** Adding the rest of a key below its longest matching node inserts the whole key. */
  lemma AddEntries(t: Tree, par: TreeNode, m: TreeNode, key: Path, value: seq<Slot>, all: Path, slots: seq<Slot>)
    requires CanAdd(t, par, m, key, value)
    requires all == t.nd[par].path + key && |slots| == |all| && slots[|t.nd[par].path|..] == value
    ensures Wf(AddTree(t, par, m, key, value))
    ensures Contents(AddTree(t, par, m, key, value)) == InsertAll(Contents(t), all, slots)
  {
    AddWf(t, par, m, key, value);
    var u := AddTree(t, par, m, key, value);
    forall n: TreeNode, p | Covers(u, n, p) ensures EdgeInserted(t, u, all, slots, n, p) {
      if n == m {
        AddMissing(t, par, m, key, value, all, slots, p);
      } else {
        AddOld(t, par, m, key, value, n, p);
      }
    }
    forall p | p in Contents(t) ensures exists n :: Covers(u, n, p) {
      assert Covers(u, Owner(t, p), p);
    }
    forall p | p != [] && p <= all && p !in Contents(t) ensures exists n :: Covers(u, n, p) {
      AddCovered(t, par, m, key, value, p);
    }
    EntriesInserted(t, u, all, slots);
  }

  lemma AddLocks(t: Tree, par: TreeNode, m: TreeNode, key: Path, value: seq<Slot>, held: seq<Path>)
    requires CanAdd(t, par, m, key, value) && LocksOk(t, held)
    ensures LocksOk(AddTree(t, par, m, key, value), held)
  {
    var u := AddTree(t, par, m, key, value);
    var p := u.nd[m].path;
    NothingBeyond(t, par, p);
    forall h | h in held ensures HasNode(u, h) && !(p <= h) {
      var g :| g in t.nd && t.nd[g].path == h;
      assert g in u.nd && u.nd[g].path == h;
    }
    if CountBelow(held, p) > 0 {
      CountZero(held, p);
    }
  }

  lemma AddBook(t: Tree, par: TreeNode, m: TreeNode, key: Path, value: seq<Slot>, b: Book)
    requires CanAdd(t, par, m, key, value) && BookOk(t, b)
    ensures BookOk(AddTree(t, par, m, key, value), Book(b.evictable + |key|, b.protected, b.leaves - {par} + {m}))
  {
    var u := AddTree(t, par, m, key, value);
    assert Unlocked(u) == Unlocked(t) + {m};
    assert Locked(u) == Locked(t);
    KeySumRemove(u, Unlocked(u), m);
    assert Unlocked(u) - {m} == Unlocked(t);
    KeySumSame(t, u, Unlocked(t));
    KeySumSame(t, u, Locked(t));
    assert key[0] in u.nd[par].children;
    assert Leaves(u) == Leaves(t) - {par} + {m};
  }

  // ---------------------------------------------------------------- walking down

  /** Following an edge appends its slots to the ones matched so far. */
  lemma EdgeSlots(t: Tree, c: TreeNode, wanted: Path)
    requires Wf(t) && c in t.nd && c != t.root && t.nd[c].path <= wanted
    ensures t.nd[c].parent in t.nd && |t.nd[c].path| == |t.nd[t.nd[c].parent].path| + |t.nd[c].key|
    ensures SlotsOf(Contents(t), wanted, |t.nd[c].path|)
         == SlotsOf(Contents(t), wanted, |t.nd[t.nd[c].parent].path|) + t.nd[c].value
  {
    assert NodeOk(t, c);
    var k, all := |t.nd[t.nd[c].parent].path|, SlotsOf(Contents(t), wanted, |t.nd[c].path|);
    forall i | k <= i < |all| ensures all[i] == t.nd[c].value[i - k] {
      CoveredIsCached(t, c, wanted[..i + 1]);
    }
    assert all[..k] == SlotsOf(Contents(t), wanted, k) && all[k..] == t.nd[c].value;
  }

  lemma EdgeOf(t: Tree, c: TreeNode)
    requires Wf(t) && c in t.nd && c != t.root
    ensures t.nd[c].parent in t.nd && t.nd[c].parent != c && |t.nd[c].key| == |t.nd[c].value| > 0
    ensures t.nd[c].path == t.nd[t.nd[c].parent].path + t.nd[c].key
    ensures t.nd[c].key[0] in t.nd[t.nd[c].parent].children
  {
    assert NodeOk(t, c);
  }

  /** The child under a token is a proper edge starting with that token. */
  lemma ChildEdge(t: Tree, n: TreeNode, x: Token) returns (c: TreeNode)
    requires Wf(t) && n in t.nd && x in t.nd[n].children
    ensures c == t.nd[n].children[x] && c in t.nd && c != t.root && c != n && t.nd[c].parent == n
    ensures |t.nd[c].key| == |t.nd[c].value| > 0 && t.nd[c].key[0] == x
    ensures t.nd[c].path == t.nd[n].path + t.nd[c].key
  {
    c := t.nd[n].children[x];
    assert ChildOk(t, n, x) && NodeOk(t, c);
  }

  /** A node that agrees with the key up to a diverging child token ends the match. */
  lemma PartEndsAt(t: Tree, n: TreeNode, wanted: Path, key: Path, c: TreeNode)
    requires Wf(t) && n in t.nd && c in t.nd && c != t.root && t.nd[c].parent == n
    requires wanted == t.nd[n].path + key && t.nd[c].path == t.nd[n].path + t.nd[c].key && t.nd[c].key <= key
    requires |t.nd[c].key| < |key| ==> key[|t.nd[c].key|] !in t.nd[c].children
    ensures EndsAt(t, c, wanted)
    ensures SlotsOf(Contents(t), wanted, |t.nd[c].path|) == SlotsOf(Contents(t), wanted, |t.nd[n].path|) + t.nd[c].value
  {
    EdgeSlots(t, c, wanted);
    MatchEndsAt(t, c, wanted);
  }

  /** A whole edge matched: the walk moves to the child with the rest of the key. */
  lemma FollowWhole(t: Tree, n: TreeNode, wanted: Path, key: Path, c: TreeNode)
    requires Wf(t) && n in t.nd && wanted == t.nd[n].path + key && c in t.nd && c != t.root && t.nd[c].parent == n
    requires t.nd[c].path == t.nd[n].path + t.nd[c].key && t.nd[c].key <= key
    ensures wanted == t.nd[c].path + key[|t.nd[c].key|..]
    ensures SlotsOf(Contents(t), wanted, |t.nd[c].path|) == SlotsOf(Contents(t), wanted, |t.nd[n].path|) + t.nd[c].value
  {
    EdgeSlots(t, c, wanted);
  }

  /** Inserting a key that a node already spells changes nothing. */
  lemma InsertCached(t: Tree, n: TreeNode, slots: seq<Slot>)
    requires Wf(t) && n in t.nd && |slots| == |t.nd[n].path|
    ensures InsertAll(Contents(t), t.nd[n].path, slots) == Contents(t)
  {
    forall p | p in Prefixes(t.nd[n].path) ensures p in Contents(t) {
      assert p == t.nd[n].path[..|p|];
      NodePathCached(t, n, |p|);
    }
  }

  // ---------------------------------------------------------------- delete

  ghost predicate CanDelete(t: Tree, x: TreeNode) {
    Wf(t) && x in t.nd && x != t.root && t.nd[x].children == map[]
  }

  ghost function DeleteTree(t: Tree, x: TreeNode): Tree
    requires CanDelete(t, x)
  {
    assert NodeOk(t, x);
    var xi := t.nd[x];
    var pi := t.nd[xi.parent];
    Tree(t.root, t.nd[xi.parent := pi.(children := pi.children - {xi.key[0]})] - {x})
  }

  /** The prefixes whose last token lies on the edge into `x`. */
  ghost function EdgePrefixes(t: Tree, x: TreeNode): set<Path>
    requires Wf(t) && x in t.nd
  {
    set i | Start(t.nd[x]) < i <= |t.nd[x].path| && i >= 0 :: t.nd[x].path[..i]
  }

  lemma DeleteWf(t: Tree, x: TreeNode)
    requires CanDelete(t, x)
    ensures Wf(DeleteTree(t, x))
  {
    var u := DeleteTree(t, x);
    assert NodeOk(t, x);
    var par := t.nd[x].parent;
    assert par != x;
    forall n | n in u.nd ensures NodeOk(u, n) {
      assert NodeOk(t, n);
    }
    forall n: TreeNode, k | n in u.nd && k in u.nd[n].children ensures ChildOk(u, n, k) {
      assert ChildOk(t, n, k);
    }
  }

  lemma DeleteEntries(t: Tree, x: TreeNode)
    requires CanDelete(t, x)
    ensures Wf(DeleteTree(t, x))
    ensures Contents(DeleteTree(t, x)) == Contents(t) - EdgePrefixes(t, x)
  {
    DeleteWf(t, x);
    assert NodeOk(t, x);
    var u := DeleteTree(t, x);
    var e := Contents(t) - EdgePrefixes(t, x);
    forall n: TreeNode, p | Covers(u, n, p) ensures p in e && e[p] == SlotAt(u, n, p) {
      CoveredIsCached(t, n, p);
      if p in EdgePrefixes(t, x) {
        UniqueCover(t, n, x, p);
      }
    }
    forall p | p in e ensures exists n :: Covers(u, n, p) {
      var n := Owner(t, p);
      assert p == t.nd[n].path[..|p|];
      assert Covers(u, n, p);
    }
    EntriesAre(u, e);
  }

  lemma DeleteLocks(t: Tree, x: TreeNode, held: seq<Path>)
    requires CanDelete(t, x) && LocksOk(t, held) && t.nd[x].lock == 0
    ensures LocksOk(DeleteTree(t, x), held)
  {
    var u := DeleteTree(t, x);
    assert NodeOk(t, x);
    CountNone(held, t.nd[x].path);
    forall h | h in held ensures HasNode(u, h) {
      var g :| g in t.nd && t.nd[g].path == h;
      assert g in u.nd && u.nd[g].path == h;
    }
  }

  /** What `_update_leaf_status` on the parent must conclude after a deletion. */
  ghost function LeavesAfterDelete(t: Tree, x: TreeNode): set<TreeNode>
    requires CanDelete(t, x)
  {
    assert NodeOk(t, x);
    var par := t.nd[x].parent;
    Leaves(t) - {x} + (if t.nd[par].lock == 0 && DeleteTree(t, x).nd[par].children == map[] then {par} else {})
  }

  lemma DeleteBook(t: Tree, x: TreeNode, b: Book)
    requires CanDelete(t, x) && t.nd[x].lock == 0 && BookOk(t, b)
    ensures BookOk(DeleteTree(t, x), Book(b.evictable - |t.nd[x].key|, b.protected, LeavesAfterDelete(t, x)))
  {
    var u := DeleteTree(t, x);
    assert NodeOk(t, x);
    assert Unlocked(u) == Unlocked(t) - {x};
    assert Locked(u) == Locked(t);
    KeySumRemove(t, Unlocked(t), x);
    KeySumSame(t, u, Unlocked(u));
    KeySumSame(t, u, Locked(t));
    assert t.nd[x].key[0] in t.nd[t.nd[x].parent].children;
    assert Leaves(u) == LeavesAfterDelete(t, x);
  }

  // ---------------------------------------------------------------- locks

  /** One node's lock count changes by `d`. */
  ghost function Bump(t: Tree, n: TreeNode, d: int): Tree
    requires n in t.nd
  {
    Tree(t.root, t.nd[n := t.nd[n].(lock := t.nd[n].lock + d)])
  }

  /** The counters after one node's lock count changes by `d`. */
  ghost function BumpBook(t: Tree, n: TreeNode, d: int, b: Book): Book
    requires n in t.nd
  {
    var i := t.nd[n];
    var gain := (if i.lock + d == 0 then |i.key| else 0) - (if i.lock == 0 then |i.key| else 0);
    Book(b.evictable + gain, b.protected - gain,
         if i.lock + d == 0 && i.children == map[] then b.leaves + {n} else b.leaves - {n})
  }

  lemma BumpKeeps(t: Tree, n: TreeNode, d: int, b: Book)
    requires Wf(t) && BookOk(t, b) && n in t.nd && n != t.root
    ensures Wf(Bump(t, n, d)) && BookOk(Bump(t, n, d), BumpBook(t, n, d, b))
    ensures Contents(Bump(t, n, d)) == Contents(t)
  {
    SameShape(t, Bump(t, n, d));
    BumpSums(t, n, d);
    BumpLeaves(t, n, d);
  }

  lemma BumpLeaves(t: Tree, n: TreeNode, d: int)
    requires n in t.nd && n != t.root
    ensures var i := t.nd[n];
            Leaves(Bump(t, n, d)) == if i.lock + d == 0 && i.children == map[] then Leaves(t) + {n} else Leaves(t) - {n}
  {
  }

  lemma BumpSums(t: Tree, n: TreeNode, d: int)
    requires n in t.nd && n != t.root
    ensures var i := t.nd[n];
            var gain := (if i.lock + d == 0 then |i.key| else 0) - (if i.lock == 0 then |i.key| else 0);
            && KeySum(Bump(t, n, d), Unlocked(Bump(t, n, d))) == KeySum(t, Unlocked(t)) + gain
            && KeySum(Bump(t, n, d), Locked(Bump(t, n, d))) == KeySum(t, Locked(t)) - gain
  {
    var u := Bump(t, n, d);
    var rest, restLocked := Unlocked(t) - {n}, Locked(t) - {n};
    assert Unlocked(u) - {n} == rest && Locked(u) - {n} == restLocked;
    KeySumSame(t, u, rest);
    KeySumSame(t, u, restLocked);
    BumpSide(t, n);
    BumpSide(u, n);
  }

  /** A node's key length is in exactly one of the two sums. */
  lemma BumpSide(t: Tree, n: TreeNode)
    requires n in t.nd && n != t.root
    ensures KeySum(t, Unlocked(t)) == KeySum(t, Unlocked(t) - {n}) + if t.nd[n].lock == 0 then |t.nd[n].key| else 0
    ensures KeySum(t, Locked(t)) == KeySum(t, Locked(t) - {n}) + if t.nd[n].lock == 0 then 0 else |t.nd[n].key|
  {
    if t.nd[n].lock == 0 {
      KeySumRemove(t, Unlocked(t), n);
      assert Locked(t) - {n} == Locked(t);
    } else {
      KeySumRemove(t, Locked(t), n);
      assert Unlocked(t) - {n} == Unlocked(t);
    }
  }

  ghost predicate SameButLocks(t: Tree, u: Tree) {
    && u.root == t.root && u.nd.Keys == t.nd.Keys && (t.root in t.nd ==> u.nd[u.root].lock == t.nd[t.root].lock)
    && forall n | n in t.nd :: u.nd[n] == t.nd[n].(lock := u.nd[n].lock)
  }

  lemma SameShapeWf(t: Tree, u: Tree)
    requires Wf(t) && SameButLocks(t, u)
    ensures Wf(u)
  {
    hide Start;
    forall n | n in u.nd ensures NodeOk(u, n) {
      assert NodeOk(t, n);
    }
    forall n: TreeNode, k | n in u.nd && k in u.nd[n].children ensures ChildOk(u, n, k) {
      assert ChildOk(t, n, k);
    }
  }

  lemma SameShapeCovers(t: Tree, u: Tree, n: TreeNode, p: Path)
    requires Wf(t) && Wf(u) && SameButLocks(t, u) && Covers(u, n, p)
    ensures p in Contents(t) && Contents(t)[p] == SlotAt(u, n, p)
  {
    CoveredIsCached(t, n, p);
  }

  /** Trees that differ in lock counts only are equally well formed and stand for the same map. */
  lemma SameShape(t: Tree, u: Tree)
    requires Wf(t) && SameButLocks(t, u)
    ensures Wf(u) && Contents(u) == Contents(t)
  {
    SameShapeWf(t, u);
    var e := Contents(t);
    forall n: TreeNode, p | Covers(u, n, p) ensures p in e && e[p] == SlotAt(u, n, p) {
      SameShapeCovers(t, u, n, p);
    }
    forall p | p in e ensures exists n :: Covers(u, n, p) {
      assert Covers(u, Owner(t, p), p);
    }
    EntriesAre(u, e);
  }

  /** The nodes along `p` that are deeper than `k` tokens have their lock count changed by `d`. */
  ghost predicate LockedDeeper(t: Tree, u: Tree, p: Path, k: int, d: int) {
    && u.root == t.root && u.nd.Keys == t.nd.Keys
    && forall n | n in t.nd ::
         u.nd[n] == t.nd[n].(lock := t.nd[n].lock + if n != t.root && t.nd[n].path <= p && |t.nd[n].path| > k then d else 0)
  }

  /** Every node on the way from the root to `p` has its lock count changed by `d`. */
  ghost predicate LockedAlong(t: Tree, u: Tree, p: Path, d: int) {
    LockedDeeper(t, u, p, 0, d)
  }

  lemma LockedKeeps(t: Tree, u: Tree, p: Path, k: int, d: int)
    requires LockedDeeper(t, u, p, k, d)
    ensures u.nd.Keys == t.nd.Keys
    ensures forall n | n in t.nd :: u.nd[n].path == t.nd[n].path && u.nd[n].parent == t.nd[n].parent
    ensures forall n | n in t.nd && |t.nd[n].path| <= k :: u.nd[n].lock == t.nd[n].lock
  {
  }

  lemma LockStart(t: Tree, p: Path, d: int)
    ensures LockedDeeper(t, t, p, |p|, d)
  {
  }

  /** One turn of the walk towards the root. */
  lemma LockStep(t: Tree, u: Tree, p: Path, cur: TreeNode, d: int)
    requires Wf(t) && cur in t.nd && cur != t.root && t.nd[cur].path <= p
    requires LockedDeeper(t, u, p, |t.nd[cur].path|, d)
    ensures var up := t.nd[cur].parent;
            up in t.nd && t.nd[up].path <= p && |t.nd[up].path| < |t.nd[cur].path|
            && LockedDeeper(t, Bump(u, cur, d), p, |t.nd[up].path|, d)
  {
    EdgeOf(t, cur);
    var up := t.nd[cur].parent;
    forall n | n in t.nd && n != t.root && t.nd[n].path <= p && |t.nd[up].path| < |t.nd[n].path| <= |t.nd[cur].path|
      ensures n == cur
    {
      EdgeOf(t, n);
      UniqueCover(t, n, cur, t.nd[n].path);
    }
  }

  lemma LockCounts(t: Tree, u: Tree, p: Path, held: seq<Path>)
    requires Wf(t) && LocksOk(t, held) && LockedAlong(t, u, p, 1) && HasNode(t, p)
    ensures LocksOk(u, held + [p])
  {
    forall n | n in u.nd && n != u.root
      ensures u.nd[n].lock == CountBelow(held + [p], u.nd[n].path)
    {
      EdgeOf(t, n);
      CountAppend(held, [p], t.nd[n].path);
      assert CountBelow([p], t.nd[n].path) == (if t.nd[n].path <= p then 1 else 0) + CountBelow([], t.nd[n].path);
    }
    SameNodes(t, u, held + [p]);
  }

  lemma SameNodes(t: Tree, u: Tree, held: seq<Path>)
    requires u.nd.Keys == t.nd.Keys && forall n | n in t.nd :: u.nd[n].path == t.nd[n].path
    requires forall h | h in held :: HasNode(t, h)
    ensures forall h | h in held :: HasNode(u, h)
  {
    forall h | h in held ensures HasNode(u, h) {
      var g :| g in t.nd && t.nd[g].path == h;
      assert g in u.nd && u.nd[g].path == h;
    }
  }

  /** Releasing the lock taken `j`-th. */
  lemma UnlockCounts(t: Tree, u: Tree, held: seq<Path>, j: nat)
    requires Wf(t) && j < |held| && LocksOk(t, held) && LockedAlong(t, u, held[j], -1)
    ensures LocksOk(u, held[..j] + held[j + 1..])
  {
    var p, rest := held[j], held[..j] + held[j + 1..];
    assert held == held[..j] + ([p] + held[j + 1..]);
    forall n | n in u.nd && n != u.root
      ensures u.nd[n].lock == CountBelow(rest, u.nd[n].path)
    {
      EdgeOf(t, n);
      var q := t.nd[n].path;
      CountAppend(held[..j], [p] + held[j + 1..], q);
      assert ([p] + held[j + 1..])[1..] == held[j + 1..];
      CountAppend(held[..j], held[j + 1..], q);
    }
    assert forall h | h in rest :: h in held;
    SameNodes(t, u, rest);
  }

  // ---------------------------------------------------------------- eviction

  /** As long as some node is unlocked, some leaf is evictable. */
  lemma SomeLeaf(t: Tree, held: seq<Path>, n: TreeNode)
    requires Wf(t) && LocksOk(t, held) && n in Unlocked(t)
    ensures Leaves(t) != {}
    decreases |Longer(t, |t.nd[n].path|)|
  {
    if t.nd[n].children == map[] {
      assert n in Leaves(t);
    } else {
      var k := SomeKey(t.nd[n].children);
      assert ChildOk(t, n, k);
      var c := t.nd[n].children[k];
      assert NodeOk(t, c);
      LockedAncestor(t, held, c);
      var a, b := Longer(t, |t.nd[n].path|), Longer(t, |t.nd[c].path|);
      assert c in a && c !in b && b <= a;
      SetGrows(b, a, c);
      SomeLeaf(t, held, c);
    }
  }

  lemma SomeKey<V>(m: map<Token, V>) returns (k: Token)
    requires m != map[]
    ensures k in m
  {
    assert (forall j :: j !in m) ==> m == map[];
    k :| k in m;
  }

  ghost function Longer(t: Tree, k: int): set<TreeNode> {
    set n | n in t.nd && |t.nd[n].path| > k
  }

  lemma SetGrows<T>(a: set<T>, b: set<T>, x: T)
    requires a <= b && x in b && x !in a
    ensures |a| < |b|
  {
    assert a <= b - {x};
    SetSize(a, b - {x});
  }

  lemma {:induction false} SetSize<T>(a: set<T>, b: set<T>)
    requires a <= b
    ensures |a| <= |b|
  {
    if a != {} {
      var x :| x in a;
      SetSize(a - {x}, b - {x});
    }
  }
}
