/** The heap-allocated radix cache and its public operations. */
module RadixCaches {
  import opened PrefixMap
  import opened Sequences
  import opened Results
  import opened Clocks
  import opened TokenPool
  import opened EvictPolicies
  import opened TreeNodes
  import opened RadixTree
  import opened RadixBooks
  import opened RadixOps
  import opened RadixEvict
  import opened RadixStamps
  import opened RadixWalk

  /** Length of the common prefix of two token sequences. */
  method KeyMatch(key0: Path, key1: Path) returns (i: nat)
    ensures i <= |key0| && i <= |key1| && key0[..i] == key1[..i]
    ensures i < |key0| && i < |key1| ==> key0[i] != key1[i]
  {
    i := 0;
    while i < |key0| && i < |key1|
      invariant i <= |key0| && i <= |key1| && key0[..i] == key1[..i]
    {
      if key0[i] != key1[i] {
        break;
      }
      i := i + 1;
    }
  }

  const SYS_MAXSIZE: int := 0x7FFF_FFFF_FFFF_FFFF

  /** A list of lists, joined. */
  ghost function Flat(parts: seq<seq<Slot>>): (r: seq<Slot>)
    ensures parts == [] ==> r == []
  {
    if parts == [] then [] else Flat(parts[..|parts| - 1]) + parts[|parts| - 1]
  }

  lemma FlatAppend(parts: seq<seq<Slot>>, part: seq<Slot>)
    ensures Flat(parts + [part]) == Flat(parts) + part
  {
    assert (parts + [part])[..|parts|] == parts;
  }

  method Flatten(parts: seq<seq<Slot>>) returns (r: seq<Slot>)
    ensures r == Flat(parts)
  {
    r := [];
    for i := 0 to |parts|
      invariant r == Flat(parts[..i])
    {
      FlatAppend(parts[..i], parts[i]);
      assert parts[..i + 1] == parts[..i] + [parts[i]];
      r := r + parts[i];
    }
    assert parts[..|parts|] == parts;
  }

  /** The fields of `n` are the ones recorded for it; the root has no parent. */
  ghost predicate Matches(n: TreeNode, i: Info)
    reads n`key, n`value, n`children, n`lockRef, n`parent
  {
    && n.key == i.key && n.value == i.value && n.children == i.children && n.lockRef == i.lock
    && (if n.parent == null then n else n.parent) == i.parent
  }

  /** A locked root and nothing else. */
  lemma RootAlone(root: TreeNode)
    ensures var t := Tree(root, map[root := Info(root, [], [], map[], 1, [])]);
            Inv(t, [], Book(0, 0, {})) && Wf(t) && Contents(t) == map[]
  {
  }

  class RadixCache {
    var rootNode: TreeNode
    var evictableSize: int
    var protectedSize: int
    var evictableLeaves: set<TreeNode>
    var allocator: TokenPoolAllocator?
    const strategy: Strategy
    const clock: Clock

    /** Snapshot of the nodes, and the paths of the nodes whose locks are held. */
    ghost var tree: Tree
    ghost var held: seq<Path>

    ghost function Figures(): Book
      reads this
    {
      Book(evictableSize, protectedSize, evictableLeaves)
    }

    /** The nodes reachable from the root are exactly as `tree` records them. */
    ghost predicate Shape()
      reads this`rootNode, this`tree
      reads tree.nd.Keys`key, tree.nd.Keys`value, tree.nd.Keys`children, tree.nd.Keys`lockRef, tree.nd.Keys`parent
    {
      && tree.root == rootNode
      && (forall n | n in tree.nd :: Matches(n, tree.nd[n]) && (n.parent == null <==> n == rootNode))
      && Wf(tree)
    }

    ghost predicate Valid()
      reads this
      reads tree.nd.Keys`key, tree.nd.Keys`value, tree.nd.Keys`children, tree.nd.Keys`lockRef, tree.nd.Keys`parent
    {
      Shape() && Inv(tree, held, Figures())
    }

    /** What eviction ranks the nodes of the tree by. */
    ghost function Stamped(): (r: Stamps)
      reads this`tree, tree.nd.Keys`lastAccess, tree.nd.Keys`creation, tree.nd.Keys`hitCount, tree.nd.Keys`priority
      ensures r.Keys == tree.nd.Keys
    {
      map n | n in tree.nd :: StampOf(n)
    }

    /** The tree has only gained nodes, and every old node spells the path it did. */
    ghost predicate Grown(before: Tree)
      reads this`tree
    {
      forall n | n in before.nd :: n in tree.nd && tree.nd[n].path == before.nd[n].path
    }

    constructor (strategy: Strategy, clock: Clock)
      modifies clock
      ensures Valid() && fresh(tree.nd.Keys) && this.clock == clock && this.strategy == strategy && allocator == null
      ensures Contents(tree) == map[] && held == [] && Timely(Stamped(), clock.now)
    {
      var now := clock.Monotonic();
      var later := clock.Monotonic();
      var root := new TreeNode(-SYS_MAXSIZE, now, later);
      root.lockRef := 1;
      rootNode := root;
      evictableSize := 0;
      protectedSize := 0;
      evictableLeaves := {};
      this.strategy := strategy;
      this.clock := clock;
      allocator := null;
      tree := Tree(root, map[root := Info(root, [], [], map[], 1, [])]);
      held := [];
      new;
      RootAlone(rootNode);
      hide Inv, Contents, Wf;
    }

    /** The checked form of construction: the policy is named in upper or lower case. */
    static method Create(policy: string, clock: Clock) returns (r: Result<RadixCache>)
      modifies clock
      ensures r.Ok? || r.ValueError?
      ensures r.ValueError? ==> forall s: Strategy :: Lower(policy) != NameOf(s)
      ensures r.Ok? ==>
                && fresh(r.value) && fresh(r.value.tree.nd.Keys) && r.value.Valid() && Contents(r.value.tree) == map[]
                && r.value.held == [] && r.value.allocator == null && Lower(policy) == NameOf(r.value.strategy)
    {
      hide Inv, Contents, Wf, Matches, Lower, NameOf;
      var strategy := Choose(policy);
      if strategy.ValueError? {
        return ValueError;
      }
      var cache := new RadixCache(strategy.value, clock);
      r := Ok(cache);
    }

    /** Stamps an access; nothing the tree records depends on it. */
    method Touch(n: TreeNode, accessTime: real)
      requires Valid() && n in tree.nd
      modifies n`lastAccess
      ensures Valid() && n.lastAccess == accessTime
      ensures Stamped() == old(Stamped())[n := old(Stamped())[n].(access := accessTime)]
    {
      n.lastAccess := accessTime;
    }

    /** A new node holding the first `splitLen` tokens of the edge into `child`. */
    method UpperHalf(child: TreeNode, splitLen: int) returns (newNode: TreeNode)
      requires 0 < splitLen < |child.key| && |child.value| == |child.key|
      modifies clock
      ensures fresh(newNode)
      ensures newNode.children == map[child.key[splitLen] := child] && newNode.parent == child.parent
      ensures newNode.key == child.key[..splitLen] && newNode.value == child.value[..splitLen]
      ensures newNode.lockRef == child.lockRef && newNode.priority == child.priority
      ensures NewStamp(StampOf(newNode), old(clock.now), clock.now)
    {
      var now := clock.Monotonic();
      var later := clock.Monotonic();
      newNode := new TreeNode(child.priority, now, later);
      newNode.children := map[child.key[splitLen] := child];
      newNode.parent := child.parent;
      newNode.lockRef := child.lockRef;
      newNode.key := child.key[..splitLen];
      newNode.value := child.value[..splitLen];
    }

    /** `child` keeps the end of its edge below the upper half. */
    method Relink(key: Path, child: TreeNode, splitLen: int, newNode: TreeNode)
      requires Shape() && CanSplit(tree, child, splitLen, newNode) && key == child.key && splitLen < |child.key| == |child.value|
      requires newNode.children == map[child.key[splitLen] := child] && newNode.parent == child.parent
      requires newNode.key == child.key[..splitLen] && newNode.value == child.value[..splitLen] && newNode.lockRef == child.lockRef
      modifies this`tree, child`parent, child`key, child`value, child.parent`children
      ensures CanSplit(old(tree), child, splitLen, newNode)
      ensures Shape() && tree == SplitTree(old(tree), child, splitLen, newNode)
    {
      ghost var t := tree;
      ghost var par := t.nd[child].parent;
      assert NodeOk(t, child);
      assert par in t.nd && par != child && child.parent == par by {
        SplitPaths(t, child, splitLen);
      }
      hide Wf;
      child.parent := newNode;
      child.key := child.key[splitLen..];
      child.value := child.value[splitLen..];

      newNode.parent.children := newNode.parent.children[key[0] := newNode];
      ghost var u := SplitTree(t, child, splitLen, newNode);
      SplitWf(t, child, splitLen, newNode);
      tree := u;
      forall n | n in u.nd ensures Matches(n, u.nd[n]) && (n.parent == null <==> n == rootNode) {
        if n != newNode && n != child && n != par {
          assert u.nd[n] == t.nd[n];
        }
      }
    }

    /** A new node with the first `splitLen` tokens above `child`. */
    method LinkUpperHalf(key: Path, child: TreeNode, splitLen: int) returns (newNode: TreeNode)
      requires Shape() && child in tree.nd && child != rootNode && 0 < splitLen < |child.key| && key == child.key
      modifies this`tree, child`parent, child`key, child`value, child.parent`children, clock
      ensures fresh(newNode) && CanSplit(old(tree), child, splitLen, newNode)
      ensures Shape() && tree == SplitTree(old(tree), child, splitLen, newNode)
      ensures newNode.priority == child.priority == old(child.priority)
      ensures NewStamp(StampOf(newNode), old(clock.now), clock.now)
    {
      assert NodeOk(tree, child);
      newNode := UpperHalf(child, splitLen);
      Relink(key, child, splitLen, newNode);
    }
  
    lemma ChildIs(n: TreeNode)
      requires Shape() && n in tree.nd
      ensures n.key == tree.nd[n].key
    {
    }

    lemma StampedEach()
      ensures forall n | n in tree.nd :: Stamped()[n] == StampOf(n)
    {
    }

    lemma StampedAre(s: Stamps)
      requires s.Keys == tree.nd.Keys && forall n | n in tree.nd :: s[n] == StampOf(n)
      ensures Stamped() == s
    {
    }

    lemma PriorityOf(n: TreeNode)
      ensures StampOf(n).priority == n.priority
    {
    }

    /** The same; no old node's stamps change. */
    method LinkStamped(key: Path, child: TreeNode, splitLen: int) returns (newNode: TreeNode)
      requires Shape() && child in tree.nd && child != rootNode && 0 < splitLen < |child.key| && key == child.key
      modifies this`tree, child`parent, child`key, child`value, child.parent`children, clock
      ensures fresh(newNode) && CanSplit(old(tree), child, splitLen, newNode)
      ensures Shape() && tree == SplitTree(old(tree), child, splitLen, newNode)
      ensures child in old(tree).nd && SplitOff(old(tree), old(Stamped()), tree, Stamped(), child, newNode, old(child.priority),
                                                old(clock.now), clock.now)
    {
      hide *;
      ghost var t, before, x, now := tree, Stamped(), child.key[splitLen], clock.now;
      ChildIs(child);
      StampedEach();
      newNode := LinkUpperHalf(key, child, splitLen);
      SplitGrows(t, child, splitLen, newNode);
      StampedAre(before[newNode := StampOf(newNode)]);
      PriorityOf(newNode);
      SplitOffIs(t, before, tree, Stamped(), child, newNode, StampOf(newNode), x, now, clock.now);
    }

    /** A split: the new node ends where the match ended, and nothing cached or locked changes. */
    method SplitNode(key: Path, child: TreeNode, splitLen: int) returns (newNode: TreeNode)
      requires Valid() && child in tree.nd && child != rootNode && 0 < splitLen < |child.key| && key == child.key
      modifies this`tree, child`parent, child`key, child`value, child.parent`children, clock
      ensures fresh(newNode) && tree.nd.Keys == old(tree).nd.Keys + {newNode} && newNode != rootNode
      ensures Valid() && Grown(old(tree)) && Contents(tree) == Contents(old(tree))
      ensures newNode.parent == old(child.parent)
      ensures newNode.key == old(child.key)[..splitLen]
      ensures splitLen <= |old(child.value)| && newNode.value == old(child.value)[..splitLen]
      ensures newNode.children.Keys == {old(child.key)[splitLen]}
      ensures var p := old(tree).nd[child].parent;
              p in old(tree).nd && tree.nd[newNode].path == old(tree).nd[p].path + old(child.key)[..splitLen]
      ensures child in old(tree).nd && SplitOff(old(tree), old(Stamped()), tree, Stamped(), child, newNode, old(child.priority),
                                                old(clock.now), clock.now)
    {
      hide SplitOff, Stamped, Inv, Contents, Wf, Shape, Matches, SplitTree, CanSplit;
      ghost var t := tree;
      RootOf();
      FieldsOf(child);
      newNode := LinkStamped(key, child, splitLen);
      SplitKeeps(t, child, splitLen, newNode, held, Figures());
      SplitGrows(t, child, splitLen, newNode);
      RootOf();
      FieldsOf(newNode);
    }

    /** A walk that leaves the edge from `n` to `child` after `prefixLen` tokens ends at the split. */
    method SplitAtMatch(child: TreeNode, prefixLen: int, ghost n: TreeNode, ghost wanted: Path, ghost key: Path)
      returns (newNode: TreeNode)
      requires Valid() && n in tree.nd && child in tree.nd && child != rootNode && child.parent == n
      requires wanted == tree.nd[n].path + key
      requires 0 < prefixLen < |child.key| && prefixLen <= |key| && child.key[..prefixLen] == key[..prefixLen]
      requires prefixLen < |key| ==> child.key[prefixLen] != key[prefixLen]
      modifies this`tree, child`parent, child`key, child`value, child.parent`children, clock
      ensures fresh(newNode) && tree.nd.Keys == old(tree).nd.Keys + {newNode} && newNode != rootNode
      ensures Valid() && Grown(old(tree)) && Contents(tree) == Contents(old(tree))
      ensures EndsAt(tree, newNode, wanted) && wanted == tree.nd[newNode].path + key[prefixLen..]
      ensures SlotsOf(Contents(tree), wanted, |tree.nd[newNode].path|)
           == SlotsOf(Contents(tree), wanted, |wanted| - |key|) + newNode.value
      ensures prefixLen < |key| ==> key[prefixLen] !in newNode.children
      ensures child in old(tree).nd && SplitOff(old(tree), old(Stamped()), tree, Stamped(), child, newNode, old(child.priority),
                                                old(clock.now), clock.now)
    {
      hide *;
      RootIn();
      NodeIs(child);
      ghost var t := tree;
      newNode := SplitNode(child.key, child, prefixLen);
      RootIn();
      NodeIs(newNode);
      GrownNodes(t);
      EdgeOf(tree, newNode);
      assert newNode.key == key[..prefixLen];
      PartEndsAt(tree, n, wanted, key, newNode);
    }

    lemma LeavesInside(up: TreeNode, c: TreeNode, wanted: Path, key: Path, n: nat)
      requires Wf(tree) && up in tree.nd && wanted == tree.nd[up].path + key && c in tree.nd && c != tree.root
      requires tree.nd[c].parent == up && tree.nd[c].path == tree.nd[up].path + tree.nd[c].key
      requires 0 < n < |tree.nd[c].key| && n <= |key| && tree.nd[c].key[..n] == key[..n]
      requires n < |key| ==> tree.nd[c].key[n] != key[n]
      ensures LeavesAt(tree, up, c, wanted)
    {
      hide Wf;
      var k, p := |tree.nd[up].path|, tree.nd[c].path;
      assert wanted[k] == key[0] == key[..n][0] == tree.nd[c].key[0] == p[k];
      assert wanted[..k + 1] == p[..k + 1];
      if n < |key| {
        assert wanted[k + n] == key[n] && p[k + n] == tree.nd[c].key[n];
      }
    }

    /** Enters the edge under a token, which stamps the child. */
    method EnterChild(up: TreeNode, x: Token, accessTime: real) returns (child: TreeNode)
      requires Valid() && up in tree.nd && x in up.children
      modifies tree.nd.Keys`lastAccess
      ensures Valid() && Wf(tree) && child in tree.nd && child != tree.root && child != rootNode && child == up.children[x]
      ensures tree.nd[child].parent == child.parent == up && tree.nd[child].path == tree.nd[up].path + tree.nd[child].key
      ensures child.key == tree.nd[child].key && child.value == tree.nd[child].value && |child.value| == |child.key| > 0
      ensures child.key[0] == x
      ensures Stamped() == old(Stamped())[child := old(Stamped())[child].(access := accessTime)]
      ensures child.priority == old(Stamped())[child].priority
    {
      hide Stamped, Inv, Contents, Matches, Wf, Shape;
      RootOf();
      FieldsOf(up);
      ghost var c := ChildEdge(tree, up, x);
      child := up.children[x];
      FieldsOf(child);
      StampedOf(child);
      Touch(child, accessTime);
    }

    /** Leaves an edge inside, at a new node. */
    method LeaveEdge(child: TreeNode, prefixLen: int, ghost up: TreeNode, ghost wanted: Path, ghost key: Path)
      returns (newNode: TreeNode)
      requires Valid() && up in tree.nd && child in tree.nd && child != rootNode && child != tree.root && child.parent == up
      requires tree.nd[child].parent == up && tree.nd[child].path == tree.nd[up].path + child.key && child.key == tree.nd[child].key
      requires wanted == tree.nd[up].path + key
      requires 0 < prefixLen < |child.key| && prefixLen <= |key| && child.key[..prefixLen] == key[..prefixLen]
      requires prefixLen < |key| ==> child.key[prefixLen] != key[prefixLen]
      modifies this`tree, child`parent, child`key, child`value, child.parent`children, clock
      ensures Valid() && Wf(tree) && Grown(old(tree)) && (forall n | n in tree.nd :: n in old(tree).nd || fresh(n))
      ensures Contents(tree) == Contents(old(tree)) && newNode in tree.nd && fresh(newNode)
      ensures EndsAt(tree, newNode, wanted) && wanted == tree.nd[newNode].path + key[prefixLen..]
      ensures SlotsOf(Contents(tree), wanted, |tree.nd[newNode].path|)
           == SlotsOf(Contents(tree), wanted, |wanted| - |key|) + newNode.value
      ensures prefixLen < |key| ==> key[prefixLen] !in newNode.children
      ensures LeavesAt(old(tree), up, child, wanted) && old(clock.now) <= clock.now
      ensures SplitOff(old(tree), old(Stamped()), tree, Stamped(), child, newNode, old(child.priority), old(clock.now), clock.now)
    {
      hide *;
      ghost var t, s, p, now := tree, Stamped(), child.priority, clock.now;
      RootIn();
      LeavesInside(up, child, wanted, key, prefixLen);
      newNode := SplitAtMatch(child, prefixLen, up, wanted, key);
      RootIn();
      SplitTime(t, s, tree, Stamped(), child, newNode, p, now, clock.now);
    }

    /** One turn of the match walk: down a whole edge, or to a split inside the edge into `c`. */
    method MatchStep(up: TreeNode, key: Path, accessTime: real, ghost wanted: Path)
      returns (node: TreeNode, prefixLen: nat, split: bool, ghost c: TreeNode)
      requires Valid() && up in tree.nd && wanted == tree.nd[up].path + key && |key| > 0 && key[0] in up.children
      modifies this`tree, tree.nd.Keys, clock
      ensures Valid() && Grown(old(tree)) && (forall n | n in tree.nd :: n in old(tree).nd || fresh(n))
      ensures Wf(tree) && Contents(tree) == Contents(old(tree)) && node in tree.nd && 0 < prefixLen <= |key|
      ensures wanted == tree.nd[node].path + key[prefixLen..]
      ensures SlotsOf(Contents(tree), wanted, |tree.nd[node].path|)
           == SlotsOf(Contents(tree), wanted, |wanted| - |key|) + node.value
      ensures !split ==>
                && tree == old(tree) && clock.now == old(clock.now) && node != tree.root && tree.nd[node].parent == up
                && Stamped() == old(Stamped())[node := old(Stamped())[node].(access := accessTime)]
      ensures split ==> EndsAt(tree, node, wanted) && LeavesAt(old(tree), up, c, wanted) && old(clock.now) <= clock.now
      ensures split ==>
                var s := old(Stamped());
                SplitOff(old(tree), s[c := s[c].(access := accessTime)], tree, Stamped(), c, node, s[c].priority, old(clock.now), clock.now)
    {
      hide *;
      ghost var t, s := tree, Stamped();
      RootIn();
      node := EnterChild(up, key[0], accessTime);
      c := node;
      prefixLen := KeyMatch(node.key, key);
      if prefixLen < |node.key| {
        node := LeaveEdge(node, prefixLen, up, wanted, key);
        split := true;
      } else {
        FollowWhole(tree, up, wanted, key, node);
        split := false;
      }
    }

    lemma RootIn()
      requires Valid()
      ensures Wf(tree) && rootNode == tree.root && rootNode in tree.nd && tree.nd[rootNode].path == [] && Grown(tree)
      ensures forall n | n in tree.nd :: Stamped()[n].priority == n.priority
    {
    }

    lemma GrownNodes(t: Tree)
      requires Grown(t)
      ensures t.nd.Keys <= tree.nd.Keys && forall n | n in t.nd :: n in tree.nd && tree.nd[n].path == t.nd[n].path
    {
    }

    lemma GrownOver(t: Tree, u: Tree)
      requires Grown(u) && forall n | n in t.nd :: n in u.nd && u.nd[n].path == t.nd[n].path
      ensures Grown(t)
    {
    }

    lemma NodeIs(n: TreeNode)
      requires Valid() && n in tree.nd
      ensures n.key == tree.nd[n].key && n.value == tree.nd[n].value && n.children == tree.nd[n].children
      ensures n != rootNode ==> n.parent == tree.nd[n].parent
    {
      hide Inv, Wf;
    }

    lemma StampedOf(n: TreeNode)
      requires n in tree.nd
      ensures Stamped()[n].priority == n.priority && Stamped()[n].access == n.lastAccess
    {
    }

    /** The walk of `match_prefix`: the matched slots, edge by edge, and the last node; it all happens at one reading of the clock. */
    method MatchPrefixHelper(start: TreeNode, wanted: Path)
      returns (value: seq<seq<Slot>>, node: TreeNode, ghost accessed: real)
      requires Valid() && start == rootNode
      modifies this`tree, tree.nd.Keys, clock
      ensures Valid() && Grown(old(tree)) && (forall n | n in tree.nd :: n in old(tree).nd || fresh(n))
      ensures Contents(tree) == Contents(old(tree)) && EndsAt(tree, node, wanted)
      ensures Flat(value) == SlotsOf(Contents(tree), wanted, |tree.nd[node].path|)
      ensures old(clock.now) <= accessed
      ensures MatchStamps(old(tree), old(Stamped()), tree, Stamped(), wanted, accessed, clock.now)
    {
      hide *;
      RootIn();
      ghost var t, before := tree, Stamped();
      var accessTime := clock.Monotonic();
      accessed := accessTime;
      node := start;
      Touch(node, accessTime);
      TouchedRoot(t, before, accessTime);
      value := [];
      var key := wanted;
      var split := false;
      while |key| > 0 && key[0] in node.children
        invariant Valid() && Wf(tree) && tree == t && !split && clock.now == accessTime
        invariant node in tree.nd && wanted == tree.nd[node].path + key
        invariant Flat(value) == SlotsOf(Contents(tree), wanted, |tree.nd[node].path|)
        invariant Stamped() == Touched(t, before, tree.nd[node].path, accessTime)
        decreases |key|
      {
        var up, prefixLen := node, 0;
        ghost var c;
        node, prefixLen, split, c := MatchStep(up, key, accessTime, wanted);
        FlatAppend(value, node.value);
        value := value + [node.value];
        if split {
          MatchedSplit(t, before, up, c, tree, Stamped(), node, wanted, accessTime, accessTime, clock.now);
          break;
        }
        TouchedWhole(t, before, up, node, accessTime);
        key := key[prefixLen..];
      }
      if !split {
        NodeIs(node);
        MatchEndsAt(tree, node, wanted);
        MatchedWhole(t, before, node, wanted, accessTime);
      }
    }

    /** The slots of the longest cached prefix, and the node spelling exactly that prefix. */
    method MatchPrefix(key: Path) returns (indices: seq<Slot>, lastNode: TreeNode, ghost accessed: real)
      requires Valid()
      modifies this`tree, tree.nd.Keys, clock
      ensures Valid() && Grown(old(tree)) && (forall n | n in tree.nd :: n in old(tree).nd || fresh(n))
      ensures Contents(tree) == Contents(old(tree))
      ensures lastNode in tree.nd && tree.nd[lastNode].path == key[..LongestMatch(Contents(tree), key)]
      ensures indices == SlotsOf(Contents(tree), key, LongestMatch(Contents(tree), key))
      ensures key == [] ==> tree == old(tree) && Stamped() == old(Stamped())
      ensures key != [] ==>
                && old(clock.now) <= accessed
                && MatchStamps(old(tree), old(Stamped()), tree, Stamped(), key, accessed, clock.now)
    {
      hide *;
      RootIn();
      accessed := clock.now;
      if |key| == 0 {
        indices, lastNode := [], rootNode;
        return;
      }
      var value;
      value, lastNode, accessed := MatchPrefixHelper(rootNode, key);
      EndsAtLength(tree, lastNode, key);
      indices := Flatten(value);
    }

    method LinkLeaf(node: TreeNode, key: Path, value: seq<Slot>, priority: int) returns (newNode: TreeNode)
      requires Shape() && node in tree.nd && |value| == |key| > 0 && key[0] !in node.children
      modifies this`tree, node`children, clock
      ensures fresh(newNode) && CanAdd(old(tree), node, newNode, key, value)
      ensures Shape() && tree == AddTree(old(tree), node, newNode, key, value)
      ensures key[0] in node.children && newNode.children == map[] && newNode.lockRef == 0
      ensures NewStamp(StampOf(newNode), old(clock.now), clock.now) && newNode.priority == priority
    {
      ghost var t := tree;
      var now := clock.Monotonic();
      var later := clock.Monotonic();
      newNode := new TreeNode(priority, now, later);
      newNode.parent := node;
      newNode.key := key;
      newNode.value := value;
      node.children := node.children[key[0] := newNode];
      ghost var u := AddTree(t, node, newNode, key, value);
      AddWf(t, node, newNode, key, value);
      tree := u;
      forall n | n in u.nd ensures Matches(n, u.nd[n]) && (n.parent == null <==> n == rootNode) {
        if n != newNode && n != node {
          assert u.nd[n] == t.nd[n];
        }
      }
    }

    /** The same; no old node's stamps change. */
    method LinkRanked(node: TreeNode, key: Path, value: seq<Slot>, priority: int) returns (newNode: TreeNode)
      requires Shape() && node in tree.nd && |value| == |key| > 0 && key[0] !in node.children
      modifies this`tree, node`children, clock
      ensures fresh(newNode) && CanAdd(old(tree), node, newNode, key, value)
      ensures Shape() && tree == AddTree(old(tree), node, newNode, key, value)
      ensures key[0] in node.children && newNode.children == map[] && newNode.lockRef == 0
      ensures newNode in Stamped() && Stamped() == old(Stamped())[newNode := Stamped()[newNode]] && old(clock.now) <= clock.now
      ensures NewStamp(Stamped()[newNode], old(clock.now), clock.now) && Stamped()[newNode].priority == priority
    {
      hide Shape, Wf, CanAdd, AddTree, NewStamp, StampOf;
      newNode := LinkLeaf(node, key, value, priority);
      AddKeys(old(tree), node, newNode, key, value);
      NewStampTime(StampOf(newNode), old(clock.now), clock.now);
      assert forall n | n in old(tree).nd :: StampOf(n) == old(StampOf(n));
      PriorityOf(newNode);
    }

    /** The unlocked leaf that ends an insert. */
    method AddLeaf(node: TreeNode, key: Path, value: seq<Slot>, priority: int) returns (newNode: TreeNode)
      requires Valid() && node in tree.nd && |value| == |key| > 0 && key[0] !in node.children
      modifies this`tree, this`evictableSize, this`evictableLeaves, node`children, clock
      ensures fresh(newNode) && CanAdd(old(tree), node, newNode, key, value)
      ensures Valid() && tree == AddTree(old(tree), node, newNode, key, value)
      ensures newNode in Stamped() && Stamped() == old(Stamped())[newNode := Stamped()[newNode]] && old(clock.now) <= clock.now
      ensures NewStamp(Stamped()[newNode], old(clock.now), clock.now) && Stamped()[newNode].priority == priority
    {
      hide Stamped, LocksOk, BookOk, Wf, AddTree, CanAdd, Matches, NewStamp;
      ghost var t, b := tree, Figures();
      newNode := LinkRanked(node, key, value, priority);
      evictableSize := evictableSize + |key|;
      UpdateLeafStatus(node);
      UpdateLeafStatus(newNode);
      AddLocks(t, node, newNode, key, value, held);
      AddBook(t, node, newNode, key, value, b);
    }

    /** A node is an evictable leaf if it is unlocked and childless. */
    method UpdateLeafStatus(node: TreeNode)
      modifies this`evictableLeaves
      ensures evictableLeaves == if node.lockRef <= 0 && node.children == map[]
                                 then old(evictableLeaves) + {node} else old(evictableLeaves) - {node}
    {
      if node.lockRef > 0 {
        evictableLeaves := evictableLeaves - {node};
        return;
      }
      if node.children != map[] {
        evictableLeaves := evictableLeaves - {node};
        return;
      }
      evictableLeaves := evictableLeaves + {node};
    }

    /** Raises a node's priority to the given one. */
    method Promote(n: TreeNode, priority: int)
      requires Valid() && n in tree.nd
      modifies n`priority
      ensures Valid() && Stamped() == old(Stamped())[n := old(Stamped())[n].(priority := Larger(old(Stamped())[n].priority, priority))]
    {
      n.priority := if n.priority < priority then priority else n.priority;
    }

    /** What `tree` records about a node are its fields. */
    lemma FieldsOf(n: TreeNode)
      requires Shape() && n in tree.nd
      ensures n.key == tree.nd[n].key && n.value == tree.nd[n].value && n.children == tree.nd[n].children
      ensures n.lockRef == tree.nd[n].lock && (n != rootNode ==> n.parent == tree.nd[n].parent)
    {
    }

    lemma LocksOf()
      requires Valid()
      ensures Wf(tree) && LocksOk(tree, held)
    {
    }

    lemma EvictableOf()
      requires Valid()
      ensures Inv(tree, held, Figures()) && Figures().evictable == evictableSize >= 0
    {
      hide Wf;
      EvictableNonNegative(tree, held, Figures());
    }

    lemma RootOf()
      requires Shape()
      ensures Wf(tree) && rootNode == tree.root && rootNode in tree.nd
      ensures tree.nd[rootNode].path == [] && tree.nd[rootNode].lock == 1
    {
    }

    /** The new leaf, when part of the key is left over at the end of the walk. */
    method InsertRest(node: TreeNode, key: Path, value: seq<Slot>, priority: int, ghost wanted: Path, ghost slots: seq<Slot>,
                      ghost before: Tree, ghost stamps: Stamps, ghost accessed: real)
      requires Valid() && EndsAt(tree, node, wanted) && wanted == tree.nd[node].path + key
      requires |slots| == |wanted| && value == slots[|tree.nd[node].path|..]
      requires |key| > 0 ==> key[0] !in node.children
      requires stamps.Keys <= tree.nd.Keys && WalkStamps(before, stamps, tree, Stamped(), wanted, priority, accessed, clock.now)
      modifies this`tree, this`evictableSize, this`evictableLeaves, node`children, clock
      ensures Valid() && Grown(old(tree)) && (forall n | n in tree.nd :: n in old(tree).nd || fresh(n))
      ensures Contents(tree) == InsertAll(Contents(old(tree)), wanted, slots)
      ensures InsertStamps(before, stamps, tree, Stamped(), wanted, priority, accessed, clock.now)
    {
      hide *;
      ghost var t, mid, sofar := tree, Stamped(), clock.now;
      EndsAtLength(t, node, wanted);
      if |key| > 0 {
        var newNode := AddLeaf(node, key, value, priority);
        AddEntries(t, node, newNode, key, value, wanted, slots);
        GrownBy(t, node, newNode, key, value);
        LeafStamps(before, stamps, t, mid, Stamped(), node, newNode, key, value, wanted, priority, accessed, sofar, clock.now);
      } else {
        RootIn();
        InsertCached(t, node, slots);
        NoLeafStamps(before, stamps, tree, Stamped(), wanted, priority, accessed, clock.now);
      }
    }

    lemma GrownBy(t: Tree, par: TreeNode, m: TreeNode, key: Path, value: seq<Slot>)
      requires CanAdd(t, par, m, key, value) && tree == AddTree(t, par, m, key, value)
      ensures Grown(t) && forall n | n in tree.nd :: n in t.nd || n == m
    {
      AddGrows(t, par, m, key, value);
    }

    /** Leaves an edge inside, at a new node that gets at least the given priority. */
    method LeaveRaised(child: TreeNode, prefixLen: int, priority: int, ghost up: TreeNode, ghost wanted: Path, ghost key: Path)
      returns (newNode: TreeNode)
      requires Valid() && up in tree.nd && child in tree.nd && child != rootNode && child != tree.root && child.parent == up
      requires tree.nd[child].parent == up && tree.nd[child].path == tree.nd[up].path + child.key && child.key == tree.nd[child].key
      requires wanted == tree.nd[up].path + key
      requires 0 < prefixLen < |child.key| && prefixLen <= |key| && child.key[..prefixLen] == key[..prefixLen]
      requires prefixLen < |key| ==> child.key[prefixLen] != key[prefixLen]
      modifies this`tree, child`parent, child`key, child`value, child.parent`children, clock
      ensures Valid() && Wf(tree) && Grown(old(tree)) && (forall n | n in tree.nd :: n in old(tree).nd || fresh(n))
      ensures Contents(tree) == Contents(old(tree)) && newNode in tree.nd && fresh(newNode)
      ensures EndsAt(tree, newNode, wanted) && wanted == tree.nd[newNode].path + key[prefixLen..]
      ensures prefixLen < |key| ==> key[prefixLen] !in newNode.children
      ensures LeavesAt(old(tree), up, child, wanted) && old(clock.now) <= clock.now
      ensures SplitOff(old(tree), old(Stamped()), tree, Stamped(), child, newNode, Larger(old(child.priority), priority),
                       old(clock.now), clock.now)
    {
      hide *;
      ghost var t, s, p, now := tree, Stamped(), child.priority, clock.now;
      newNode := LeaveEdge(child, prefixLen, up, wanted, key);
      ghost var mid := Stamped();
      Promote(newNode, priority);
      SplitRaised(t, s, tree, mid, Stamped(), child, newNode, p, priority, now, clock.now);
    }

    /** One turn of the insert walk: down a whole edge, or to a split inside the edge into `c`. */
    method InsertStep(up: TreeNode, key: Path, priority: int, accessTime: real, ghost wanted: Path)
      returns (node: TreeNode, prefixLen: nat, ghost split: bool, ghost c: TreeNode)
      requires Valid() && up in tree.nd && wanted == tree.nd[up].path + key && |key| > 0 && key[0] in up.children
      modifies this`tree, tree.nd.Keys, clock
      ensures Valid() && Grown(old(tree)) && (forall n | n in tree.nd :: n in old(tree).nd || fresh(n))
      ensures Wf(tree) && Contents(tree) == Contents(old(tree))
      ensures node in tree.nd && 0 < prefixLen <= |key| && wanted == tree.nd[node].path + key[prefixLen..]
      ensures !split ==>
                && tree == old(tree) && clock.now == old(clock.now) && node != tree.root && tree.nd[node].parent == up
                && var s := old(Stamped())[node];
                   Stamped() == old(Stamped())[node := s.(access := accessTime, priority := Larger(s.priority, priority))]
      ensures split ==> EndsAt(tree, node, wanted) && (prefixLen < |key| ==> key[prefixLen] !in node.children)
      ensures split ==> LeavesAt(old(tree), up, c, wanted) && old(clock.now) <= clock.now
      ensures split ==>
                var s := old(Stamped());
                SplitOff(old(tree), s[c := s[c].(access := accessTime)], tree, Stamped(), c, node, Larger(s[c].priority, priority),
                         old(clock.now), clock.now)
    {
      hide *;
      ghost var t, s := tree, Stamped();
      RootIn();
      node := EnterChild(up, key[0], accessTime);
      c := node;
      prefixLen := KeyMatch(node.key, key);
      if prefixLen < |node.key| {
        node := LeaveRaised(node, prefixLen, priority, up, wanted, key);
        split := true;
      } else {
        FollowWhole(tree, up, wanted, key, node);
        ghost var mid := Stamped();
        Promote(node, priority);
        TouchedRaised(s, mid, Stamped(), node, accessTime, priority);
        split := false;
      }
      RootIn();
    }

    /** The walk of `insert`: down matching edges, splitting the one the key leaves. */
    method InsertWalk(start: TreeNode, wanted: Path, priority: int, accessTime: real, ghost before: Stamps)
      returns (node: TreeNode, key: Path, totalPrefixLength: nat)
      requires Valid() && start == rootNode && clock.now == accessTime && before.Keys == tree.nd.Keys
      requires Stamped() == Walked(tree, before, [], priority, accessTime)
      modifies this`tree, tree.nd.Keys, clock
      ensures Valid() && Wf(tree) && Grown(old(tree)) && (forall n | n in tree.nd :: n in old(tree).nd || fresh(n))
      ensures Contents(tree) == Contents(old(tree)) && EndsAt(tree, node, wanted)
      ensures wanted == tree.nd[node].path + key && totalPrefixLength == |tree.nd[node].path|
      ensures |key| > 0 ==> key[0] !in node.children
      ensures WalkStamps(old(tree), before, tree, Stamped(), wanted, priority, accessTime, clock.now)
    {
      hide *;
      RootIn();
      ghost var t := tree;
      node, key, totalPrefixLength := start, wanted, 0;
      ghost var split := false;
      while |key| > 0 && key[0] in node.children
        invariant Valid() && Wf(tree) && Contents(tree) == Contents(t)
        invariant Grown(t) && (forall n | n in tree.nd :: n in t.nd || fresh(n))
        invariant node in tree.nd && wanted == tree.nd[node].path + key && totalPrefixLength == |tree.nd[node].path|
        invariant !split ==> tree == t && clock.now == accessTime
        invariant !split ==> Stamped() == Walked(t, before, tree.nd[node].path, priority, accessTime)
        invariant split ==> EndsAt(tree, node, wanted) && (|key| > 0 ==> key[0] !in node.children)
        invariant split ==> WalkStamps(t, before, tree, Stamped(), wanted, priority, accessTime, clock.now)
        decreases |key|
      {
        ghost var up, c := node, node;
        var prefixLen;
        node, prefixLen, split, c := InsertStep(node, key, priority, accessTime, wanted);
        if split {
          WalkedSplit(t, before, up, c, tree, Stamped(), node, wanted, priority, accessTime, accessTime, clock.now);
        } else {
          WalkedWhole(t, before, up, node, priority, accessTime);
        }
        totalPrefixLength := totalPrefixLength + prefixLen;
        key := key[prefixLen..];
      }
      if !split {
        NodeIs(node);
        MatchEndsAt(tree, node, wanted);
        WalkedToEnd(t, before, node, wanted, priority, accessTime);
      }
    }

    /** The walk, then the missing leaf; what is left of `value` is what is left of `key`. */
    method InsertHelper(start: TreeNode, wanted: Path, slots: seq<Slot>, priority: int)
      returns (totalPrefixLength: nat, ghost accessed: real)
      requires Valid() && start == rootNode && |slots| == |wanted|
      modifies this`tree, this`evictableSize, this`evictableLeaves, tree.nd.Keys, clock
      ensures Valid() && Grown(old(tree)) && (forall n | n in tree.nd :: n in old(tree).nd || fresh(n))
      ensures Contents(tree) == InsertAll(Contents(old(tree)), wanted, slots)
      ensures totalPrefixLength == LongestMatch(Contents(old(tree)), wanted)
      ensures old(clock.now) <= accessed
      ensures InsertStamps(old(tree), old(Stamped()), tree, Stamped(), wanted, priority, accessed, clock.now)
    {
      hide *;
      RootIn();
      ghost var t, before := tree, Stamped();
      var accessTime := clock.Monotonic();
      accessed := accessTime;
      Touch(start, accessTime);
      Promote(start, priority);
      WalkedRoot(t, before, priority, accessTime);
      var node, key;
      node, key, totalPrefixLength := InsertWalk(start, wanted, priority, accessTime, before);
      EndsAtLength(tree, node, wanted);
      ghost var mid := tree;
      GrownNodes(t);
      InsertRest(node, key, slots[totalPrefixLength..], priority, wanted, slots, t, before, accessTime);
      GrownOver(t, mid);
    }

    /** Adds the missing prefixes of `key`; returns how many of its tokens were cached before. */
    method Insert(key: Path, value: Option<seq<Slot>>, priority: int) returns (prefixLen: nat, ghost accessed: real)
      requires Valid() && (value.Some? ==> |value.value| == |key|)
      modifies this`tree, this`evictableSize, this`evictableLeaves, tree.nd.Keys, clock
      ensures Valid() && Grown(old(tree)) && (forall n | n in tree.nd :: n in old(tree).nd || fresh(n))
      ensures Contents(tree) == InsertAll(Contents(old(tree)), key, if value.Some? then value.value else key)
      ensures prefixLen == LongestMatch(Contents(old(tree)), key)
      ensures old(clock.now) <= accessed
      ensures InsertStamps(old(tree), old(Stamped()), tree, Stamped(), key, priority, accessed, clock.now)
    {
      hide *;
      RootIn();
      var slots := if value.Some? then value.value else key;
      prefixLen, accessed := InsertHelper(rootNode, key, slots, priority);
    }

    /** One node's part of `inc_lock_ref`; returns its share of the change in evictable size. */
    method LockOne(node: TreeNode) returns (gain: int)
      requires Shape() && BookOk(tree, Figures()) && node in tree.nd && node != rootNode && tree.nd[node].lock >= 0
      modifies this`tree, this`evictableSize, this`protectedSize, this`evictableLeaves, node`lockRef
      ensures Shape() && BookOk(tree, Figures()) && tree == Bump(old(tree), node, 1)
      ensures Contents(tree) == Contents(old(tree)) && gain == evictableSize - old(evictableSize)
    {
      hide BookOk, Contents, Covers, NodeOk, ChildOk, Wf;
      BumpKeeps(tree, node, 1, Figures());
      gain := 0;
      if node.lockRef == 0 {
        evictableSize := evictableSize - |node.key|;
        protectedSize := protectedSize + |node.key|;
        gain := -|node.key|;
      }
      node.lockRef := node.lockRef + 1;
      UpdateLeafStatus(node);
      ghost var t := tree;
      tree := Bump(t, node, 1);
      forall n | n in tree.nd ensures Matches(n, tree.nd[n]) && (n.parent == null <==> n == rootNode) {
        if n != node {
          assert tree.nd[n] == t.nd[n];
        }
      }
    }

    /** One node's part of `dec_lock_ref`. */
    method UnlockOne(node: TreeNode) returns (gain: int)
      requires Shape() && BookOk(tree, Figures()) && node in tree.nd && node != rootNode && tree.nd[node].lock > 0
      modifies this`tree, this`evictableSize, this`protectedSize, this`evictableLeaves, node`lockRef
      ensures Shape() && BookOk(tree, Figures()) && tree == Bump(old(tree), node, -1)
      ensures Contents(tree) == Contents(old(tree)) && gain == evictableSize - old(evictableSize)
    {
      hide BookOk, Contents, Covers, NodeOk, ChildOk, Wf;
      BumpKeeps(tree, node, -1, Figures());
      gain := 0;
      if node.lockRef == 1 {
        evictableSize := evictableSize + |node.key|;
        protectedSize := protectedSize - |node.key|;
        gain := |node.key|;
      }
      node.lockRef := node.lockRef - 1;
      UpdateLeafStatus(node);
      ghost var t := tree;
      tree := Bump(t, node, -1);
      forall n | n in tree.nd ensures Matches(n, tree.nd[n]) && (n.parent == null <==> n == rootNode) {
        if n != node {
          assert tree.nd[n] == t.nd[n];
        }
      }
    }

    /** Locks a node and all its ancestors; returns the change in evictable size. */
    method IncLockRef(target: TreeNode) returns (delta: int)
      requires Valid() && target in tree.nd
      modifies this`tree, this`held, this`evictableSize, this`protectedSize, this`evictableLeaves, tree.nd.Keys`lockRef
      ensures Valid() && Grown(old(tree)) && tree.nd.Keys == old(tree).nd.Keys
      ensures held == old(held) + [tree.nd[target].path] && Contents(tree) == Contents(old(tree))
      ensures delta == evictableSize - old(evictableSize)
    {
      hide LocksOk, BookOk, Contents, Covers, NodeOk, Matches, LockedDeeper, Bump, KeySum;
      ghost var t, p := tree, tree.nd[target].path;
      assert HasNode(t, p);
      ghost var before := held;
      held := held + [p];
      delta := 0;
      var node := target;
      LockStart(t, p, 1);
      while node != rootNode
        invariant Shape() && BookOk(tree, Figures()) && held == before + [p]
        invariant node in t.nd && t.nd[node].path <= p && LockedDeeper(t, tree, p, |t.nd[node].path|, 1)
        invariant Contents(tree) == Contents(t) && delta == evictableSize - old(evictableSize)
        decreases |t.nd[node].path|
      {
        LockedKeeps(t, tree, p, |t.nd[node].path|, 1);
        LockStep(t, tree, p, node, 1);
        FieldsOf(node);
        LocksNonNegative(t, before, node);
        var gain := LockOne(node);
        delta := delta + gain;
        node := node.parent;
      }
      LockedKeeps(t, tree, p, 0, 1);
      LockCounts(t, tree, p, before);
    }

    /** Releases the lock taken on `target` and its ancestors; `j` is its place among the held locks. */
    method DecLockRef(target: TreeNode, ghost j: nat) returns (delta: int)
      requires Valid() && target in tree.nd && j < |held| && held[j] == tree.nd[target].path
      modifies this`tree, this`held, this`evictableSize, this`protectedSize, this`evictableLeaves, tree.nd.Keys`lockRef
      ensures Valid() && Grown(old(tree)) && tree.nd.Keys == old(tree).nd.Keys
      ensures held == old(held)[..j] + old(held)[j + 1..] && Contents(tree) == Contents(old(tree))
      ensures delta == evictableSize - old(evictableSize)
    {
      hide LocksOk, BookOk, Contents, Covers, NodeOk, Matches, LockedDeeper, Bump, KeySum;
      ghost var t, p := tree, tree.nd[target].path;
      ghost var before := held;
      held := held[..j] + held[j + 1..];
      delta := 0;
      var node := target;
      LockStart(t, p, -1);
      while node != rootNode
        invariant Shape() && BookOk(tree, Figures()) && held == before[..j] + before[j + 1..]
        invariant node in t.nd && t.nd[node].path <= p && LockedDeeper(t, tree, p, |t.nd[node].path|, -1)
        invariant Contents(tree) == Contents(t) && delta == evictableSize - old(evictableSize)
        decreases |t.nd[node].path|
      {
        LockedKeeps(t, tree, p, |t.nd[node].path|, -1);
        LockStep(t, tree, p, node, -1);
        FieldsOf(node);
        LockPositive(t, before, node, p);
        var gain := UnlockOne(node);
        delta := delta + gain;
        node := node.parent;
      }
      LockedKeeps(t, tree, p, 0, -1);
      UnlockCounts(t, tree, before, j);
    }

    /** What eviction ranks nodes by are their stamps. */
    lemma RanksAre()
      ensures RankMap() == Ranks(strategy, Stamped())
    {
    }

    /** Attaches the pool that evicted slots go back to. */
    method SetAllocator(a: TokenPoolAllocator)
      requires Valid()
      modifies this`allocator
      ensures Valid() && allocator == a
    {
      allocator := a;
    }

    method UnlinkLeaf(node: TreeNode)
      requires Shape() && CanDelete(tree, node)
      modifies this`tree, node.parent`children
      ensures Shape() && tree == DeleteTree(old(tree), node)
      ensures node.parent == old(tree).nd[node].parent && node.parent in tree.nd
    {
      hide Contents, Covers;
      ghost var t := tree;
      EdgeOf(t, node);
      FieldsOf(node);
      DeleteWf(t, node);
      ghost var u := DeleteTree(t, node);
      tree := u;
      node.parent.children := node.parent.children - {node.key[0]};
      forall n | n in u.nd ensures Matches(n, u.nd[n]) && (n.parent == null <==> n == rootNode) {
        if n != node.parent {
          assert u.nd[n] == t.nd[n];
        }
      }
    }

    method DeleteLeaf(node: TreeNode)
      requires Valid() && CanDelete(tree, node) && tree.nd[node].lock == 0
      modifies this`tree, this`evictableSize, this`evictableLeaves, node.parent`children
      ensures Valid() && tree == DeleteTree(old(tree), node) && evictableSize == old(evictableSize) - |node.key|
      ensures node.parent == old(tree).nd[node].parent && node.parent in tree.nd
    {
      hide LocksOk, KeySum, Contents, Covers, Wf, Matches;
      ghost var t, b := tree, Figures();
      FieldsOf(node);
      EdgeOf(t, node);
      RootOf();
      if node.parent != rootNode {
        LocksNonNegative(t, held, node.parent);
      }
      UnlinkLeaf(node);
      FieldsOf(node.parent);
      evictableSize := evictableSize - |node.key|;
      evictableLeaves := evictableLeaves - {node};
      UpdateLeafStatus(node.parent);
      DeleteLocks(t, node, held);
      DeleteBook(t, node, b);
    }

    ghost predicate Ranked(keys: Keys)
      reads this`tree, tree.nd.Keys`lastAccess, tree.nd.Keys`creation, tree.nd.Keys`hitCount, tree.nd.Keys`priority
    {
      tree.nd.Keys <= keys.Keys && forall n | n in tree.nd :: keys[n] == KeyOf(strategy, n)
    }

    /** The heap key of every node of the tree. */
    ghost function RankMap(): Keys
      reads this`tree, tree.nd.Keys`lastAccess, tree.nd.Keys`creation, tree.nd.Keys`hitCount, tree.nd.Keys`priority
    {
      map n | n in tree.nd :: KeyOf(strategy, n)
    }

    lemma RankMapRanks()
      ensures Ranked(RankMap()) && OneKind(RankMap())
    {
    }

    /** The heap eviction starts from. */
    method InitialHeap(ghost keys: Keys) returns (heap: set<HeapEntry>)
      requires Valid() && Ranked(keys)
      ensures heap == HeapOf(tree, keys)
    {
      heap := set n | n in evictableLeaves :: HeapEntry(KeyOf(strategy, n), n);
    }

    /** One victim: its slots go back to the pool and it leaves the tree. */
    method EvictOne(x: TreeNode, ghost keys: Keys)
      requires Valid() && CanDelete(tree, x) && tree.nd[x].lock == 0 && Ranked(keys)
      modifies this`tree, this`evictableSize, this`evictableLeaves, x.parent`children
      modifies if allocator == null then {} else {allocator}
      ensures Valid() && Ranked(keys) && tree == DeleteTree(old(tree), x)
      ensures evictableSize == old(evictableSize) - |x.key| && x.parent == old(tree).nd[x].parent && x.parent in tree.nd
      ensures allocator != null ==> allocator.freeSlots == old(allocator.freeSlots) + x.value
    {
      hide Inv, Contents, Wf, Matches, KeyOf;
      EdgeOf(tree, x);
      if allocator != null {
        allocator.Free(x.value);
      }
      DeleteLeaf(x);
    }

    /** One turn of `evict`: the least leaf goes, and its parent joins the heap if it is now a leaf. */
    method EvictTurn(heap: set<HeapEntry>, ghost t: Tree, ghost h: History, ghost base: seq<Slot>)
      returns (rest: set<HeapEntry>, n: nat, ghost next: History)
      requires Valid() && Ranked(h.keys) && OneKind(h.keys) && Evicted(h, t, tree)
      requires heap == HeapOf(tree, h.keys) && heap != {}
      requires allocator != null ==> allocator.freeSlots == base + h.freed
      modifies this`tree, this`evictableSize, this`evictableLeaves, tree.nd.Keys`children
      modifies if allocator == null then {} else {allocator}
      ensures Valid() && Ranked(h.keys) && next.keys == h.keys && Evicted(next, t, tree)
      ensures rest == HeapOf(tree, h.keys)
      ensures next.victims != [] && LastSize(next) == n && evictableSize == old(evictableSize) - n
      ensures |next.freed| == |h.freed| + n && (allocator != null ==> allocator.freeSlots == base + next.freed)
      ensures |tree.nd| < |old(tree).nd| && tree.nd.Keys <= old(tree).nd.Keys
    {
      hide Inv, Contents, Wf, Matches, KeyOf, Evicted, IsVictim, OneKind, SameKind, Comparable, HeapOf, LastSize, EvictNext, EvictRun, CanDelete, DeleteTree, Removed;
      HeapComparable(tree, h.keys);
      var entry := PeekMin(heap);
      var x := entry.node;
      MinIsVictim(tree, h.keys, entry);
      FieldsOf(x);
      HeapAfterDelete(tree, x, h.keys);
      EvictedNext(h, t, tree, x);
      DeleteSmaller(tree, x);
      FreedNext(h, tree, x, base);
      next := EvictNext(h, tree, x);
      n := |x.value|;
      EvictOne(x, h.keys);
      FieldsOf(x.parent);
      rest := heap - {entry};
      if x.parent.children == map[] && x.parent.lockRef == 0 {
        rest := rest + {HeapEntry(KeyOf(strategy, x.parent), x.parent)};
      }
    }

    /** Pops leaves in heap order until `numTokens` tokens are gone or no leaf is left. */
    method Evict(numTokens: int) returns (numEvicted: nat, ghost h: History)
      requires Valid()
      modifies this`tree, this`evictableSize, this`evictableLeaves, tree.nd.Keys`children
      modifies if allocator == null then {} else {allocator}
      ensures Valid() && Evicted(h, old(tree), tree)
      ensures h.keys == old(RankMap())
      ensures numEvicted == |h.freed| == old(evictableSize) - evictableSize
      ensures numEvicted < numTokens ==> evictableSize == 0
      ensures h.victims != [] ==> numEvicted - LastSize(h) < numTokens
      ensures numTokens >= old(evictableSize) ==> forall p :: p in Contents(tree) <==> p != [] && OnHeld(held, p)
      ensures allocator != null ==> allocator.freeSlots == old(allocator.freeSlots) + h.freed
    {
      hide Inv, Contents, Wf, Matches, Evicted, HeapOf, LastSize, Ranked, RankMap, OneKind, OnHeld;
      ghost var t, keys, base := tree, RankMap(), if allocator == null then [] else allocator.freeSlots;
      RankMapRanks();
      var heap := InitialHeap(keys);
      numEvicted := 0;
      h := History(keys, [], [tree], [], []);
      EvictedStart(tree, keys);
      while numEvicted < numTokens && heap != {}
        invariant Valid() && Ranked(keys) && heap == HeapOf(tree, keys) && h.keys == keys
        invariant tree.nd.Keys <= t.nd.Keys
        invariant Evicted(h, t, tree) && numEvicted == |h.freed| == old(evictableSize) - evictableSize
        invariant h.victims != [] ==> numEvicted - LastSize(h) < numTokens
        invariant allocator != null ==> allocator.freeSlots == base + h.freed
        decreases |tree.nd|
      {
        var n;
        heap, n, h := EvictTurn(heap, t, h, base);
        numEvicted := numEvicted + n;
      }
      if numEvicted < numTokens {
        HeapEmpty(tree, keys);
        NoLeafNoSize(tree, held, Figures());
      }
      EvictableOf();
      if evictableSize == 0 {
        forall p ensures p in Contents(tree) <==> p != [] && OnHeld(held, p) {
          FullyEvicted(tree, held, Figures(), p);
        }
      }
    }

    /** Pushes the children of a node, in any order; each is under one token only. */
    method PushChildren(stack: seq<TreeNode>, n: TreeNode) returns (r: seq<TreeNode>)
      requires Distinct(stack) && (set k | k in n.children :: n.children[k]) !! Elements(stack)
      ensures Distinct(r) && Elements(r) == Elements(stack) + (set k | k in n.children :: n.children[k])
    {
      hide Distinct, Elements;
      r := stack;
      var children := set k | k in n.children :: n.children[k];
      ghost var all := children;
      while children != {}
        invariant children <= all && children !! Elements(r) && Distinct(r)
        invariant Elements(r) == Elements(stack) + (all - children)
        decreases |children|
      {
        var child :| child in children;
        PushOne(r, child);
        r := r + [child];
        children := children - {child};
      }
    }

    /** The traversal behind `total_size` finds what the two counters say. */
    method TotalSize() returns (total: nat)
      requires Valid()
      ensures total == evictableSize + protectedSize
    {
      hide LocksOk, BookOk, Contents, Covers, NodeOk, ChildOk, Matches, Explored, KeySum;
      hide Elements;
      total := 0;
      var stack := [rootNode];
      assert Distinct(stack) && Elements(stack) == {rootNode} by {
        PushOne([], rootNode);
        assert [] + [rootNode] == stack;
      }
      ghost var done: set<TreeNode> := {};
      ExploreStart(tree);
      while |stack| > 0
        invariant Explored(tree, done, Elements(stack)) && Distinct(stack)
        invariant done <= tree.nd.Keys && total == KeySum(tree, done)
        decreases |tree.nd.Keys - done|
      {
        PopLast(stack);
        var cur := stack[|stack| - 1];
        ExploreStep(tree, done, Elements(stack), cur);
        ExploreFrontier(tree, done, Elements(stack), cur);
        ExploreSum(tree, done, cur);
        FieldsOf(cur);
        total := total + |cur.value|;
        stack := PushChildren(stack[..|stack| - 1], cur);
        done := done + {cur};
      }
      ExploredAll(tree, done, Figures());
    }
  }
}
