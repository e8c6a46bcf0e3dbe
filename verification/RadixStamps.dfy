/** Access times and priorities: what a walk along a key leaves on every node, and what that means for eviction. */
module RadixStamps {
  import opened PrefixMap
  import opened TreeNodes
  import opened RadixTree
  import opened RadixBooks
  import opened RadixOps
  import opened RadixEvict
  import opened EvictPolicies

  /** The fields of a node that eviction ranks it by. */
  datatype Stamp = Stamp(access: real, created: real, hits: int, priority: int)

  type Stamps = map<TreeNode, Stamp>

  ghost function StampOf(n: TreeNode): Stamp
    reads n`lastAccess, n`creation, n`hitCount, n`priority
  {
    Stamp(n.lastAccess, n.creation, n.hitCount, n.priority)
  }

  // ---------------------------------------------------------------- which nodes a walk enters

  /** A walk along `key` enters the edge into `n`: the edge's first token is the key's next one there. The root is always entered. */
  ghost predicate Entered(t: Tree, n: TreeNode, key: Path) {
    && n in t.nd
    && (n == t.root || (0 <= Start(t.nd[n]) < |t.nd[n].path| && t.nd[n].path[..Start(t.nd[n]) + 1] <= key))
  }

  /** And it takes the whole edge. */
  ghost predicate Passed(t: Tree, n: TreeNode, key: Path) {
    n in t.nd && t.nd[n].path <= key
  }

  lemma EnteredRoot(t: Tree, n: TreeNode)
    requires Wf(t) && n in t.nd
    ensures Entered(t, n, []) <==> n == t.root
    ensures Passed(t, n, []) <==> n == t.root
  {
    assert NodeOk(t, n);
  }

  /** Only nodes on a longer path are entered by a longer key. */
  lemma EnteredDeeper(t: Tree, n: TreeNode, key: Path, k: nat)
    requires Wf(t) && n in t.nd && k <= |key|
    ensures Entered(t, n, key[..k]) ==> Entered(t, n, key)
    ensures Entered(t, n, key) && !Entered(t, n, key[..k]) ==> n != t.root && k < |key| && key[..k + 1] <= t.nd[n].path
    ensures Passed(t, n, key[..k]) ==> Passed(t, n, key)
    ensures Passed(t, n, key) && !Passed(t, n, key[..k]) ==> n != t.root && k < |key| && key[..k + 1] <= t.nd[n].path
  {
    assert NodeOk(t, n);
  }

  /** The child whose edge covers the key's next token is the only node entered there. */
  lemma OnlyChild(t: Tree, n: TreeNode, c: TreeNode, key: Path, k: nat)
    requires Wf(t) && n in t.nd && k < |key| && Covers(t, c, key[..k + 1]) && Start(t.nd[c]) == k
    requires key[..k + 1] <= t.nd[n].path
    ensures t.nd[c].path <= t.nd[n].path
    ensures Entered(t, n, t.nd[c].path) ==> n == c
    ensures t.nd[n].path <= t.nd[c].path ==> n == c
  {
    BelowEdge(t, c, n, key[..k + 1]);
    assert NodeOk(t, n) && NodeOk(t, c);
    if Entered(t, n, t.nd[c].path) {
      EnteredSame(t, n, c, key, k);
    }
    if t.nd[n].path <= t.nd[c].path {
      UniquePath(t, n, c);
    }
  }

  lemma EnteredSame(t: Tree, n: TreeNode, c: TreeNode, key: Path, k: nat)
    requires Wf(t) && n in t.nd && k < |key| && Covers(t, c, key[..k + 1]) && Start(t.nd[c]) == k
    requires t.nd[c].path <= t.nd[n].path && Entered(t, n, t.nd[c].path)
    ensures n == c
  {
    assert NodeOk(t, n) && NodeOk(t, c);
    var s := Start(t.nd[n]);
    assert n != t.root;
    if s < k {
      assert t.nd[t.nd[n].parent].path == t.nd[n].path[..s];
      UniqueCover(t, n, c, t.nd[c].path[..k + 1]);
    } else {
      UniqueCover(t, n, c, t.nd[n].path[..s + 1]);
    }
  }

  /** A walk that takes the whole edge into `c` enters, and passes, that node more. */
  lemma WalkWhole(t: Tree, up: TreeNode, c: TreeNode, n: TreeNode)
    requires Wf(t) && up in t.nd && c in t.nd && c != t.root && t.nd[c].parent == up && n in t.nd
    ensures Entered(t, n, t.nd[c].path) <==> Entered(t, n, t.nd[up].path) || n == c
    ensures Passed(t, n, t.nd[c].path) <==> Passed(t, n, t.nd[up].path) || n == c
  {
    EdgeOf(t, c);
    var key, k := t.nd[c].path, |t.nd[up].path|;
    assert key[..k] == t.nd[up].path;
    EnteredDeeper(t, n, key, k);
    if key[..k + 1] <= t.nd[n].path {
      OnlyChild(t, n, c, key, k);
    }
  }

  /** The edge from `up` to `c` is where a walk along `wanted` leaves the tree: it enters the edge, but not all of it. */
  ghost predicate LeavesAt(t: Tree, up: TreeNode, c: TreeNode, wanted: Path) {
    && up in t.nd && c in t.nd && c != t.root && t.nd[c].parent == up
    && t.nd[up].path <= wanted && |t.nd[up].path| < |wanted| && wanted[..|t.nd[up].path| + 1] <= t.nd[c].path
    && !(t.nd[c].path <= wanted)
  }

  /** A walk that leaves the edge into `c` enters that node more, but does not pass it. */
  lemma WalkPart(t: Tree, up: TreeNode, c: TreeNode, n: TreeNode, key: Path)
    requires Wf(t) && n in t.nd && LeavesAt(t, up, c, key)
    ensures Entered(t, n, key) <==> Entered(t, n, t.nd[up].path) || n == c
    ensures Passed(t, n, key) <==> Passed(t, n, t.nd[up].path)
  {
    EdgeOf(t, c);
    var k := |t.nd[up].path|;
    assert key[..k] == t.nd[up].path;
    assert t.nd[c].path[..k + 1] == key[..k + 1];
    EnteredDeeper(t, n, key, k);
    if key[..k + 1] <= t.nd[n].path {
      OnlyChild(t, n, c, key, k);
      if Entered(t, n, key) && n != c {
        EnteredPart(t, n, c, key);
      }
    }
  }

  lemma ShorterPrefix(a: Path, b: Path, whole: Path, key: Path)
    requires a <= whole && b <= whole && |a| <= |b| && b <= key
    ensures a <= key
  {
    assert a == b[..|a|];
  }

  lemma EnteredPart(t: Tree, n: TreeNode, c: TreeNode, key: Path)
    requires Wf(t) && n in t.nd && c in t.nd && t.nd[c].path <= t.nd[n].path && Entered(t, n, key) && !(t.nd[c].path <= key)
    ensures Entered(t, n, t.nd[c].path)
  {
    if n != t.root {
      var p := t.nd[n].path[..Start(t.nd[n]) + 1];
      if |t.nd[c].path| <= |p| {
        ShorterPrefix(t.nd[c].path, p, t.nd[n].path, key);
      }
    }
  }

  /** A walk that cannot go on has entered all there is to enter. */
  lemma WalkEnds(t: Tree, m: TreeNode, n: TreeNode, key: Path)
    requires Wf(t) && m in t.nd && n in t.nd && t.nd[m].path <= key
    requires |t.nd[m].path| < |key| ==> key[|t.nd[m].path|] !in t.nd[m].children
    ensures Entered(t, n, key) <==> Entered(t, n, t.nd[m].path)
    ensures Passed(t, n, key) <==> Passed(t, n, t.nd[m].path)
  {
    var k := |t.nd[m].path|;
    assert key[..k] == t.nd[m].path;
    EnteredDeeper(t, n, key, k);
    if k < |key| {
      NothingBeyond(t, m, key[..k + 1]);
    }
  }

  // ---------------------------------------------------------------- what a walk leaves on them

  /** What a match leaves on the nodes there were: every node entered has the time of the walk, and nothing else changes. */
  ghost function Touched(t: Tree, before: Stamps, key: Path, when: real): Stamps {
    map n | n in before :: if Entered(t, n, key) then before[n].(access := when) else before[n]
  }

  ghost function Larger(a: int, b: int): int { if a < b then b else a }

  /** What an insert leaves on them: those entered have the time of the walk, those passed at least the given priority. */
  ghost function Walked(t: Tree, before: Stamps, key: Path, given: int, when: real): Stamps {
    map n | n in before ::
      var s := if Entered(t, n, key) then before[n].(access := when) else before[n];
      if Passed(t, n, key) then s.(priority := Larger(s.priority, given)) else s
  }

  /** A node made between the walk and `now` took two readings of its own. */
  ghost predicate NewStamp(s: Stamp, when: real, now: real) {
    when <= s.access <= s.created <= now && s.hits == 0
  }

  /** The nodes there were have these stamps. */
  ghost predicate OldStamps(before: Stamps, after: Stamps, expected: Stamps) {
    forall n | n in before :: n in expected && n in after && after[n] == expected[n]
  }

  /** The others were made since the walk. */
  ghost predicate NewStamps(before: Stamps, u: Tree, after: Stamps, when: real, now: real) {
    forall n | n in after && n !in before :: n in u.nd && NewStamp(after[n], when, now)
  }

  /** A new node above an old one was split off it: it has that node's priority, or the given one if that is larger. */
  ghost predicate Inherited(before: Stamps, u: Tree, after: Stamps, given: int, raised: bool) {
    forall n, c | n in after && n !in before && c in before && c in u.nd && c != u.root && u.nd[c].parent == n ::
      after[n].priority == if raised then Larger(before[c].priority, given) else before[c].priority
  }

  /** A new node without children has the given priority. */
  ghost predicate LeavesGiven(before: Stamps, u: Tree, after: Stamps, given: int) {
    forall n | n in after && n !in before && n in u.nd && u.nd[n].children == map[] :: after[n].priority == given
  }

  /** From `t` to `u`, a match of `key` at time `when` has touched nodes, and split one at most. */
  ghost predicate MatchStamps(t: Tree, before: Stamps, u: Tree, after: Stamps, key: Path, when: real, now: real) {
    && when <= now && OldStamps(before, after, Touched(t, before, key, when))
    && NewStamps(before, u, after, when, now) && Inherited(before, u, after, 0, false)
  }

  /** An insert has touched and raised nodes, split one at most, and added one leaf at most. */
  ghost predicate InsertStamps(t: Tree, before: Stamps, u: Tree, after: Stamps, key: Path, given: int, when: real, now: real) {
    && when <= now && OldStamps(before, after, Walked(t, before, key, given, when))
    && NewStamps(before, u, after, when, now) && Inherited(before, u, after, given, true) && LeavesGiven(before, u, after, given)
  }

  /** `n` was split off `child`, with priority `p` and readings of its own. */
  ghost predicate SplitOff(t: Tree, before: Stamps, u: Tree, after: Stamps, child: TreeNode, n: TreeNode, p: int, when: real, now: real) {
    && n in u.nd && n !in before && child in before && before.Keys == t.nd.Keys && n in after && u.nd[n].children != map[]
    && after == before[n := after[n]] && NewStamp(after[n], when, now) && after[n].priority == p
    && (forall c | c in t.nd && c in u.nd && c != u.root && u.nd[c].parent == n :: c == child)
  }

  lemma NewStampTime(s: Stamp, when: real, now: real)
    requires NewStamp(s, when, now)
    ensures when <= now
  {
  }

  /** A node touched and then raised. */
  lemma TouchedRaised(before: Stamps, mid: Stamps, after: Stamps, n: TreeNode, when: real, given: int)
    requires n in before && mid == before[n := before[n].(access := when)]
    requires after == mid[n := mid[n].(priority := Larger(mid[n].priority, given))]
    ensures after == before[n := before[n].(access := when, priority := Larger(before[n].priority, given))]
  {
  }

  /** A node split off and then raised. */
  lemma SplitRaised(t: Tree, before: Stamps, u: Tree, mid: Stamps, after: Stamps, child: TreeNode, n: TreeNode, p: int, given: int,
                    when: real, now: real)
    requires SplitOff(t, before, u, mid, child, n, p, when, now)
    requires after == mid[n := mid[n].(priority := Larger(mid[n].priority, given))]
    ensures SplitOff(t, before, u, after, child, n, Larger(p, given), when, now)
  {
  }

  lemma SplitOffIs(t: Tree, before: Stamps, u: Tree, after: Stamps, child: TreeNode, n: TreeNode, s: Stamp, k: Token, when: real, now: real)
    requires child in t.nd && before.Keys == t.nd.Keys && n !in t.nd && n in u.nd && u.nd[n].children.Keys == {k}
    requires after == before[n := s] && NewStamp(s, when, now)
    requires forall c | c in t.nd && c != t.root && c in u.nd && u.nd[c].parent == n :: c == child
    requires u.root == t.root
    ensures SplitOff(t, before, u, after, child, n, s.priority, when, now)
  {
    assert k in u.nd[n].children.Keys;
  }

  lemma SplitTime(t: Tree, before: Stamps, u: Tree, after: Stamps, child: TreeNode, n: TreeNode, p: int, when: real, now: real)
    requires SplitOff(t, before, u, after, child, n, p, when, now)
    ensures when <= now
  {
  }

  /** The stamps of an insert before its leaf is added: no new node is a leaf. */
  ghost predicate WalkStamps(t: Tree, before: Stamps, u: Tree, after: Stamps, key: Path, given: int, when: real, now: real) {
    && InsertStamps(t, before, u, after, key, given, when, now)
    && (forall n | n in after && n !in before && n in u.nd :: u.nd[n].children != map[])
  }

  /** A match that ends inside an edge. */
  lemma MatchedSplit(t: Tree, before: Stamps, up: TreeNode, c: TreeNode, u: Tree, after: Stamps, n: TreeNode,
                     key: Path, when: real, mid: real, now: real)
    requires Wf(t) && before.Keys == t.nd.Keys && LeavesAt(t, up, c, key)
    requires var s := Touched(t, before, t.nd[up].path, when);
             SplitOff(t, s[c := s[c].(access := when)], u, after, c, n, s[c].priority, mid, now)
    requires when <= mid <= now
    ensures MatchStamps(t, before, u, after, key, when, now)
  {
    TouchedPart(t, before, up, c, key, when);
    hide Entered, Wf;
  }

  /** A match that ends at a node. */
  lemma MatchedWhole(t: Tree, before: Stamps, m: TreeNode, key: Path, when: real)
    requires Wf(t) && before.Keys == t.nd.Keys && m in t.nd && t.nd[m].path <= key
    requires |t.nd[m].path| < |key| ==> key[|t.nd[m].path|] !in t.nd[m].children
    ensures MatchStamps(t, before, t, Touched(t, before, t.nd[m].path, when), key, when, when)
  {
    TouchedEnds(t, before, m, key, when);
    hide Entered, Wf;
  }

  lemma WalkedSplit(t: Tree, before: Stamps, up: TreeNode, c: TreeNode, u: Tree, after: Stamps, n: TreeNode,
                    key: Path, given: int, when: real, mid: real, now: real)
    requires Wf(t) && before.Keys == t.nd.Keys && LeavesAt(t, up, c, key)
    requires var s := Walked(t, before, t.nd[up].path, given, when);
             SplitOff(t, s[c := s[c].(access := when)], u, after, c, n, Larger(s[c].priority, given), mid, now)
    requires when <= mid <= now
    ensures WalkStamps(t, before, u, after, key, given, when, now)
  {
    WalkedPart(t, before, up, c, key, given, when);
    hide Entered, Passed, Wf, Walked, Larger;
  }

  lemma WalkedToEnd(t: Tree, before: Stamps, m: TreeNode, key: Path, given: int, when: real)
    requires Wf(t) && before.Keys == t.nd.Keys && m in t.nd && t.nd[m].path <= key
    requires |t.nd[m].path| < |key| ==> key[|t.nd[m].path|] !in t.nd[m].children
    ensures WalkStamps(t, before, t, Walked(t, before, t.nd[m].path, given, when), key, given, when, when)
  {
    WalkedEnds(t, before, m, key, given, when);
    hide Entered, Passed, Wf;
  }

  /** With nothing left over, the walk is all of an insert. */
  lemma NoLeafStamps(t: Tree, before: Stamps, u: Tree, after: Stamps, key: Path, given: int, when: real, now: real)
    requires WalkStamps(t, before, u, after, key, given, when, now)
    ensures InsertStamps(t, before, u, after, key, given, when, now)
  {
  }

  lemma LeafNew(before: Stamps, u: Tree, mid: Stamps, v: Tree, after: Stamps, m: TreeNode, given: int, when: real, sofar: real, now: real)
    requires NewStamps(before, u, mid, when, sofar) && (forall n | n in mid && n !in before && n in u.nd :: u.nd[n].children != map[])
    requires m in after && m in v.nd && after == mid[m := after[m]] && when <= sofar <= now && NewStamp(after[m], sofar, now)
    requires after[m].priority == given
    requires forall n | n in u.nd :: n in v.nd && (v.nd[n].children == map[] ==> u.nd[n].children == map[])
    ensures NewStamps(before, v, after, when, now) && LeavesGiven(before, v, after, given)
  {
  }

  lemma OldKept(before: Stamps, mid: Stamps, after: Stamps, expected: Stamps, m: TreeNode)
    requires OldStamps(before, mid, expected) && m !in before && m in after && after == mid[m := after[m]]
    ensures OldStamps(before, after, expected)
  {
  }

  lemma LeafInherits(before: Stamps, u: Tree, mid: Stamps, v: Tree, after: Stamps, m: TreeNode, given: int)
    requires Inherited(before, u, mid, given, true) && m !in before && m in after && after == mid[m := after[m]] && v.root == u.root
    requires forall c | c in before && c in v.nd && c != v.root :: c in u.nd && v.nd[c].parent == u.nd[c].parent && v.nd[c].parent != m
    ensures Inherited(before, v, after, given, true)
  {
    hide Larger;
  }

  /** The leaf has the given priority and readings of its own; the others keep what the walk left. */
  lemma LeafStamps(t: Tree, before: Stamps, u: Tree, mid: Stamps, after: Stamps, par: TreeNode, m: TreeNode, rest: Path, value: seq<Slot>,
                   key: Path, given: int, when: real, sofar: real, now: real)
    requires WalkStamps(t, before, u, mid, key, given, when, sofar) && mid.Keys == u.nd.Keys && before.Keys <= u.nd.Keys
    requires CanAdd(u, par, m, rest, value) && m in after && after == mid[m := after[m]]
    requires sofar <= now && NewStamp(after[m], sofar, now) && after[m].priority == given
    ensures InsertStamps(t, before, AddTree(u, par, m, rest, value), after, key, given, when, now)
  {
    var v := AddTree(u, par, m, rest, value);
    AddRoot(u, par, m, rest, value);
    OldKept(before, mid, after, Walked(t, before, key, given, when), m);
    hide OldStamps, Walked, AddTree, CanAdd, NewStamp, NewStamps, Inherited, LeavesGiven, Larger;
    forall n | n in u.nd
      ensures m in v.nd && n in v.nd && n != m && (n != u.root ==> v.nd[n].parent == u.nd[n].parent != m)
      ensures v.nd[n].children == map[] ==> u.nd[n].children == map[]
    {
      LeafKeeps(u, par, m, rest, value, n);
    }
    LeafNew(before, u, mid, v, after, m, given, when, sofar, now);
    LeafInherits(before, u, mid, v, after, m, given);
  }

  lemma AddKeys(u: Tree, par: TreeNode, m: TreeNode, rest: Path, value: seq<Slot>)
    requires CanAdd(u, par, m, rest, value)
    ensures AddTree(u, par, m, rest, value).nd.Keys == u.nd.Keys + {m} && m !in u.nd
  {
  }

  lemma AddRoot(u: Tree, par: TreeNode, m: TreeNode, rest: Path, value: seq<Slot>)
    requires CanAdd(u, par, m, rest, value)
    ensures AddTree(u, par, m, rest, value).root == u.root && par in u.nd && m !in u.nd
  {
  }

  lemma LeafKeeps(u: Tree, par: TreeNode, m: TreeNode, rest: Path, value: seq<Slot>, n: TreeNode)
    requires CanAdd(u, par, m, rest, value) && n in u.nd
    ensures var v := AddTree(u, par, m, rest, value);
            && m in v.nd && n in v.nd && n != m && (n != u.root ==> v.nd[n].parent == u.nd[n].parent != m)
            && (v.nd[n].children == map[] ==> u.nd[n].children == map[])
  {
    assert NodeOk(u, n);
    if n == par {
      assert rest[0] in AddTree(u, par, m, rest, value).nd[n].children;
    }
  }

  lemma TouchedRoot(t: Tree, before: Stamps, when: real)
    requires Wf(t) && before.Keys == t.nd.Keys
    ensures Touched(t, before, [], when) == before[t.root := before[t.root].(access := when)]
  {
    forall n | n in t.nd ensures Entered(t, n, []) <==> n == t.root {
      EnteredRoot(t, n);
    }
  }

  lemma WalkedRoot(t: Tree, before: Stamps, given: int, when: real)
    requires Wf(t) && before.Keys == t.nd.Keys
    ensures var s := before[t.root];
            Walked(t, before, [], given, when) == before[t.root := s.(access := when, priority := Larger(s.priority, given))]
  {
    forall n | n in t.nd ensures (Entered(t, n, []) <==> n == t.root) && (Passed(t, n, []) <==> n == t.root) {
      EnteredRoot(t, n);
    }
  }

  lemma TouchedWhole(t: Tree, before: Stamps, up: TreeNode, c: TreeNode, when: real)
    requires Wf(t) && before.Keys == t.nd.Keys && up in t.nd && c in t.nd && c != t.root && t.nd[c].parent == up
    ensures var s := Touched(t, before, t.nd[up].path, when); Touched(t, before, t.nd[c].path, when) == s[c := s[c].(access := when)]
  {
    hide Entered, Wf;
    forall n | n in t.nd ensures Entered(t, n, t.nd[c].path) <==> Entered(t, n, t.nd[up].path) || n == c {
      WalkWhole(t, up, c, n);
    }
  }

  lemma TouchedPart(t: Tree, before: Stamps, up: TreeNode, c: TreeNode, key: Path, when: real)
    requires Wf(t) && before.Keys == t.nd.Keys && LeavesAt(t, up, c, key)
    ensures var s := Touched(t, before, t.nd[up].path, when); Touched(t, before, key, when) == s[c := s[c].(access := when)]
  {
    hide Entered, Wf;
    forall n | n in t.nd ensures Entered(t, n, key) <==> Entered(t, n, t.nd[up].path) || n == c {
      WalkPart(t, up, c, n, key);
    }
  }

  lemma TouchedEnds(t: Tree, before: Stamps, m: TreeNode, key: Path, when: real)
    requires Wf(t) && before.Keys == t.nd.Keys && m in t.nd && t.nd[m].path <= key
    requires |t.nd[m].path| < |key| ==> key[|t.nd[m].path|] !in t.nd[m].children
    ensures Touched(t, before, key, when) == Touched(t, before, t.nd[m].path, when)
  {
    hide Entered, Wf;
    forall n | n in t.nd ensures Entered(t, n, key) <==> Entered(t, n, t.nd[m].path) {
      WalkEnds(t, m, n, key);
    }
  }

  lemma WalkedWhole(t: Tree, before: Stamps, up: TreeNode, c: TreeNode, given: int, when: real)
    requires Wf(t) && before.Keys == t.nd.Keys && up in t.nd && c in t.nd && c != t.root && t.nd[c].parent == up
    ensures var s := Walked(t, before, t.nd[up].path, given, when);
            Walked(t, before, t.nd[c].path, given, when) == s[c := s[c].(access := when, priority := Larger(s[c].priority, given))]
  {
    hide Entered, Wf, Passed;
    forall n | n in t.nd
      ensures Entered(t, n, t.nd[c].path) <==> Entered(t, n, t.nd[up].path) || n == c
      ensures Passed(t, n, t.nd[c].path) <==> Passed(t, n, t.nd[up].path) || n == c
    {
      WalkWhole(t, up, c, n);
    }
  }

  lemma WalkedPart(t: Tree, before: Stamps, up: TreeNode, c: TreeNode, key: Path, given: int, when: real)
    requires Wf(t) && before.Keys == t.nd.Keys && LeavesAt(t, up, c, key)
    ensures var s := Walked(t, before, t.nd[up].path, given, when); Walked(t, before, key, given, when) == s[c := s[c].(access := when)]
    ensures Walked(t, before, key, given, when)[c].priority == before[c].priority
  {
    hide Entered, Wf, Passed;
    forall n | n in t.nd
      ensures Entered(t, n, key) <==> Entered(t, n, t.nd[up].path) || n == c
      ensures Passed(t, n, key) <==> Passed(t, n, t.nd[up].path)
    {
      WalkPart(t, up, c, n, key);
    }
    NotPassed(t, c, key);
  }

  lemma NotPassed(t: Tree, c: TreeNode, key: Path)
    requires c in t.nd && !(t.nd[c].path <= key)
    ensures !Passed(t, c, key)
  {
  }

  lemma WalkedEnds(t: Tree, before: Stamps, m: TreeNode, key: Path, given: int, when: real)
    requires Wf(t) && before.Keys == t.nd.Keys && m in t.nd && t.nd[m].path <= key
    requires |t.nd[m].path| < |key| ==> key[|t.nd[m].path|] !in t.nd[m].children
    ensures Walked(t, before, key, given, when) == Walked(t, before, t.nd[m].path, given, when)
  {
    hide Entered, Wf, Passed;
    forall n | n in t.nd
      ensures Entered(t, n, key) <==> Entered(t, n, t.nd[m].path)
      ensures Passed(t, n, key) <==> Passed(t, n, t.nd[m].path)
    {
      WalkEnds(t, m, n, key);
    }
  }

  /** No stamp is later than the last reading of the clock. */
  ghost predicate Timely(f: Stamps, now: real) {
    forall n | n in f :: f[n].access <= now && f[n].created <= now
  }

  /** A match at a later reading keeps that so: the nodes it enters become the latest, and no other field of any node changes. */
  lemma MatchTimely(t: Tree, before: Stamps, u: Tree, after: Stamps, key: Path, when: real, sofar: real, now: real)
    requires MatchStamps(t, before, u, after, key, when, now) && Timely(before, sofar) && sofar <= when
    ensures Timely(after, now)
    ensures forall n | n in before && Entered(t, n, key) :: after[n].access == when >= before[n].access
    ensures forall n | n in before && !Entered(t, n, key) :: after[n].access == before[n].access
    ensures forall n | n in before :: after[n] == before[n].(access := after[n].access)
  {
  }

  /** So does an insert, and of all fields but the access times it changes only the priorities of the nodes it passes. */
  lemma InsertTimely(t: Tree, before: Stamps, u: Tree, after: Stamps, key: Path, given: int, when: real, sofar: real, now: real)
    requires InsertStamps(t, before, u, after, key, given, when, now) && Timely(before, sofar) && sofar <= when
    ensures Timely(after, now)
    ensures forall n | n in before && Entered(t, n, key) :: after[n].access == when >= before[n].access
    ensures forall n | n in before && !Entered(t, n, key) :: after[n].access == before[n].access
    ensures forall n | n in before && Passed(t, n, key) ::
              after[n].priority >= before[n].priority && after[n].priority >= given && after[n].priority in {before[n].priority, given}
    ensures forall n | n in before && !Passed(t, n, key) :: after[n].priority == before[n].priority
    ensures forall n | n in before :: after[n] == before[n].(access := after[n].access, priority := after[n].priority)
  {
  }

  // ---------------------------------------------------------------- what eviction makes of them

  /** The heap key of a node with these fields. */
  ghost function RankOf(s: Strategy, f: Stamp): HeapKey {
    match s
    case LRU => HeapKey(Time(f.access), f.access)
    case LFU => HeapKey(Pair(f.hits, f.access), f.access)
    case FIFO => HeapKey(Time(f.created), f.access)
    case MRU => HeapKey(Time(-f.access), f.access)
    case FILO => HeapKey(Time(-f.created), f.access)
    case Priority => HeapKey(Pair(f.priority, f.access), f.access)
  }

  ghost function Ranks(s: Strategy, f: Stamps): Keys {
    map n | n in f :: RankOf(s, f[n])
  }

  /** Under `lru`, what a match has just used is not evicted while an older leaf it did not use is there. */
  lemma MatchedSpared(t: Tree, before: Stamps, u: Tree, after: Stamps, key: Path, when: real, now: real, x: TreeNode, y: TreeNode)
    requires MatchStamps(t, before, u, after, key, when, now) && IsVictim(u, Ranks(LRU, after), x)
    requires y in Leaves(u) && y in before && !Entered(t, y, key) && before[y].access < when
    ensures x in before && !Entered(t, x, key)
  {
    assert after[y] == before[y];
    assert !KeyLess(Ranks(LRU, after)[y], Ranks(LRU, after)[x]);
  }

  /** Nor what an insert has just used or added. */
  lemma InsertedSpared(t: Tree, before: Stamps, u: Tree, after: Stamps, key: Path, given: int, when: real, now: real,
                       x: TreeNode, y: TreeNode)
    requires InsertStamps(t, before, u, after, key, given, when, now) && IsVictim(u, Ranks(LRU, after), x)
    requires y in Leaves(u) && y in before && !Entered(t, y, key) && before[y].access < when
    ensures x in before && !Entered(t, x, key)
  {
    assert after[y].access == before[y].access;
    assert !KeyLess(Ranks(LRU, after)[y], Ranks(LRU, after)[x]);
  }

  /** Under `priority`, what was inserted with a priority is not evicted while a leaf of a lesser one is there. */
  lemma RaisedSpared(t: Tree, before: Stamps, u: Tree, after: Stamps, key: Path, given: int, when: real, now: real,
                     x: TreeNode, y: TreeNode)
    requires InsertStamps(t, before, u, after, key, given, when, now) && IsVictim(u, Ranks(Priority, after), x)
    requires y in Leaves(u) && y in before && !Passed(t, y, key) && before[y].priority < given
    ensures x in before && !Passed(t, x, key)
  {
    assert after[y].priority == before[y].priority;
    assert !KeyLess(Ranks(Priority, after)[y], Ranks(Priority, after)[x]);
  }
}
