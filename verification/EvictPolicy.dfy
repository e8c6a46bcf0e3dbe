/** The six eviction strategies: the rank each one gives a node, and its order. */
module EvictPolicies {
  import opened Results
  import opened TreeNodes

  datatype Strategy = LRU | LFU | FIFO | MRU | FILO | Priority

  /** The name a strategy is chosen by. */
  ghost function NameOf(s: Strategy): string {
    match s
    case LRU => "lru" case LFU => "lfu" case FIFO => "fifo" case MRU => "mru" case FILO => "filo" case Priority => "priority"
  }

  /** ASCII letters in lower case; no other character has a lower-case form that occurs in a strategy's name. */
  function Lower(s: string): (r: string)
    ensures |r| == |s|
  {
    seq(|s|, i requires 0 <= i < |s| => if 'A' <= s[i] <= 'Z' then s[i] - 'A' + 'a' else s[i])
  }

  /** The strategy a name chooses, in upper or lower case. */
  method Choose(name: string) returns (r: Result<Strategy>)
    ensures r.Ok? || r.ValueError?
    ensures r.Ok? ==> Lower(name) == NameOf(r.value)
    ensures r.ValueError? ==> forall s: Strategy :: Lower(name) != NameOf(s)
  {
    var policy := Lower(name);
    if policy == "lru" {
      r := Ok(LRU);
    } else if policy == "lfu" {
      r := Ok(LFU);
    } else if policy == "fifo" {
      r := Ok(FIFO);
    } else if policy == "mru" {
      r := Ok(MRU);
    } else if policy == "filo" {
      r := Ok(FILO);
    } else if policy == "priority" {
      r := Ok(Priority);
    } else {
      r := ValueError;
    }
  }

  /** Ranks are compared as the tuples or floats they are. */
  datatype Rank = Time(t: real) | Pair(n: int, t: real)

  predicate Less(a: Rank, b: Rank) {
    match (a, b)
    case (Time(s), Time(t)) => s < t
    case (Pair(m, s), Pair(n, t)) => m < n || (m == n && s < t)
    case _ => false
  }

  function GetPriority(s: Strategy, node: TreeNode): Rank
    reads node`lastAccess, node`creation, node`hitCount, node`priority
  {
    match s
    case LRU => Time(node.lastAccess)
    case LFU => Pair(node.hitCount, node.lastAccess)
    case FIFO => Time(node.creation)
    case MRU => Time(-node.lastAccess)
    case FILO => Time(-node.creation)
    case Priority => Pair(node.priority, node.lastAccess)
  }

  /** What the heap compares: the rank, then `TreeNode.__lt__`, which compares access times. */
  datatype HeapKey = HeapKey(rank: Rank, access: real)

  predicate KeyLess(a: HeapKey, b: HeapKey) {
    Less(a.rank, b.rank) || (a.rank == b.rank && a.access < b.access)
  }

  function KeyOf(s: Strategy, node: TreeNode): HeapKey
    reads node`lastAccess, node`creation, node`hitCount, node`priority
  {
    HeapKey(GetPriority(s, node), node.lastAccess)
  }

  /** The ranks one strategy gives are all of one kind, so they are totally ordered. */
  ghost predicate SameKind(a: HeapKey, b: HeapKey) {
    a.rank.Time? <==> b.rank.Time?
  }

  lemma KeyOrder(a: HeapKey, b: HeapKey, c: HeapKey)
    requires SameKind(a, b) && SameKind(b, c)
    ensures !KeyLess(a, a)
    ensures KeyLess(a, b) || KeyLess(b, a) || a == b
    ensures KeyLess(a, b) && KeyLess(b, c) ==> KeyLess(a, c)
    ensures !KeyLess(b, a) && !KeyLess(c, b) ==> !KeyLess(c, a)
  {
  }

  /** What it means that nothing comes before a node: no other has a lesser rank under the strategy. */
  lemma FirstMeans(s: Strategy, x: TreeNode, y: TreeNode)
    requires !KeyLess(KeyOf(s, y), KeyOf(s, x))
    ensures s.LRU? ==> x.lastAccess <= y.lastAccess
    ensures s.MRU? ==> x.lastAccess >= y.lastAccess
    ensures s.FIFO? ==> x.creation < y.creation || (x.creation == y.creation && x.lastAccess <= y.lastAccess)
    ensures s.FILO? ==> x.creation > y.creation || (x.creation == y.creation && x.lastAccess <= y.lastAccess)
    ensures s.LFU? ==> x.hitCount < y.hitCount || (x.hitCount == y.hitCount && x.lastAccess <= y.lastAccess)
    ensures s.Priority? ==> x.priority < y.priority || (x.priority == y.priority && x.lastAccess <= y.lastAccess)
  {
  }
}
