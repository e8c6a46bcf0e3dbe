/** The node of the radix tree, with the fields the cache updates in place. */
module TreeNodes {
  import opened PrefixMap

  /** One edge-labelled trie node: `key` is the label of the edge from `parent`. */
  class TreeNode {
    var children: map<Token, TreeNode>
    var parent: TreeNode?
    var key: Path
    var value: seq<Slot>
    var lockRef: int
    var lastAccess: real
    var creation: real
    var hitCount: int
    var priority: int

    /** `now` and `later` are the two clock readings taken for a new node. */
    constructor (priority: int, now: real, later: real)
      ensures children == map[] && parent == null && key == [] && value == []
      ensures lockRef == 0 && hitCount == 0 && this.priority == priority
      ensures lastAccess == now && creation == later
    {
      children := map[];
      parent := null;
      key := [];
      value := [];
      lockRef := 0;
      lastAccess := now;
      creation := later;
      hitCount := 0;
      this.priority := priority;
    }
  }
}
