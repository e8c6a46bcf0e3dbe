/** The free list of KV-pool slots; slot 0 is padding and is never handed out. */
module TokenPool {
  import opened PrefixMap
  import opened Results

  /** n, n-1, ..., 1: the initial stack order. */
  function Descending(n: nat): (r: seq<Slot>)
    ensures |r| == n
    ensures forall s :: s in r <==> 1 <= s <= n
    ensures forall i, j | 0 <= i < j < n :: r[i] != r[j]
  {
    var r := seq(n, i requires 0 <= i < n => n - i);
    assert forall s | 1 <= s <= n :: s in r by {
      forall s | 1 <= s <= n ensures s in r {
        assert r[n - s] == s;
      }
    }
    r
  }

  class TokenPoolAllocator {
    const poolSize: nat
    var freeSlots: seq<Slot>

    constructor (poolSize: nat)
      requires poolSize > 0
      ensures this.poolSize == poolSize && freeSlots == Descending(poolSize)
    {
      this.poolSize := poolSize;
      new;
      Clear();
    }

    /** The checked form of construction: a pool must have a positive size. */
    static method Create(poolSize: int) returns (r: Result<TokenPoolAllocator>)
      ensures poolSize <= 0 ==> r == ValueError
      ensures poolSize > 0 ==> r.Ok? && fresh(r.value) && r.value.freeSlots == Descending(poolSize)
    {
      if poolSize <= 0 {
        return ValueError;
      }
      var a := new TokenPoolAllocator(poolSize);
      r := Ok(a);
    }

    /** Takes `n` slots off the end of the free list, or fails and takes none. */
    method Alloc(n: int) returns (r: Result<seq<Slot>>)
      modifies this
      ensures n <= 0 ==> r == Ok([]) && freeSlots == old(freeSlots)
      ensures n > |old(freeSlots)| ==> r == MemoryError && freeSlots == old(freeSlots)
      ensures 0 < n <= |old(freeSlots)| ==>
                r.Ok? && |r.value| == n && old(freeSlots) == freeSlots + r.value
    {
      if n <= 0 {
        return Ok([]);
      }
      if n > |freeSlots| {
        return MemoryError;
      }
      var k := |freeSlots| - n;
      r := Ok(freeSlots[k..]);
      freeSlots := freeSlots[..k];
    }

    method Free(indices: seq<Slot>)
      modifies this
      ensures freeSlots == old(freeSlots) + indices
    {
      freeSlots := freeSlots + indices;
    }

    method AvailableSize() returns (n: nat)
      ensures n == |freeSlots|
    {
      n := |freeSlots|;
    }

    /** Puts every slot back on the free list. */
    method Clear()
      modifies this
      ensures freeSlots == Descending(poolSize)
    {
      freeSlots := Descending(poolSize);
    }
  }
}
