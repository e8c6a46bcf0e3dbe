/** The scatter of new keys and values into the paged caches, thread by thread and under any schedule. */
module ReshapeAndCache {
  import opened Results
  import opened Schedules
  import opened Strides
  import opened CacheLayout

  /** New tokens: their keys and values, row by row, and the slot of each; a negative slot is skipped. */
  datatype Batch<V> = Batch(g: Shape, key: seq<V>, value: seq<V>, keyStride: nat, valueStride: nat, slots: seq<int>)

  ghost predicate BatchOk<V>(b: Batch<V>) {
    && ShapeOk(b.g)
    && (forall t, i | 0 <= t < |b.slots| && 0 <= i < Width(b.g) :: Given(b, t, i))
    && (forall t | 0 <= t < |b.slots| :: b.slots[t] < Slots(b.g))
  }

  /** Element `i` of token `t` lies within the inputs. */
  ghost predicate Given<V>(b: Batch<V>, t: nat, i: nat) {
    t * b.keyStride + i < |b.key| && t * b.valueStride + i < |b.value|
  }

  ghost function Item<V>(b: Batch<V>, t: nat, i: nat, keys: bool): V
    requires Given(b, t, i)
  {
    if keys then b.key[t * b.keyStride + i] else b.value[t * b.valueStride + i]
  }

  /** No two tokens that are stored share a slot. */
  ghost predicate DistinctSlots<V>(b: Batch<V>) {
    forall t, u | 0 <= t < u < |b.slots| && b.slots[t] >= 0 :: b.slots[t] != b.slots[u]
  }

  /** Where the kernel puts element `i` of a slot: key cache first, value cache behind it. */
  datatype Layout = Paged | Flash

  ghost function KeyCell(y: Layout, g: Shape, slot: nat, i: nat): int
    requires ShapeOk(g)
  {
    if y.Paged? then KeyAddr(g, slot, i) else FlashAddr(g, slot, i)
  }

  ghost function ValueCell(y: Layout, g: Shape, slot: nat, i: nat): int
    requires ShapeOk(g)
  {
    CacheSize(g) + if y.Paged? then ValueAddr(g, slot, i) else FlashAddr(g, slot, i)
  }

  lemma CellsApart(y: Layout, g: Shape, s: nat, i: nat, t: nat, j: nat)
    requires ShapeOk(g) && i < Width(g) && j < Width(g) && s < Slots(g) && t < Slots(g)
    ensures 0 <= KeyCell(y, g, s, i) < CacheSize(g) <= ValueCell(y, g, s, i) < 2 * CacheSize(g)
    ensures KeyCell(y, g, s, i) != ValueCell(y, g, t, j)
    ensures KeyCell(y, g, s, i) == KeyCell(y, g, t, j) ==> s == t && i == j
    ensures ValueCell(y, g, s, i) == ValueCell(y, g, t, j) ==> s == t && i == j
  {
    AddrsInBounds(g, s, i);
    AddrsInBounds(g, t, j);
    hide ShapeOk, KeyAddr, ValueAddr, FlashAddr, CacheSize;
    if y.Paged? {
      if KeyAddr(g, s, i) == KeyAddr(g, t, j) {
        KeyInjective(g, s, i, t, j);
      }
      if ValueAddr(g, s, i) == ValueAddr(g, t, j) {
        ValueInjective(g, s, i, t, j);
      }
    } else if FlashAddr(g, s, i) == FlashAddr(g, t, j) {
      FlashInjective(g, s, i, t, j);
    }
  }

  // ---------------------------------------------------------------- programs

  /** Element stored on turn `k` of thread `tid`: keys on even turns, values on odd ones. */
  ghost function Store<V>(y: Layout, b: Batch<V>, token: nat, i: nat, keys: bool): (a: Action<V, ()>)
    requires BatchOk(b) && token < |b.slots| && b.slots[token] >= 0 && i < Width(b.g)
    ensures a.srcs == [] && a.dst == Some(if keys then KeyCell(y, b.g, b.slots[token], i) else ValueCell(y, b.g, b.slots[token], i))
    ensures Given(b, token, i) && a.out(()) == Item(b, token, i, keys)
  {
    CellsApart(y, b.g, b.slots[token], i, b.slots[token], i);
    assert Given(b, token, i);
    Put(if keys then KeyCell(y, b.g, b.slots[token], i) else ValueCell(y, b.g, b.slots[token], i), Item(b, token, i, keys))
  }

  /** What thread `tid` of the group of one token does. */
  ghost function ThreadProgram<V>(y: Layout, b: Batch<V>, token: nat, tid: nat, threads: nat): (p: Program<V, ()>)
    requires BatchOk(b) && token < |b.slots| && tid < threads
  {
    if b.slots[token] < 0 then []
    else
      seq(2 * Turns(tid, Width(b.g), threads), k requires 0 <= k < 2 * Turns(tid, Width(b.g), threads) =>
        (TurnsBound(tid, Width(b.g), threads, k / 2);
         Store(y, b, token, Visit(tid, k / 2, threads), k % 2 == 0)))
  }

  ghost function ThreadCount<V>(b: Batch<V>, threads: nat): nat { |b.slots| * threads }

  /** One group of `threads` threads for each token. */
  ghost function Programs<V>(y: Layout, b: Batch<V>, threads: nat): (r: seq<Program<V, ()>>)
    requires BatchOk(b) && threads > 0
    ensures |r| == ThreadCount(b, threads)
  {
    seq(ThreadCount(b, threads), u requires 0 <= u < ThreadCount(b, threads) =>
      (GroupBelow(u, |b.slots|, threads); ThreadProgram(y, b, GroupOf(u, threads), TidOf(u, threads), threads)))
  }

  lemma ProgramAt<V>(y: Layout, b: Batch<V>, threads: nat, u: nat)
    requires BatchOk(b) && threads > 0 && u < |Programs(y, b, threads)|
    ensures GroupOf(u, threads) < |b.slots| && TidOf(u, threads) < threads
    ensures Programs(y, b, threads)[u] == ThreadProgram(y, b, GroupOf(u, threads), TidOf(u, threads), threads)
  {
    GroupBelow(u, |b.slots|, threads);
  }

  /** Action `k` of a program, by what it stores. */
  lemma ActionAt<V>(y: Layout, b: Batch<V>, token: nat, tid: nat, threads: nat, k: nat) returns (i: nat)
    requires BatchOk(b) && token < |b.slots| && tid < threads && k < |ThreadProgram(y, b, token, tid, threads)|
    ensures b.slots[token] >= 0 && i == Visit(tid, k / 2, threads) < Width(b.g)
    ensures ThreadProgram(y, b, token, tid, threads)[k] == Store(y, b, token, i, k % 2 == 0)
  {
    TurnsBound(tid, Width(b.g), threads, k / 2);
    i := Visit(tid, k / 2, threads);
  }

  /** Two actions that write the same cell are the same action of the same thread. */
  lemma StoresApart<V>(y: Layout, b: Batch<V>, t: nat, x: nat, k: nat, u: nat, z: nat, l: nat, threads: nat)
    requires BatchOk(b) && DistinctSlots(b) && t < |b.slots| && u < |b.slots| && x < threads && z < threads
    requires k < |ThreadProgram(y, b, t, x, threads)| && l < |ThreadProgram(y, b, u, z, threads)|
    requires ThreadProgram(y, b, t, x, threads)[k].dst == ThreadProgram(y, b, u, z, threads)[l].dst
    ensures t == u && x == z && k == l
  {
    hide ShapeOk, Store, KeyCell, ValueCell, ThreadProgram;
    var i := ActionAt(y, b, t, x, threads, k);
    var j := ActionAt(y, b, u, z, threads, l);
    CellsApart(y, b.g, b.slots[t], i, b.slots[u], j);
    CellsApart(y, b.g, b.slots[u], j, b.slots[t], i);
    VisitedOnce(x, k / 2, z, l / 2, threads);
  }

  lemma ThreadsClear<V>(y: Layout, b: Batch<V>, t: nat, x: nat, k: nat, u: nat, z: nat, l: nat, threads: nat)
    requires BatchOk(b) && DistinctSlots(b) && t < |b.slots| && u < |b.slots| && x < threads && z < threads
    requires k < |ThreadProgram(y, b, t, x, threads)| && l < |ThreadProgram(y, b, u, z, threads)| && (t != u || x != z)
    ensures ThreadProgram(y, b, t, x, threads)[k].dst.Some?
    ensures Clear(ThreadProgram(y, b, t, x, threads)[k].dst.value, ThreadProgram(y, b, u, z, threads)[l])
  {
    hide BatchOk, DistinctSlots, ThreadProgram;
    var i := ActionAt(y, b, t, x, threads, k);
    var j := ActionAt(y, b, u, z, threads, l);
    if ThreadProgram(y, b, u, z, threads)[l].dst == ThreadProgram(y, b, t, x, threads)[k].dst {
      StoresApart(y, b, t, x, k, u, z, l, threads);
    }
  }

  lemma ProgramsClear<V>(y: Layout, b: Batch<V>, threads: nat, t: nat, u: nat, k: nat, l: nat)
    requires BatchOk(b) && DistinctSlots(b) && threads > 0 && t != u && t < |Programs(y, b, threads)| && u < |Programs(y, b, threads)|
    requires k < |Programs(y, b, threads)[t]| && l < |Programs(y, b, threads)[u]| && Programs(y, b, threads)[t][k].dst.Some?
    ensures Clear(Programs(y, b, threads)[t][k].dst.value, Programs(y, b, threads)[u][l])
  {
    hide BatchOk, DistinctSlots, ThreadProgram, Programs, Clear, GroupOf, TidOf, ThreadCount;
    ProgramAt(y, b, threads, t);
    ProgramAt(y, b, threads, u);
    if GroupOf(t, threads) == GroupOf(u, threads) && TidOf(t, threads) == TidOf(u, threads) {
      SameThread(t, u, threads);
    }
    ThreadsClear(y, b, GroupOf(t, threads), TidOf(t, threads), k, GroupOf(u, threads), TidOf(u, threads), l, threads);
  }

  lemma ProgramsRaceFree<V>(y: Layout, b: Batch<V>, threads: nat)
    requires BatchOk(b) && DistinctSlots(b) && threads > 0
    ensures RaceFree(Programs(y, b, threads))
    ensures forall u | 0 <= u < |Programs(y, b, threads)| :: InRange(Programs(y, b, threads)[u], 2 * CacheSize(b.g))
  {
    var progs: seq<Program<V, ()>> := Programs(y, b, threads);
    hide BatchOk, DistinctSlots, ThreadProgram, Programs, InRange, Clear, GroupOf, TidOf, ThreadCount;
    forall t, u, k, l | 0 <= t < |progs| && 0 <= u < |progs| && t != u && 0 <= k < |progs[t]| && 0 <= l < |progs[u]| && progs[t][k].dst.Some?
      ensures Clear(progs[t][k].dst.value, progs[u][l])
    {
      ProgramsClear(y, b, threads, t, u, k, l);
    }
    forall u | 0 <= u < |progs| ensures InRange(progs[u], 2 * CacheSize(b.g)) {
      ProgramAt(y, b, threads, u);
      ProgramInRange(y, b, GroupOf(u, threads), TidOf(u, threads), threads);
    }
  }

  lemma ProgramInRange<V>(y: Layout, b: Batch<V>, token: nat, tid: nat, threads: nat)
    requires BatchOk(b) && token < |b.slots| && tid < threads
    ensures InRange(ThreadProgram(y, b, token, tid, threads), 2 * CacheSize(b.g))
  {
    var p := ThreadProgram(y, b, token, tid, threads);
    forall k | 0 <= k < |p| ensures p[k].dst.Some? && p[k].dst.value < 2 * CacheSize(b.g) && p[k].srcs == [] {
      var i := ActionAt(y, b, token, tid, threads, k);
      CellsApart(y, b.g, b.slots[token], i, b.slots[token], i);
    }
  }

  // ---------------------------------------------------------------- the result

  /** The sequential, nested-index result: every stored token's elements in place, nothing else changed. */
  ghost predicate Stored<V>(y: Layout, b: Batch<V>, before: seq<V>, after: seq<V>)
    requires BatchOk(b)
  {
    && |after| == |before| == 2 * CacheSize(b.g)
    && (forall t, i | 0 <= t < |b.slots| && b.slots[t] >= 0 && 0 <= i < Width(b.g) ::
          && 0 <= KeyCell(y, b.g, b.slots[t], i) < |after| && 0 <= ValueCell(y, b.g, b.slots[t], i) < |after|
          && Given(b, t, i)
          && after[KeyCell(y, b.g, b.slots[t], i)] == Item(b, t, i, true)
          && after[ValueCell(y, b.g, b.slots[t], i)] == Item(b, t, i, false))
    && (forall a | 0 <= a < |after| && Untouched(y, b, a) :: after[a] == before[a])
  }

  ghost predicate Untouched<V>(y: Layout, b: Batch<V>, a: int)
    requires BatchOk(b)
  {
    forall t, i | 0 <= t < |b.slots| && b.slots[t] >= 0 && 0 <= i < Width(b.g) ::
      a != KeyCell(y, b.g, b.slots[t], i) && a != ValueCell(y, b.g, b.slots[t], i)
  }

  /** The action that stores element `i` of a token is reached by exactly the thread `i % threads`. */
  lemma StoredBy<V>(y: Layout, b: Batch<V>, threads: nat, token: nat, i: nat, keys: bool) returns (u: nat, k: nat)
    requires BatchOk(b) && threads > 0 && token < |b.slots| && b.slots[token] >= 0 && i < Width(b.g)
    ensures u < |Programs(y, b, threads)| && k < |Programs(y, b, threads)[u]| && GroupOf(u, threads) == token && TidOf(u, threads) < threads
    ensures Programs(y, b, threads)[u] == ThreadProgram(y, b, GroupOf(u, threads), TidOf(u, threads), threads)
    ensures Programs(y, b, threads)[u][k] == Store(y, b, token, i, keys)
  {
    var tid, turn := i % threads, i / threads;
    VisitedBy(i, Width(b.g), threads);
    u, k := Digits(token, threads, tid), 2 * turn + if keys then 0 else 1;
    DigitsBelow(token, tid, |b.slots|, threads);
    DigitsOf(token, tid, threads);
    assert Programs(y, b, threads)[u] == ThreadProgram(y, b, token, tid, threads);
    var j := ActionAt(y, b, token, tid, threads, k);
  }

  lemma WrittenCell<V>(y: Layout, b: Batch<V>, threads: nat, mem: seq<V>, sched: seq<nat>, token: nat, i: nat, keys: bool)
    requires BatchOk(b) && DistinctSlots(b) && threads > 0 && |mem| == 2 * CacheSize(b.g)
    requires RaceFree(Programs(y, b, threads)) && forall u | 0 <= u < |Programs(y, b, threads)| :: InRange(Programs(y, b, threads)[u], |mem|)
    requires Complete(Programs(y, b, threads), Run(y, b, threads, mem, sched))
    requires token < |b.slots| && b.slots[token] >= 0 && i < Width(b.g)
    ensures var a := Store(y, b, token, i, keys); a.dst.value < |mem| && Run(y, b, threads, mem, sched).mem[a.dst.value] == a.out(())
  {
    hide BatchOk, DistinctSlots, ThreadProgram, Store, RaceFree, InRange, Programs, Clear, GroupOf, TidOf, ThreadCount, CacheSize, Width;
    var u, k := StoredBy(y, b, threads, token, i, keys);
    var progs: seq<Program<V, ()>> := Programs(y, b, threads);
    assert InRange(progs[u], |mem|);
    OnlyWrite(y, b, threads, u, k);
    InRangeAt(progs[u], |mem|, k);
    FinalWrite(progs, mem, Units(|progs|), sched, u, k);
    OneUnit(Alone(progs[u][..k + 1], Units(|progs|)[u], mem).0);
  }

  lemma OnlyWrite<V>(y: Layout, b: Batch<V>, threads: nat, u: nat, k: nat)
    requires BatchOk(b) && DistinctSlots(b) && threads > 0 && u < |Programs(y, b, threads)| && k < |Programs(y, b, threads)[u]|
    ensures forall j | k < j < |Programs(y, b, threads)[u]| :: Programs(y, b, threads)[u][j].dst != Programs(y, b, threads)[u][k].dst
  {
    hide BatchOk, DistinctSlots, ThreadProgram, Programs, GroupOf, TidOf, ThreadCount;
    ProgramAt(y, b, threads, u);
    var p: Program<V, ()> := Programs(y, b, threads)[u];
    forall j | k < j < |p| ensures p[j].dst != p[k].dst {
      if p[j].dst == p[k].dst {
        StoresApart(y, b, GroupOf(u, threads), TidOf(u, threads), j, GroupOf(u, threads), TidOf(u, threads), k, threads);
      }
    }
  }

  lemma InRangeAt<V, L>(p: Program<V, L>, n: nat, k: nat)
    requires InRange(p, n) && k < |p| && p[k].dst.Some?
    ensures p[k].dst.value < n
  {
  }

  ghost function Units(n: nat): (r: seq<()>)
    ensures |r| == n
  {
    seq(n, _ => ())
  }

  ghost function Run<V>(y: Layout, b: Batch<V>, threads: nat, mem: seq<V>, sched: seq<nat>): (m: Machine<V, ()>)
    requires BatchOk(b) && threads > 0
    requires forall u | 0 <= u < |Programs(y, b, threads)| :: InRange(Programs(y, b, threads)[u], |mem|)
    ensures Consistent(Programs(y, b, threads), m) && |m.mem| == |mem|
  {
    var progs: seq<Program<V, ()>> := Programs(y, b, threads);
    Scheduled(progs, Begin(progs, mem, Units(|progs|)), sched)
  }

  /**
    With distinct slots, any interleaving of all threads, for any group size, stores every token
    with a non-negative slot and changes nothing else.
   */
  lemma AnyScheduleStores<V>(y: Layout, b: Batch<V>, threads: nat, mem: seq<V>, sched: seq<nat>)
    requires BatchOk(b) && DistinctSlots(b) && threads > 0 && |mem| == 2 * CacheSize(b.g)
    ensures forall u | 0 <= u < |Programs(y, b, threads)| :: InRange(Programs(y, b, threads)[u], |mem|)
    ensures Complete(Programs(y, b, threads), Run(y, b, threads, mem, sched)) ==>
              Stored(y, b, mem, Run(y, b, threads, mem, sched).mem)
  {
    ProgramsRaceFree(y, b, threads);
    hide DistinctSlots, ThreadProgram, Store, RaceFree, InRange, Programs, KeyCell, ValueCell, Width;
    var progs: seq<Program<V, ()>> := Programs(y, b, threads);
    if Complete(progs, Run(y, b, threads, mem, sched)) {
      var after := Run(y, b, threads, mem, sched).mem;
      forall t, i | 0 <= t < |b.slots| && b.slots[t] >= 0 && 0 <= i < Width(b.g)
        ensures 0 <= KeyCell(y, b.g, b.slots[t], i) < |after| && 0 <= ValueCell(y, b.g, b.slots[t], i) < |after|
        ensures Given(b, t, i)
        ensures after[KeyCell(y, b.g, b.slots[t], i)] == Item(b, t, i, true)
        ensures after[ValueCell(y, b.g, b.slots[t], i)] == Item(b, t, i, false)
      {
        CellsApart(y, b.g, b.slots[t], i, b.slots[t], i);
        WrittenCell(y, b, threads, mem, sched, t, i, true);
        WrittenCell(y, b, threads, mem, sched, t, i, false);
      }
      forall a | 0 <= a < |after| && Untouched(y, b, a) ensures after[a] == mem[a] {
        forall u | 0 <= u < |progs| ensures !Writes(progs[u], a) {
          NotWritten(y, b, threads, u, a);
        }
        AnySchedule(progs, mem, Units(|progs|), sched);
      }
    }
  }

  lemma NotWritten<V>(y: Layout, b: Batch<V>, threads: nat, u: nat, a: nat)
    requires BatchOk(b) && threads > 0 && u < |Programs(y, b, threads)| && Untouched(y, b, a)
    ensures !Writes(Programs(y, b, threads)[u], a)
  {
    GroupBelow(u, |b.slots|, threads);
    var p := Programs(y, b, threads)[u];
    assert p == ThreadProgram(y, b, GroupOf(u, threads), TidOf(u, threads), threads);
    hide ThreadProgram, Store, Programs;
    forall k | 0 <= k < |p| ensures p[k].dst != Some(a) {
      var i := ActionAt(y, b, GroupOf(u, threads), TidOf(u, threads), threads, k);
    }
  }

  /**
    Write, then paged read: whatever the attention kernel reads through a block table entry and an offset is
    the element of the token that was stored in that slot, in both caches.
   */
  lemma ReadsBack<V>(b: Batch<V>, before: seq<V>, after: seq<V>, token: nat, block: nat, t: nat, head: nat, d: nat)
    requires BatchOk(b) && Stored(Paged, b, before, after) && token < |b.slots|
    requires t < b.g.blockSize && b.slots[token] == block * b.g.blockSize + t && head < b.g.heads && d < b.g.headSize
    ensures head * b.g.headSize + d < Width(b.g) && Given(b, token, head * b.g.headSize + d)
    ensures var k := KernelKeyAddr(b.g, b.g.x, block, head, t, d);
            0 <= k < CacheSize(b.g) && after[k] == Item(b, token, head * b.g.headSize + d, true)
    ensures var v := KernelValueAddr(b.g, block, head, t, d);
            0 <= v < CacheSize(b.g) && after[CacheSize(b.g) + v] == Item(b, token, head * b.g.headSize + d, false)
  {
    DigitsBelow(head, d, b.g.heads, b.g.headSize);
    var i := head * b.g.headSize + d;
    assert i == Digits(head, b.g.headSize, d);
    BatchGives(b, token, i);
    KeyReadBack(b.g, block, head, t, d);
    ValueReadBack(b.g, block, head, t, d);
    CellsApart(Paged, b.g, b.slots[token], i, b.slots[token], i);
    hide KernelKeyAddr, KernelValueAddr, KeyAddr, ValueAddr, BatchOk, Width, CacheSize;
  }

  // ---------------------------------------------------------------- the kernels, one thread at a time

  method KeyIndex(g: Shape, slot: nat, i: nat) returns (r: int)
    requires ShapeOk(g)
    ensures r == KeyAddr(g, slot, i)
  {
    var blockIdx, blockOffset := slot / g.blockSize, slot % g.blockSize;
    var headIdx, headOffset := i / g.headSize, i % g.headSize;
    var xIdx, xOffset := headOffset / g.x, headOffset % g.x;
    r := blockIdx * (g.heads * (g.headSize / g.x) * g.blockSize * g.x) + headIdx * (g.headSize / g.x * g.blockSize * g.x)
       + xIdx * (g.blockSize * g.x) + blockOffset * g.x + xOffset;
  }

  method ValueIndex(g: Shape, slot: nat, i: nat) returns (r: int)
    requires ShapeOk(g)
    ensures r == ValueAddr(g, slot, i)
  {
    var blockIdx, blockOffset := slot / g.blockSize, slot % g.blockSize;
    var headIdx, headOffset := i / g.headSize, i % g.headSize;
    r := blockIdx * (g.heads * g.headSize * g.blockSize) + headIdx * (g.headSize * g.blockSize)
       + headOffset * g.blockSize + blockOffset;
  }

  method FlashIndex(g: Shape, slot: nat, i: nat) returns (r: int)
    requires ShapeOk(g)
    ensures r == FlashAddr(g, slot, i)
  {
    var blockIdx, blockOffset := slot / g.blockSize, slot % g.blockSize;
    r := blockIdx * g.blockSize * g.heads * g.headSize + blockOffset * g.heads * g.headSize + i;
  }

  /** Both caches as the one memory the programs run on. */
  ghost function Caches<V>(keyCache: array<V>, valueCache: array<V>): seq<V>
    reads keyCache, valueCache
  {
    keyCache[..] + valueCache[..]
  }

  /** Writes one element of a token into both caches: turn `k` of a thread. */
  method StoreElement<V>(y: Layout, b: Batch<V>, keyCache: array<V>, valueCache: array<V>, token: nat, i: nat,
                         ghost tid: nat, ghost threads: nat, ghost k: nat, ghost before: seq<V>)
    requires BatchOk(b) && token < |b.slots| && b.slots[token] >= 0 && tid < threads && keyCache != valueCache
    requires keyCache.Length == valueCache.Length == CacheSize(b.g) && |before| == 2 * CacheSize(b.g)
    requires i == Visit(tid, k, threads) < Width(b.g)
    requires AfterTurns(y, b, token, tid, threads, k, before, Caches(keyCache, valueCache))
    modifies keyCache, valueCache
    ensures AfterTurns(y, b, token, tid, threads, k + 1, before, Caches(keyCache, valueCache))
  {
    hide BatchOk, ThreadProgram, AfterTurns, KeyAddr, ValueAddr, FlashAddr, CacheSize, Width, ShapeOk;
    var slot := b.slots[token];
    BatchGives(b, token, i);
    var keyIdx, valueIdx;
    if y == Paged {
      keyIdx := KeyIndex(b.g, slot, i);
      valueIdx := ValueIndex(b.g, slot, i);
    } else {
      keyIdx := FlashIndex(b.g, slot, i);
      valueIdx := FlashIndex(b.g, slot, i);
    }
    CellsApart(y, b.g, slot, i, slot, i);
    ghost var mem := Caches(keyCache, valueCache);
    keyCache[keyIdx] := b.key[token * b.keyStride + i];
    valueCache[valueIdx] := b.value[token * b.valueStride + i];
    ghost var n := CacheSize(b.g);
    assert Caches(keyCache, valueCache)
        == mem[keyIdx := b.key[token * b.keyStride + i]][n + valueIdx := b.value[token * b.valueStride + i]];
    TurnDone(y, b, token, i, tid, threads, k, before, mem);
  }

  lemma BatchGives<V>(b: Batch<V>, token: nat, i: nat)
    requires BatchOk(b) && token < |b.slots| && i < Width(b.g)
    ensures ShapeOk(b.g) && Given(b, token, i) && b.slots[token] < Slots(b.g)
  {
  }

  /** `mem` is what `k` turns of a thread make of `before`. */
  ghost predicate AfterTurns<V>(y: Layout, b: Batch<V>, token: nat, tid: nat, threads: nat, k: nat, before: seq<V>, mem: seq<V>)
    requires BatchOk(b) && token < |b.slots| && tid < threads
  {
    var p := ThreadProgram(y, b, token, tid, threads);
    2 * k <= |p| && InRange(p[..2 * k], |before|) && mem == Alone(p[..2 * k], (), before).1
  }

  /** The two actions of turn `k`. */
  lemma TurnActions<V>(y: Layout, b: Batch<V>, token: nat, i: nat, tid: nat, threads: nat, k: nat)
    requires BatchOk(b) && token < |b.slots| && b.slots[token] >= 0 && tid < threads && i == Visit(tid, k, threads) < Width(b.g)
    ensures Given(b, token, i) && 0 <= KeyCell(y, b.g, b.slots[token], i) && 0 <= ValueCell(y, b.g, b.slots[token], i)
    ensures var p := ThreadProgram(y, b, token, tid, threads);
            && 2 * k + 1 < |p|
            && p[2 * k].dst == Some(KeyCell(y, b.g, b.slots[token], i)) && p[2 * k].out(()) == Item(b, token, i, true)
            && p[2 * k + 1].dst == Some(ValueCell(y, b.g, b.slots[token], i)) && p[2 * k + 1].out(()) == Item(b, token, i, false)
  {
    TurnsBound(tid, Width(b.g), threads, k);
    CellsApart(y, b.g, b.slots[token], i, b.slots[token], i);
    var j := ActionAt(y, b, token, tid, threads, 2 * k);
    var l := ActionAt(y, b, token, tid, threads, 2 * k + 1);
  }

  lemma TurnDone<V>(y: Layout, b: Batch<V>, token: nat, i: nat, tid: nat, threads: nat, k: nat, before: seq<V>, mem: seq<V>)
    requires BatchOk(b) && token < |b.slots| && b.slots[token] >= 0 && tid < threads && i == Visit(tid, k, threads) < Width(b.g)
    requires |before| == 2 * CacheSize(b.g) && AfterTurns(y, b, token, tid, threads, k, before, mem)
    ensures var keyCell, valueCell := KeyCell(y, b.g, b.slots[token], i), ValueCell(y, b.g, b.slots[token], i);
            && 0 <= keyCell < |mem| && 0 <= valueCell < |mem| && Given(b, token, i)
            && AfterTurns(y, b, token, tid, threads, k + 1, before, mem[keyCell := Item(b, token, i, true)][valueCell := Item(b, token, i, false)])
  {
    var p := ThreadProgram(y, b, token, tid, threads);
    ProgramInRange(y, b, token, tid, threads);
    TurnActions(y, b, token, i, tid, threads, k);
    hide ThreadProgram, KeyCell, ValueCell, BatchOk, Width, Given, InRange, Visit, Alone, CacheSize;
    PutStep(p, before, 2 * k);
    PutStep(p, before, 2 * k + 1);
    assert 2 * (k + 1) == 2 * k + 1 + 1;
  }

  /** What one thread of the kernel does, turn by turn. */
  method CacheThread<V>(y: Layout, b: Batch<V>, keyCache: array<V>, valueCache: array<V>, token: nat, tid: nat, threads: nat)
    requires BatchOk(b) && token < |b.slots| && tid < threads && keyCache != valueCache
    requires keyCache.Length == valueCache.Length == CacheSize(b.g)
    modifies keyCache, valueCache
    ensures InRange(ThreadProgram(y, b, token, tid, threads), |old(Caches(keyCache, valueCache))|)
    ensures Caches(keyCache, valueCache)
         == Alone(ThreadProgram(y, b, token, tid, threads), (), old(Caches(keyCache, valueCache))).1
  {
    hide BatchOk, KeyAddr, ValueAddr, FlashAddr, CacheSize, ShapeOk, AfterTurns, ThreadProgram;
    ProgramInRange(y, b, token, tid, threads);
    if b.slots[token] < 0 {
      SkippedToken(y, b, token, tid, threads);
      return;
    }
    var n := b.g.heads * b.g.headSize;
    ghost var before, k := Caches(keyCache, valueCache), 0;
    NoTurns(y, b, token, tid, threads, before);
    var i := tid;
    while i < n
      invariant i == Visit(tid, k, threads)
      invariant AfterTurns(y, b, token, tid, threads, k, before, Caches(keyCache, valueCache))
    {
      StoreElement(y, b, keyCache, valueCache, token, i, tid, threads, k, before);
      assert k * threads + threads == (k + 1) * threads;
      i := i + threads;
      k := k + 1;
    }
    AllTurns(y, b, token, tid, threads, k, before, Caches(keyCache, valueCache));
  }

  lemma SkippedToken<V>(y: Layout, b: Batch<V>, token: nat, tid: nat, threads: nat)
    requires BatchOk(b) && token < |b.slots| && tid < threads && b.slots[token] < 0
    ensures ThreadProgram(y, b, token, tid, threads) == []
  {
  }

  lemma NoTurns<V>(y: Layout, b: Batch<V>, token: nat, tid: nat, threads: nat, before: seq<V>)
    requires BatchOk(b) && token < |b.slots| && tid < threads
    ensures AfterTurns(y, b, token, tid, threads, 0, before, before)
  {
  }

  lemma AllTurns<V>(y: Layout, b: Batch<V>, token: nat, tid: nat, threads: nat, k: nat, before: seq<V>, mem: seq<V>)
    requires BatchOk(b) && token < |b.slots| && tid < threads && b.slots[token] >= 0
    requires AfterTurns(y, b, token, tid, threads, k, before, mem) && Visit(tid, k, threads) >= Width(b.g)
    ensures InRange(ThreadProgram(y, b, token, tid, threads), |before|)
    ensures mem == Alone(ThreadProgram(y, b, token, tid, threads), (), before).1
  {
    var p := ThreadProgram(y, b, token, tid, threads);
    TurnsBound(tid, Width(b.g), threads, k);
    assert p[..2 * k] == p;
  }
}
