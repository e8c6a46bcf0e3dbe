/** Keys and values gathered through a block table: what the attention kernel reads is what was stored in the tokens' slots. */
module PagedGather {
  import opened Schedules
  import opened Strides
  import opened CacheLayout
  import opened ReshapeAndCache
  import opened Reductions
  import opened Attention
  import opened KernelLayout
  import opened PagedAttention

  /** The slot of token `i` of a sequence. */
  ghost function SlotOf(g: Shape, table: seq<nat>, i: nat): nat
    requires ShapeOk(g) && i / g.blockSize < |table|
  {
    table[i / g.blockSize] * g.blockSize + i % g.blockSize
  }

  /** The table has a physical block for each of the first `c` tokens. */
  ghost predicate TableOk(g: Shape, table: seq<nat>, c: nat)
    requires ShapeOk(g)
  {
    forall i | 0 <= i < c :: Mapped(g, table, i)
  }

  ghost predicate Mapped(g: Shape, table: seq<nat>, i: nat)
    requires ShapeOk(g)
  {
    i / g.blockSize < |table| && table[i / g.blockSize] < g.blocks
  }

  /** Every address the kernel forms for a token lies in its cache, and is where that slot's element is stored. */
  lemma GatherInBounds(g: Shape, table: seq<nat>, i: nat, head: nat, d: nat)
    requires ShapeOk(g) && Mapped(g, table, i) && head < g.heads && d < g.headSize
    ensures SlotOf(g, table, i) < Slots(g) && head * g.headSize + d < Width(g)
    ensures var k := KernelKeyAddr(g, g.x, table[i / g.blockSize], head, i % g.blockSize, d);
            0 <= k < CacheSize(g) && k == KeyAddr(g, SlotOf(g, table, i), head * g.headSize + d)
    ensures var v := KernelValueAddr(g, table[i / g.blockSize], head, i % g.blockSize, d);
            0 <= v < CacheSize(g) && v == ValueAddr(g, SlotOf(g, table, i), head * g.headSize + d)
  {
    var block, t := table[i / g.blockSize], i % g.blockSize;
    hide KernelKeyAddr, KernelValueAddr, KeyAddr, ValueAddr, CacheSize;
    DigitsBelow(block, t, g.blocks, g.blockSize);
    DigitsBelow(head, d, g.heads, g.headSize);
    KeyReadBack(g, block, head, t, d);
    ValueReadBack(g, block, head, t, d);
    AddrsInBounds(g, SlotOf(g, table, i), head * g.headSize + d);
  }

  /** What the kernel reads for token `i`: key and value elements of one head. */
  ghost function KeyRow(g: Shape, cache: seq<real>, table: seq<nat>, head: nat, i: nat): (r: seq<real>)
    requires ShapeOk(g) && |cache| == 2 * CacheSize(g) && Mapped(g, table, i) && head < g.heads
    ensures |r| == g.headSize
  {
    seq(g.headSize, d requires 0 <= d < g.headSize =>
          (GatherInBounds(g, table, i, head, d); cache[KernelKeyAddr(g, g.x, table[i / g.blockSize], head, i % g.blockSize, d)]))
  }

  ghost function GatheredValue(g: Shape, cache: seq<real>, table: seq<nat>, head: nat, i: nat, d: nat): real
    requires ShapeOk(g) && |cache| == 2 * CacheSize(g) && Mapped(g, table, i) && head < g.heads && d < g.headSize
  {
    GatherInBounds(g, table, i, head, d);
    cache[CacheSize(g) + KernelValueAddr(g, table[i / g.blockSize], head, i % g.blockSize, d)]
  }

  ghost function GatheredKeys(g: Shape, cache: seq<real>, table: seq<nat>, head: nat, c: nat): (r: seq<seq<real>>)
    requires ShapeOk(g) && |cache| == 2 * CacheSize(g) && TableOk(g, table, c) && head < g.heads
    ensures |r| == c
  {
    seq(c, i requires 0 <= i < c => (assert Mapped(g, table, i); KeyRow(g, cache, table, head, i)))
  }

  ghost function GatheredColumn(g: Shape, cache: seq<real>, table: seq<nat>, head: nat, c: nat, d: nat): (r: seq<real>)
    requires ShapeOk(g) && |cache| == 2 * CacheSize(g) && TableOk(g, table, c) && head < g.heads && d < g.headSize
    ensures |r| == c
  {
    seq(c, i requires 0 <= i < c => (assert Mapped(g, table, i); GatheredValue(g, cache, table, head, i, d)))
  }

  // ---------------------------------------------------------------- what the slots hold

  /** The slot holds this token's key and value, all heads. */
  ghost predicate Holds(g: Shape, cache: seq<real>, slot: nat, key: seq<real>, value: seq<real>)
    requires ShapeOk(g)
  {
    && |cache| == 2 * CacheSize(g) && |key| == |value| == Width(g)
    && forall i | 0 <= i < Width(g) :: HoldsElement(g, cache, slot, i, key[i], value[i])
  }

  ghost predicate HoldsElement(g: Shape, cache: seq<real>, slot: nat, i: nat, key: real, value: real)
    requires ShapeOk(g)
  {
    && 0 <= KeyCell(Paged, g, slot, i) < |cache| && cache[KeyCell(Paged, g, slot, i)] == key
    && 0 <= ValueCell(Paged, g, slot, i) < |cache| && cache[ValueCell(Paged, g, slot, i)] == value
  }

  ghost function ItemRow(b: Batch<real>, token: nat, keys: bool): (r: seq<real>)
    requires BatchOk(b) && token < |b.slots|
    ensures |r| == Width(b.g)
  {
    seq(Width(b.g), i requires 0 <= i < Width(b.g) => (BatchGives(b, token, i); Item(b, token, i, keys)))
  }

  /** A token's row is the next `Width` elements of its input from its stride on. */
  lemma RowIsSlice(b: Batch<real>, token: nat)
    requires BatchOk(b) && token < |b.slots|
    ensures token * b.keyStride + Width(b.g) <= |b.key| && token * b.valueStride + Width(b.g) <= |b.value|
    ensures ItemRow(b, token, true) == b.key[token * b.keyStride..token * b.keyStride + Width(b.g)]
    ensures ItemRow(b, token, false) == b.value[token * b.valueStride..token * b.valueStride + Width(b.g)]
  {
    MulMonotone(1, b.g.heads, b.g.headSize);
    BatchGives(b, token, Width(b.g) - 1);
  }

  /** After a scatter, each stored token's slot holds it. */
  lemma StoredHolds(b: Batch<real>, before: seq<real>, after: seq<real>, token: nat)
    requires BatchOk(b) && Stored(Paged, b, before, after) && token < |b.slots| && b.slots[token] >= 0
    ensures Holds(b.g, after, b.slots[token], ItemRow(b, token, true), ItemRow(b, token, false))
  {
    var key, value := ItemRow(b, token, true), ItemRow(b, token, false);
    hide ShapeOk, KeyCell, ValueCell, Width, Given, CacheSize;
    forall i | 0 <= i < Width(b.g) ensures HoldsElement(b.g, after, b.slots[token], i, key[i], value[i]) {
      assert Given(b, token, i);
    }
  }

  /** And every other slot holds what it held. */
  lemma StoredKeeps(b: Batch<real>, before: seq<real>, after: seq<real>, slot: nat, key: seq<real>, value: seq<real>)
    requires BatchOk(b) && Stored(Paged, b, before, after) && slot < Slots(b.g)
    requires Holds(b.g, before, slot, key, value) && slot !in b.slots
    ensures Holds(b.g, after, slot, key, value)
  {
    hide ShapeOk, KeyCell, ValueCell, Width, CacheSize, HoldsElement, Given, Slots, Item;
    forall i | 0 <= i < Width(b.g) ensures HoldsElement(b.g, after, slot, i, key[i], value[i]) {
      assert HoldsElement(b.g, before, slot, i, key[i], value[i]);
      SlotUntouched(b, slot, i);
      ElementKept(b, before, after, slot, i, key[i], value[i]);
    }
  }

  lemma SlotUntouched(b: Batch<real>, slot: nat, i: nat)
    requires BatchOk(b) && slot < Slots(b.g) && slot !in b.slots && i < Width(b.g)
    ensures Untouched(Paged, b, KeyCell(Paged, b.g, slot, i)) && Untouched(Paged, b, ValueCell(Paged, b.g, slot, i))
  {
    var g := b.g;
    hide ShapeOk, KeyCell, ValueCell, Width, CacheSize, Given, Slots;
    forall t, j | 0 <= t < |b.slots| && b.slots[t] >= 0 && 0 <= j < Width(g)
      ensures KeyCell(Paged, g, slot, i) != KeyCell(Paged, g, b.slots[t], j)
      ensures KeyCell(Paged, g, slot, i) != ValueCell(Paged, g, b.slots[t], j)
      ensures ValueCell(Paged, g, slot, i) != KeyCell(Paged, g, b.slots[t], j)
      ensures ValueCell(Paged, g, slot, i) != ValueCell(Paged, g, b.slots[t], j)
    {
      CellsApart(Paged, g, slot, i, b.slots[t], j);
      CellsApart(Paged, g, b.slots[t], j, slot, i);
    }
  }

  lemma ElementKept(b: Batch<real>, before: seq<real>, after: seq<real>, slot: nat, i: nat, key: real, value: real)
    requires BatchOk(b) && Stored(Paged, b, before, after)
    requires Untouched(Paged, b, KeyCell(Paged, b.g, slot, i)) && Untouched(Paged, b, ValueCell(Paged, b.g, slot, i))
    requires HoldsElement(b.g, before, slot, i, key, value)
    ensures HoldsElement(b.g, after, slot, i, key, value)
  {
    hide Untouched, KeyCell, ValueCell, ShapeOk;
  }

  // ---------------------------------------------------------------- store, then attend

  /** One head of a token's row. */
  ghost function HeadOf(g: Shape, row: seq<real>, head: nat): (r: seq<real>)
    requires ShapeOk(g) && |row| == Width(g) && head < g.heads
    ensures |r| == g.headSize
  {
    seq(g.headSize, d requires 0 <= d < g.headSize => (DigitsBelow(head, d, g.heads, g.headSize); row[head * g.headSize + d]))
  }

  /** The tokens of a sequence are in the slots its table names. */
  ghost predicate SequenceHeld(g: Shape, cache: seq<real>, table: seq<nat>, keys: seq<seq<real>>, values: seq<seq<real>>)
    requires ShapeOk(g)
  {
    && |keys| == |values| && |cache| == 2 * CacheSize(g) && TableOk(g, table, |keys|)
    && forall i | 0 <= i < |keys| :: Mapped(g, table, i) && Holds(g, cache, SlotOf(g, table, i), keys[i], values[i])
  }

  ghost function HeadKeys(g: Shape, rows: seq<seq<real>>, head: nat): (r: seq<seq<real>>)
    requires ShapeOk(g) && head < g.heads && forall i | 0 <= i < |rows| :: |rows[i]| == Width(g)
    ensures |r| == |rows|
  {
    seq(|rows|, i requires 0 <= i < |rows| => HeadOf(g, rows[i], head))
  }

  ghost function HeadColumn(g: Shape, rows: seq<seq<real>>, head: nat, d: nat): (r: seq<real>)
    requires ShapeOk(g) && head < g.heads && d < g.headSize && forall i | 0 <= i < |rows| :: |rows[i]| == Width(g)
    ensures |r| == |rows|
  {
    seq(|rows|, i requires 0 <= i < |rows| => HeadOf(g, rows[i], head)[d])
  }

  lemma HeldWidths(g: Shape, cache: seq<real>, table: seq<nat>, keys: seq<seq<real>>, values: seq<seq<real>>)
    requires ShapeOk(g) && SequenceHeld(g, cache, table, keys, values)
    ensures forall i | 0 <= i < |keys| :: |keys[i]| == |values[i]| == Width(g)
  {
    hide ShapeOk, HoldsElement;
    forall i | 0 <= i < |keys| ensures |keys[i]| == |values[i]| == Width(g) {
      assert Mapped(g, table, i) && Holds(g, cache, SlotOf(g, table, i), keys[i], values[i]);
    }
  }

  /** Reading one element through the table finds the stored one. */
  lemma GathersElement(g: Shape, cache: seq<real>, table: seq<nat>, head: nat, i: nat, d: nat, key: seq<real>, value: seq<real>)
    requires ShapeOk(g) && |cache| == 2 * CacheSize(g) && Mapped(g, table, i) && head < g.heads && d < g.headSize
    requires Holds(g, cache, SlotOf(g, table, i), key, value)
    ensures KeyRow(g, cache, table, head, i)[d] == HeadOf(g, key, head)[d]
    ensures GatheredValue(g, cache, table, head, i, d) == HeadOf(g, value, head)[d]
  {
    GatherInBounds(g, table, i, head, d);
    var e := head * g.headSize + d;
    assert HoldsElement(g, cache, SlotOf(g, table, i), e, key[e], value[e]);
    hide ShapeOk, KernelKeyAddr, KernelValueAddr, KeyAddr, ValueAddr, CacheSize, Mapped, Width, SlotOf;
  }

  /** Gathering recovers the stored tokens. */
  lemma GathersStored(g: Shape, cache: seq<real>, table: seq<nat>, head: nat, keys: seq<seq<real>>, values: seq<seq<real>>)
    requires ShapeOk(g) && SequenceHeld(g, cache, table, keys, values) && head < g.heads
    ensures forall i | 0 <= i < |keys| :: |keys[i]| == |values[i]| == Width(g)
    ensures GatheredKeys(g, cache, table, head, |keys|) == HeadKeys(g, keys, head)
    ensures forall d | 0 <= d < g.headSize :: GatheredColumn(g, cache, table, head, |keys|, d) == HeadColumn(g, values, head, d)
  {
    HeldWidths(g, cache, table, keys, values);
    var gathered, rows := GatheredKeys(g, cache, table, head, |keys|), HeadKeys(g, keys, head);
    hide ShapeOk, KeyRow, GatheredValue, HeadOf, Holds, SlotOf, Mapped, CacheSize, Width;
    forall i, d | 0 <= i < |keys| && 0 <= d < g.headSize
      ensures KeyRow(g, cache, table, head, i)[d] == HeadOf(g, keys[i], head)[d]
      ensures GatheredValue(g, cache, table, head, i, d) == HeadOf(g, values[i], head)[d]
    {
      assert Mapped(g, table, i);
      GathersElement(g, cache, table, head, i, d, keys[i], values[i]);
    }
    forall i | 0 <= i < |keys| ensures gathered[i] == rows[i] {
      assert KeyRow(g, cache, table, head, i) == HeadOf(g, keys[i], head);
    }
    forall d | 0 <= d < g.headSize
      ensures GatheredColumn(g, cache, table, head, |keys|, d) == HeadColumn(g, values, head, d)
    {
      var column, stored := GatheredColumn(g, cache, table, head, |keys|, d), HeadColumn(g, values, head, d);
      forall i | 0 <= i < |keys| ensures column[i] == stored[i] {
        assert Mapped(g, table, i);
      }
    }
  }

  // ---------------------------------------------------------------- which head a query head reads

  /** Query heads are shared out evenly, and this is one of them. */
  ghost predicate HeadsOk(heads: nat, kvHeads: nat, h: nat) {
    kvHeads > 0 && heads % kvHeads == 0 && h < heads
  }

  /** The key-value head that query head `h` reads. */
  ghost function KvHead(heads: nat, kvHeads: nat, h: nat): nat
    requires HeadsOk(heads, kvHeads, h)
  {
    HeadsPerKv(heads, kvHeads, h);
    h / (heads / kvHeads)
  }

  lemma HeadsPerKv(heads: nat, kvHeads: nat, h: nat)
    requires HeadsOk(heads, kvHeads, h)
    ensures heads / kvHeads > 0 && heads / kvHeads * kvHeads == heads
  {
    DivMod(heads, kvHeads);
  }

  /** Key-value head `head` serves one group of consecutive query heads, and `h` is of that group. */
  ghost predicate Serves(heads: nat, kvHeads: nat, head: nat, h: nat)
    requires kvHeads > 0
  {
    head * (heads / kvHeads) <= h < (head + 1) * (heads / kvHeads)
  }

  /** A query head reads the key-value head that serves it and no other; the groups are consecutive and of one size. */
  lemma KvHeadServes(heads: nat, kvHeads: nat, h: nat, head: nat)
    requires HeadsOk(heads, kvHeads, h)
    ensures KvHead(heads, kvHeads, h) < kvHeads
    ensures KvHead(heads, kvHeads, h) == head <==> Serves(heads, kvHeads, head, h)
  {
    HeadsPerKv(heads, kvHeads, h);
    var per, own := heads / kvHeads, h / (heads / kvHeads);
    DivMod(h, per);
    assert (own + 1) * per == own * per + per && (head + 1) * per == head * per + per;
    if own >= kvHeads {
      MulMonotone(kvHeads, own, per);
    }
    if Serves(heads, kvHeads, head, h) {
      DigitsOf(head, h - head * per, per);
    }
  }

  /** The kernel's task for a query head that reads key-value head `head`: it reads everything through the table. */
  ghost function PagedTask(k: Kernel, a: Query, g: Shape, cache: seq<real>, table: seq<nat>, head: nat, c: nat): Task
    requires ShapeOk(g) && |cache| == 2 * CacheSize(g) && TableOk(g, table, c) && head < g.heads
  {
    Task(k, a, GatheredKeys(g, cache, table, head, c),
         seq(g.headSize, d requires 0 <= d < g.headSize => GatheredColumn(g, cache, table, head, c, d)))
  }

  /** The context fits and every score is a proper one. */
  ghost predicate AttendOk(k: Kernel, a: Query, g: Shape, keys: seq<seq<real>>, head: nat)
    requires ShapeOk(g) && head < g.heads
  {
    && KernelOk(k) && k.headSize == g.headSize && 0 < |keys| <= k.maxSeq && ExpOk(a.exp) && |a.q| == k.headSize
    && (forall i | 0 <= i < |keys| :: |keys[i]| == Width(g)) && ScoresOk(a, HeadKeys(g, keys, head))
  }

  /** Every run of the kernel for query head `h` over what it reads through the table. */
  ghost predicate PagedRun(k: Kernel, a: Query, g: Shape, cache: seq<real>, table: seq<nat>, heads: nat, h: nat, c: nat, r: Trace)
    requires ShapeOk(g) && |cache| == 2 * CacheSize(g) && TableOk(g, table, c) && HeadsOk(heads, g.heads, h)
  {
    KvHeadServes(heads, g.heads, h, 0);
    var t := PagedTask(k, a, g, cache, table, KvHead(heads, g.heads, h), c);
    TaskOk(t) && IsRun(t, r)
  }

  lemma PagedTaskOk(k: Kernel, a: Query, g: Shape, cache: seq<real>, table: seq<nat>, head: nat,
                    keys: seq<seq<real>>, values: seq<seq<real>>)
    requires ShapeOk(g) && SequenceHeld(g, cache, table, keys, values) && head < g.heads && AttendOk(k, a, g, keys, head)
    ensures forall i | 0 <= i < |keys| :: |keys[i]| == |values[i]| == Width(g)
    ensures var t := PagedTask(k, a, g, cache, table, head, |keys|);
            && TaskOk(t) && t.k == k && t.a == a && t.keys == HeadKeys(g, keys, head)
            && |t.columns| == g.headSize && forall d | 0 <= d < g.headSize :: t.columns[d] == HeadColumn(g, values, head, d)
  {
    GathersStored(g, cache, table, head, keys, values);
    hide ShapeOk, SequenceHeld, KernelOk, ExpOk, ScoresOk, HeadKeys, GatheredKeys, GatheredColumn, HeadColumn, Width;
  }

  /**
    If the slots of a sequence hold its tokens, every run of the kernel leaves in the output row dense
    attention over those tokens' keys and values, for the key-value head that serves the query head.
   */
  lemma AttendsToStored(k: Kernel, a: Query, g: Shape, cache: seq<real>, table: seq<nat>, heads: nat, h: nat, head: nat,
                        keys: seq<seq<real>>, values: seq<seq<real>>, r: Trace, d: nat)
    requires ShapeOk(g) && SequenceHeld(g, cache, table, keys, values) && HeadsOk(heads, g.heads, h)
    requires head < g.heads && Serves(heads, g.heads, head, h) && AttendOk(k, a, g, keys, head)
    requires PagedRun(k, a, g, cache, table, heads, h, |keys|, r) && d < k.headSize
    ensures |r.end| == Cells(k) && forall i | 0 <= i < |keys| :: |keys[i]| == |values[i]| == Width(g)
    ensures Fold(Sum, Shifted(a, Scores(a, HeadKeys(g, keys, head)))) + EPSILON != 0.0
    ensures r.end[RowCell(k, d)] == Dense(a, HeadKeys(g, keys, head), HeadColumn(g, values, head, d))
  {
    KvHeadServes(heads, g.heads, h, head);
    PagedTaskOk(k, a, g, cache, table, head, keys, values);
    hide ShapeOk, SequenceHeld, HeadsOk, Serves, KvHead, TaskOk, IsRun, HeadKeys, HeadColumn, PagedTask, Dense, Fold, Shifted, Scores, ScoresOk, KernelOk, ExpOk;
    KernelIsDense(PagedTask(k, a, g, cache, table, head, |keys|), r);
  }

  // ---------------------------------------------------------------- one kernel after the other

  /** Some complete interleaving of the scatter kernel leads from `before` to `after`. */
  ghost predicate Scattered(b: Batch<real>, threads: nat, before: seq<real>, after: seq<real>) {
    && BatchOk(b) && DistinctSlots(b) && threads > 0 && |before| == 2 * CacheSize(b.g)
    && (forall u | 0 <= u < |Programs(Paged, b, threads)| :: InRange(Programs(Paged, b, threads)[u], |before|))
    && exists sched :: Scatters(b, threads, before, sched, after)
  }

  ghost predicate Scatters(b: Batch<real>, threads: nat, before: seq<real>, sched: seq<nat>, after: seq<real>)
    requires BatchOk(b) && threads > 0
    requires forall u | 0 <= u < |Programs(Paged, b, threads)| :: InRange(Programs(Paged, b, threads)[u], |before|)
  {
    Complete(Programs(Paged, b, threads), Run(Paged, b, threads, before, sched)) && after == Run(Paged, b, threads, before, sched).mem
  }

  /** The token is one of the batch for this slot, or the slot held it already and gets no other. */
  ghost predicate Supplied(b: Batch<real>, before: seq<real>, slot: nat, key: seq<real>, value: seq<real>)
    requires BatchOk(b)
  {
    || (exists t: nat :: t < |b.slots| && b.slots[t] == slot && key == ItemRow(b, t, true) && value == ItemRow(b, t, false))
    || (slot !in b.slots && Holds(b.g, before, slot, key, value))
  }

  lemma SuppliedHolds(b: Batch<real>, before: seq<real>, after: seq<real>, slot: nat, key: seq<real>, value: seq<real>)
    requires BatchOk(b) && Stored(Paged, b, before, after) && slot < Slots(b.g) && Supplied(b, before, slot, key, value)
    ensures Holds(b.g, after, slot, key, value)
  {
    hide Stored, Holds, ItemRow, Slots;
    if slot !in b.slots {
      StoredKeeps(b, before, after, slot, key, value);
    } else {
      var t: nat :| t < |b.slots| && b.slots[t] == slot && key == ItemRow(b, t, true) && value == ItemRow(b, t, false);
      StoredHolds(b, before, after, t);
    }
  }

  /** Every token of a sequence is supplied: by this batch, or by an earlier one. */
  ghost predicate SequenceSupplied(b: Batch<real>, before: seq<real>, table: seq<nat>, keys: seq<seq<real>>, values: seq<seq<real>>)
    requires BatchOk(b)
  {
    && |keys| == |values| && TableOk(b.g, table, |keys|)
    && forall i | 0 <= i < |keys| :: Mapped(b.g, table, i) && Supplied(b, before, SlotOf(b.g, table, i), keys[i], values[i])
  }

  /** After a scatter, under any interleaving, the sequence is in its slots. */
  lemma ScatterHolds(b: Batch<real>, threads: nat, before: seq<real>, after: seq<real>, table: seq<nat>,
                     keys: seq<seq<real>>, values: seq<seq<real>>)
    requires Scattered(b, threads, before, after) && SequenceSupplied(b, before, table, keys, values)
    ensures ShapeOk(b.g) && SequenceHeld(b.g, after, table, keys, values)
  {
    ScatterStores(b, threads, before, after);
    hide Scattered, Stored, BatchOk, Holds, Supplied, ShapeOk, Slots;
    forall i | 0 <= i < |keys| ensures Mapped(b.g, table, i) && Holds(b.g, after, SlotOf(b.g, table, i), keys[i], values[i]) {
      assert Mapped(b.g, table, i) && Supplied(b, before, SlotOf(b.g, table, i), keys[i], values[i]);
      SlotIn(b.g, table, i);
      SuppliedHolds(b, before, after, SlotOf(b.g, table, i), keys[i], values[i]);
    }
  }

  lemma SlotIn(g: Shape, table: seq<nat>, i: nat)
    requires ShapeOk(g) && Mapped(g, table, i)
    ensures SlotOf(g, table, i) < Slots(g)
  {
    DigitsBelow(table[i / g.blockSize], i % g.blockSize, g.blocks, g.blockSize);
  }

  lemma ScatterStores(b: Batch<real>, threads: nat, before: seq<real>, after: seq<real>)
    requires Scattered(b, threads, before, after)
    ensures BatchOk(b) && ShapeOk(b.g) && |after| == 2 * CacheSize(b.g) && Stored(Paged, b, before, after)
  {
    hide Stored, Programs, DistinctSlots, InRange;
    var sched :| Scatters(b, threads, before, sched, after);
    AnyScheduleStores(Paged, b, threads, before, sched);
  }

  /**
    Store, then attend: whatever the interleavings of the scatter kernel and of every interval of the attention kernel,
    the output row is dense attention over the sequence's tokens, those just stored and those stored before.
   */
  lemma StoreThenAttend(b: Batch<real>, threads: nat, before: seq<real>, after: seq<real>, k: Kernel, a: Query, table: seq<nat>,
                        heads: nat, h: nat, head: nat, keys: seq<seq<real>>, values: seq<seq<real>>, r: Trace, d: nat)
    requires Scattered(b, threads, before, after) && SequenceSupplied(b, before, table, keys, values)
    requires |after| == 2 * CacheSize(b.g) && HeadsOk(heads, b.g.heads, h)
    requires head < b.g.heads && Serves(heads, b.g.heads, head, h) && AttendOk(k, a, b.g, keys, head)
    requires PagedRun(k, a, b.g, after, table, heads, h, |keys|, r) && d < k.headSize
    ensures |r.end| == Cells(k) && forall i | 0 <= i < |keys| :: |keys[i]| == |values[i]| == Width(b.g)
    ensures Fold(Sum, Shifted(a, Scores(a, HeadKeys(b.g, keys, head)))) + EPSILON != 0.0
    ensures r.end[RowCell(k, d)] == Dense(a, HeadKeys(b.g, keys, head), HeadColumn(b.g, values, head, d))
  {
    hide Scattered, SequenceSupplied, SequenceHeld, AttendOk, PagedRun, HeadsOk, Serves, BatchOk, ShapeOk, Dense, Fold, Shifted, Scores, HeadKeys, HeadColumn;
    ScatterHolds(b, threads, before, after, table, keys, values);
    AttendsToStored(k, a, b.g, after, table, heads, h, head, keys, values, r, d);
  }
}
