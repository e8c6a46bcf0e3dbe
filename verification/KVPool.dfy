/** The KV buffers of the pool and the per-layer adapter that stores into and gathers from them. */
module KVPool {
  import opened PrefixMap
  import opened Results
  import opened Sequences

  /** One head-stacked key and value vector of one token in one layer. */
  type KeyVec(0)
  type ValueVec(0)
  datatype KV = KV(k: KeyVec, v: ValueVec)

  type Row = seq<KV>

  ghost predicate InRow(row: Row, idx: seq<Slot>) {
    forall i | 0 <= i < |idx| :: 0 <= idx[i] < |row|
  }

  /** Writing `kvs` at the slots `idx`, in order. */
  ghost function Scatter(row: Row, idx: seq<Slot>, kvs: seq<KV>): (r: Row)
    requires |idx| == |kvs| && InRow(row, idx)
    ensures |r| == |row|
  {
    if idx == [] then row
    else
      var n := |idx| - 1;
      Scatter(row, idx[..n], kvs[..n])[idx[n] := kvs[n]]
  }

  ghost function Gather(row: Row, idx: seq<Slot>): (r: seq<KV>)
    requires InRow(row, idx)
    ensures |r| == |idx|
  {
    seq(|idx|, i requires 0 <= i < |idx| => row[idx[i]])
  }

  lemma {:induction false} ScatterElsewhere(row: Row, idx: seq<Slot>, kvs: seq<KV>, s: Slot)
    requires |idx| == |kvs| && InRow(row, idx) && 0 <= s < |row| && s !in idx
    ensures Scatter(row, idx, kvs)[s] == row[s]
  {
    if idx != [] {
      var n := |idx| - 1;
      ScatterElsewhere(row, idx[..n], kvs[..n], s);
    }
  }

  lemma {:induction false} ScatterAt(row: Row, idx: seq<Slot>, kvs: seq<KV>, i: nat)
    requires |idx| == |kvs| && InRow(row, idx) && Distinct(idx) && i < |idx|
    ensures Scatter(row, idx, kvs)[idx[i]] == kvs[i]
  {
    var n := |idx| - 1;
    if i < n {
      ScatterAt(row, idx[..n], kvs[..n], i);
    }
  }

  lemma {:induction false} ScatterAppend(row: Row, a: seq<Slot>, x: seq<KV>, b: seq<Slot>, y: seq<KV>)
    requires |a| == |x| && |b| == |y| && InRow(row, a) && InRow(row, b)
    ensures InRow(row, a + b)
    ensures Scatter(Scatter(row, a, x), b, y) == Scatter(row, a + b, x + y)
    decreases |b|
  {
    if b == [] {
      assert a + b == a && x + y == x;
    } else {
      var n := |b| - 1;
      ScatterAppend(row, a, x, b[..n], y[..n]);
      assert (a + b)[..|a + b| - 1] == a + b[..n] && (x + y)[..|x + y| - 1] == x + y[..n];
    }
  }

  // ---------------------------------------------------------------- the adapter as a value

  /** The state of one layer's adapter together with that layer's buffer row. */
  datatype Adapter = Adapter(prefix: seq<Slot>, news: seq<Slot>, offset: nat, row: Row)

  ghost predicate AdapterOk(a: Adapter) {
    a.offset <= |a.news| && InRow(a.row, a.prefix) && InRow(a.row, a.news)
  }

  /** One `update_and_fetch` with room for its chunk. */
  ghost function Update(a: Adapter, kvs: seq<KV>): (r: Adapter)
    requires AdapterOk(a) && a.offset + |kvs| <= |a.news|
    ensures AdapterOk(r) && |r.row| == |a.row|
  {
    a.(row := Scatter(a.row, a.news[a.offset..a.offset + |kvs|], kvs), offset := a.offset + |kvs|)
  }

  /** What the adapter gathers: the prefix and every new token stored so far. */
  ghost function Fetched(a: Adapter): seq<KV>
    requires AdapterOk(a)
  {
    Gather(a.row, a.prefix + a.news[..a.offset])
  }

  ghost function Concat(chunks: seq<seq<KV>>): seq<KV> {
    if chunks == [] then [] else chunks[0] + Concat(chunks[1..])
  }

  /** A sequence of calls. */
  ghost function Updates(a: Adapter, chunks: seq<seq<KV>>): (r: Adapter)
    requires AdapterOk(a) && a.offset + |Concat(chunks)| <= |a.news|
    ensures AdapterOk(r) && |r.row| == |a.row|
    decreases |chunks|
  {
    if chunks == [] then a else Updates(Update(a, chunks[0]), chunks[1..])
  }

  lemma UpdateTwice(a: Adapter, x: seq<KV>, y: seq<KV>)
    requires AdapterOk(a) && a.offset + |x| + |y| <= |a.news|
    ensures Update(Update(a, x), y) == Update(a, x + y)
  {
    var i, j, k := a.offset, a.offset + |x|, a.offset + |x| + |y|;
    assert a.news[i..j] + a.news[j..k] == a.news[i..k];
    ScatterAppend(a.row, a.news[i..j], x, a.news[j..k], y);
  }

  /** Chunking is invisible: any calls leave the same state as one call on all their tokens. */
  lemma {:induction false} ChunkingInvisible(a: Adapter, chunks: seq<seq<KV>>)
    requires AdapterOk(a) && a.offset + |Concat(chunks)| <= |a.news|
    ensures Updates(a, chunks) == Update(a, Concat(chunks))
    decreases |chunks|
  {
    if chunks != [] {
      ChunkingInvisible(Update(a, chunks[0]), chunks[1..]);
      UpdateTwice(a, chunks[0], Concat(chunks[1..]));
    }
  }

  lemma GatherSplit(row: Row, x: seq<Slot>, y: seq<Slot>)
    requires InRow(row, x) && InRow(row, y)
    ensures InRow(row, x + y) && Gather(row, x + y) == Gather(row, x) + Gather(row, y)
  {
  }

  /** What was written is read back; what was not written is unchanged. */
  lemma GatherWritten(row: Row, idx: seq<Slot>, kvs: seq<KV>)
    requires |idx| == |kvs| && InRow(row, idx) && Distinct(idx)
    ensures Gather(Scatter(row, idx, kvs), idx) == kvs
  {
    forall i | 0 <= i < |idx| ensures Scatter(row, idx, kvs)[idx[i]] == kvs[i] {
      ScatterAt(row, idx, kvs, i);
    }
  }

  lemma GatherUnwritten(row: Row, idx: seq<Slot>, kvs: seq<KV>, other: seq<Slot>)
    requires |idx| == |kvs| && InRow(row, idx) && InRow(row, other) && Disjoint(other, idx)
    ensures Gather(Scatter(row, idx, kvs), other) == Gather(row, other)
  {
    forall i | 0 <= i < |other| ensures Scatter(row, idx, kvs)[other[i]] == row[other[i]] {
      ScatterElsewhere(row, idx, kvs, other[i]);
    }
  }

  /** One call appends its chunk to what was gathered before, and touches no other slot. */
  lemma UpdateAppends(a: Adapter, kvs: seq<KV>)
    requires AdapterOk(a) && a.offset + |kvs| <= |a.news|
    requires Distinct(a.news) && Disjoint(a.prefix, a.news)
    ensures Fetched(Update(a, kvs)) == Fetched(a) + kvs
    ensures forall s | 0 <= s < |a.row| && s !in a.news[a.offset..a.offset + |kvs|] :: Update(a, kvs).row[s] == a.row[s]
  {
    hide Scatter, Gather;
    var i, j := a.offset, a.offset + |kvs|;
    var before, written := a.prefix + a.news[..i], a.news[i..j];
    assert Disjoint(before, written) && Distinct(written) && InRow(a.row, before);
    assert a.prefix + a.news[..j] == before + written;
    GatherSplit(Update(a, kvs).row, before, written);
    GatherWritten(a.row, written, kvs);
    GatherUnwritten(a.row, written, kvs, before);
    forall s | 0 <= s < |a.row| && s !in written ensures Update(a, kvs).row[s] == a.row[s] {
      ScatterElsewhere(a.row, written, kvs, s);
    }
  }

  /** The prefix followed by every chunk, whatever the chunk sizes. */
  lemma ChunksFetched(a: Adapter, chunks: seq<seq<KV>>)
    requires AdapterOk(a) && a.offset + |Concat(chunks)| <= |a.news|
    requires Distinct(a.news) && Disjoint(a.prefix, a.news)
    ensures Fetched(Updates(a, chunks)) == Fetched(a) + Concat(chunks)
    ensures forall s | 0 <= s < |a.row| && s !in a.news[a.offset..a.offset + |Concat(chunks)|] ::
              Updates(a, chunks).row[s] == a.row[s]
  {
    ChunkingInvisible(a, chunks);
    UpdateAppends(a, Concat(chunks));
  }

  // ---------------------------------------------------------------- the buffers

  /** The buffers before anything is stored: a zero pair in every slot of every layer, the padding slot included. */
  ghost function ZeroRows(layers: nat, poolSize: nat, zeroK: KeyVec, zeroV: ValueVec): seq<Row> {
    seq(layers, _ => seq(poolSize + 1, _ => KV(zeroK, zeroV)))
  }

  /** Pre-allocated key and value buffers, one row of slots per layer. */
  class MHATokenPool {
    const poolSize: nat
    const numLayers: nat
    const kBuffer: array2<KeyVec>
    const vBuffer: array2<ValueVec>

    ghost predicate Valid() {
      && kBuffer as object != vBuffer as object
      && kBuffer.Length0 == vBuffer.Length0 == numLayers
      && kBuffer.Length1 == vBuffer.Length1 == poolSize + 1
    }

    /** Layer `l`'s row, by slot; slot 0 is padding. */
    ghost function RowOf(l: nat): (r: Row)
      requires Valid() && l < numLayers
      reads kBuffer, vBuffer
      ensures |r| == poolSize + 1 && forall s | 0 <= s <= poolSize :: r[s] == KV(kBuffer[l, s], vBuffer[l, s])
    {
      seq(poolSize + 1, s requires 0 <= s <= poolSize reads kBuffer, vBuffer => KV(kBuffer[l, s], vBuffer[l, s]))
    }

    ghost function Rows(): (r: seq<Row>)
      requires Valid()
      reads kBuffer, vBuffer
      ensures |r| == numLayers && forall l | 0 <= l < numLayers :: r[l] == RowOf(l)
    {
      seq(numLayers, l requires 0 <= l < numLayers reads kBuffer, vBuffer => RowOf(l))
    }

    constructor (poolSize: nat, numLayers: nat, zeroK: KeyVec, zeroV: ValueVec)
      ensures Valid() && this.poolSize == poolSize && this.numLayers == numLayers
      ensures fresh(kBuffer) && fresh(vBuffer)
      ensures Rows() == ZeroRows(numLayers, poolSize, zeroK, zeroV)
    {
      this.poolSize := poolSize;
      this.numLayers := numLayers;
      kBuffer := new KeyVec[numLayers, poolSize + 1]((_, _) => zeroK);
      vBuffer := new ValueVec[numLayers, poolSize + 1]((_, _) => zeroV);
      new;
      assert forall l | 0 <= l < numLayers :: RowOf(l) == seq(poolSize + 1, _ => KV(zeroK, zeroV));
    }

    /** Scatter-writes one layer's new keys and values. */
    method Store(layer: nat, indices: seq<Slot>, keys: seq<KeyVec>, values: seq<ValueVec>)
      requires Valid() && layer < numLayers && |keys| == |values| == |indices| && InRow(RowOf(layer), indices)
      modifies kBuffer, vBuffer
      ensures RowOf(layer) == Scatter(old(RowOf(layer)), indices, Zip(keys, values))
      ensures forall l | 0 <= l < numLayers && l != layer :: RowOf(l) == old(RowOf(l))
    {
      for i := 0 to |indices|
        invariant InRow(RowOf(layer), indices)
        invariant RowOf(layer) == Scatter(old(RowOf(layer)), indices[..i], Zip(keys[..i], values[..i]))
        invariant forall l, s | 0 <= l < numLayers && l != layer && 0 <= s <= poolSize ::
                    kBuffer[l, s] == old(kBuffer[l, s]) && vBuffer[l, s] == old(vBuffer[l, s])
      {
        ghost var row := RowOf(layer);
        kBuffer[layer, indices[i]] := keys[i];
        vBuffer[layer, indices[i]] := values[i];
        assert RowOf(layer) == row[indices[i] := KV(keys[i], values[i])];
        assert indices[..i + 1][..i] == indices[..i];
        assert Zip(keys[..i + 1], values[..i + 1])[..i] == Zip(keys[..i], values[..i]);
      }
      assert indices[..|indices|] == indices && keys[..|keys|] == keys && values[..|values|] == values;
    }

    /** Gathers one layer's keys and values at the given slots, in order. */
    method Fetch(layer: nat, indices: seq<Slot>) returns (keys: seq<KeyVec>, values: seq<ValueVec>)
      requires Valid() && layer < numLayers && InRow(RowOf(layer), indices)
      ensures |keys| == |values| == |indices| && Zip(keys, values) == Gather(RowOf(layer), indices)
    {
      keys, values := [], [];
      for i := 0 to |indices|
        invariant |keys| == |values| == i && Zip(keys, values) == Gather(RowOf(layer), indices)[..i]
      {
        assert Gather(RowOf(layer), indices)[..i + 1] == Gather(RowOf(layer), indices)[..i] + [RowOf(layer)[indices[i]]];
        assert Zip(keys + [kBuffer[layer, indices[i]]], values + [vBuffer[layer, indices[i]]])
            == Zip(keys, values) + [RowOf(layer)[indices[i]]];
        keys, values := keys + [kBuffer[layer, indices[i]]], values + [vBuffer[layer, indices[i]]];
      }
    }
  }

  function Zip(keys: seq<KeyVec>, values: seq<ValueVec>): (r: seq<KV>)
    requires |keys| == |values|
    ensures |r| == |keys|
  {
    seq(|keys|, i requires 0 <= i < |keys| => KV(keys[i], values[i]))
  }

  // ---------------------------------------------------------------- the adapter

  /** Makes the shared pool look like one request's cache in one layer. */
  class PooledKVCache {
    const pool: MHATokenPool
    const layerIdx: nat
    var prefixIndices: seq<Slot>
    var newIndices: seq<Slot>
    var storeOffset: nat

    ghost predicate Valid()
      reads this, pool.kBuffer, pool.vBuffer
    {
      && pool.Valid() && layerIdx < pool.numLayers && storeOffset <= |newIndices|
      && InRow(pool.RowOf(layerIdx), prefixIndices) && InRow(pool.RowOf(layerIdx), newIndices)
    }

    ghost function Abs(): (a: Adapter)
      requires pool.Valid() && layerIdx < pool.numLayers
      reads this, pool.kBuffer, pool.vBuffer
    {
      Adapter(prefixIndices, newIndices, storeOffset, pool.RowOf(layerIdx))
    }

    constructor (pool: MHATokenPool, layerIdx: nat)
      requires pool.Valid() && layerIdx < pool.numLayers
      ensures Valid() && this.pool == pool && this.layerIdx == layerIdx
      ensures prefixIndices == [] && newIndices == [] && storeOffset == 0
    {
      this.pool := pool;
      this.layerIdx := layerIdx;
      prefixIndices := [];
      newIndices := [];
      storeOffset := 0;
    }

    method SetIndices(prefix: seq<Slot>, news: seq<Slot>)
      modifies this
      ensures prefixIndices == prefix && newIndices == news && storeOffset == 0
    {
      prefixIndices := prefix;
      newIndices := news;
      storeOffset := 0;
    }

    /** Position of the first new token. */
    function Offset(): nat
      reads this`prefixIndices
    {
      |prefixIndices|
    }

    /** Everything fetched before that position was cached earlier, everything from it on was stored since. */
    lemma OffsetSplits()
      requires Valid()
      ensures Offset() <= |Fetched(Abs())| == Offset() + storeOffset
      ensures Fetched(Abs())[..Offset()] == Gather(Abs().row, prefixIndices)
      ensures Fetched(Abs())[Offset()..] == Gather(Abs().row, newIndices[..storeOffset])
    {
    }

    /** Stores the new keys and values and gathers everything stored so far. */
    method UpdateAndFetch(keys: seq<KeyVec>, values: seq<ValueVec>)
      returns (allKeys: seq<KeyVec>, allValues: seq<ValueVec>)
      requires Valid() && |keys| == |values| && storeOffset + |keys| <= |newIndices|
      modifies this`storeOffset, pool.kBuffer, pool.vBuffer
      ensures Valid() && Abs() == Update(old(Abs()), Zip(keys, values))
      ensures |allKeys| == |allValues| && Zip(allKeys, allValues) == Fetched(Abs())
      ensures forall l | 0 <= l < pool.numLayers && l != layerIdx :: pool.RowOf(l) == old(pool.RowOf(l))
    {
      var nNew := |keys|;
      var storeIndices := newIndices[storeOffset..storeOffset + nNew];
      storeOffset := storeOffset + nNew;
      pool.Store(layerIdx, storeIndices, keys, values);
      allKeys, allValues := pool.Fetch(layerIdx, prefixIndices + newIndices[..storeOffset]);
    }

    /** What is cached now, or nothing. */
    method State() returns (r: Option<(seq<KeyVec>, seq<ValueVec>)>)
      requires Valid()
      ensures r.None? <==> prefixIndices == [] && storeOffset == 0
      ensures r.Some? ==> |r.value.0| == |r.value.1| && Zip(r.value.0, r.value.1) == Fetched(Abs())
    {
      var all := prefixIndices + newIndices[..storeOffset];
      if all == [] {
        return None;
      }
      var k, v := pool.Fetch(layerIdx, all);
      r := Some((k, v));
    }
  }
}
