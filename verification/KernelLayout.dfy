/** The launch of the paged attention kernel: its threads, its shared memory, and which tokens a thread scores. */
module KernelLayout {
  import opened Strides
  import opened Reductions
  import opened Attention

  /** Template parameters and the one size given at run time. */
  datatype Kernel = Kernel(headSize: nat, blockSize: nat, warps: nat, lanes: nat, maxSeq: nat)

  /** Any warp count, and any power of two of lanes that is at least as large; two reduction cells are reserved. */
  ghost predicate KernelOk(k: Kernel) {
    k.headSize > 0 && k.blockSize > 0 && k.maxSeq > 0 && 0 < k.warps <= k.lanes && k.warps <= 126 && PowerOfTwo(k.lanes)
  }

  ghost function Threads(k: Kernel): nat { k.warps * k.lanes }

  // ---------------------------------------------------------------- shared memory

  /** Scores, then 128 reduction cells, then one partial output row per warp. */
  ghost function RedCell(k: Kernel, i: nat): nat { k.maxSeq + i }

  ghost function OutCell(k: Kernel, w: nat, d: nat): nat { k.maxSeq + 128 + Digits(w, k.headSize, d) }

  /** Number of floats the host asks for. */
  ghost function SharedCells(k: Kernel): nat { k.maxSeq + 128 + k.warps * k.headSize }

  /** The output row in device memory, placed behind the shared memory. */
  ghost function RowCell(k: Kernel, d: nat): nat { SharedCells(k) + d }

  ghost function Cells(k: Kernel): nat { SharedCells(k) + k.headSize }

  lemma OutCellFits(k: Kernel, w: nat, d: nat)
    requires w < k.warps && d < k.headSize
    ensures k.maxSeq + 128 <= OutCell(k, w, d) < SharedCells(k)
  {
    DigitsBelow(w, d, k.warps, k.headSize);
  }

  lemma OutCellApart(k: Kernel, w: nat, d: nat, v: nat, e: nat)
    requires d < k.headSize && e < k.headSize && OutCell(k, w, d) == OutCell(k, v, e)
    ensures w == v && d == e
  {
    UniqueDigits(w, d, v, e, k.headSize);
  }

  // ---------------------------------------------------------------- tokens

  /** Blocks that hold the first `c` tokens. */
  ghost function Blocks(k: Kernel, c: nat): nat
    requires k.blockSize > 0
  {
    (c + k.blockSize - 1) / k.blockSize
  }

  lemma BlocksHold(k: Kernel, c: nat, b: nat, o: nat)
    requires k.blockSize > 0 && o < k.blockSize && Digits(b, k.blockSize, o) < c
    ensures b < Blocks(k, c)
  {
    var n, e := k.blockSize, c + k.blockSize - 1;
    DivMod(e, n);
    if b >= Blocks(k, c) {
      MulMonotone(e / n, b, n);
    }
  }

  /** The block table of a sequence that fits has an entry for every block read. */
  lemma BlocksWithinTable(k: Kernel, c: nat, entries: nat)
    requires k.blockSize > 0 && c <= entries * k.blockSize
    ensures Blocks(k, c) <= entries
  {
    var n, e := k.blockSize, c + k.blockSize - 1;
    DivMod(e, n);
    assert (entries + 1) * n == entries * n + n;
    if Blocks(k, c) > entries {
      MulMonotone(entries + 1, e / n, n);
    }
  }

  /** The tokens of block `b` that the lane at offset `o`, then `o + lanes`, ... visits. */
  ghost function LaneTokens(k: Kernel, c: nat, b: nat, o: nat): seq<nat>
    requires k.lanes > 0
    decreases if o < k.blockSize then k.blockSize - o else 0
  {
    if o >= k.blockSize then []
    else (if Digits(b, k.blockSize, o) < c then [Digits(b, k.blockSize, o)] else []) + LaneTokens(k, c, b, o + k.lanes)
  }

  /** The tokens that lane `l` visits in blocks `b`, `b + warps`, ... */
  ghost function TokensFrom(k: Kernel, c: nat, b: nat, l: nat): seq<nat>
    requires k.lanes > 0 && k.warps > 0 && k.blockSize > 0
    decreases if b < Blocks(k, c) then Blocks(k, c) - b else 0
  {
    if b >= Blocks(k, c) then [] else LaneTokens(k, c, b, l) + TokensFrom(k, c, b + k.warps, l)
  }

  ghost function BlockNo(k: Kernel, x: nat): nat
    requires k.blockSize > 0
  {
    x / k.blockSize
  }

  ghost function BlockOffset(k: Kernel, x: nat): (r: nat)
    requires k.blockSize > 0
    ensures r < k.blockSize
  {
    x % k.blockSize
  }

  lemma BlockDigits(k: Kernel, x: nat)
    requires k.blockSize > 0
    ensures Digits(BlockNo(k, x), k.blockSize, BlockOffset(k, x)) == x
  {
    DivMod(x, k.blockSize);
  }

  /** The warp and the lane that score a token. */
  ghost function WarpOf(k: Kernel, x: nat): nat
    requires k.warps > 0 && k.blockSize > 0
  {
    BlockNo(k, x) % k.warps
  }

  ghost function LaneOf(k: Kernel, x: nat): nat
    requires k.lanes > 0 && k.blockSize > 0
  {
    BlockOffset(k, x) % k.lanes
  }

  lemma {:induction false} LaneTokensAre(k: Kernel, c: nat, b: nat, o: nat, j: nat)
    requires k.lanes > 0 && k.blockSize > 0 && k.warps > 0 && j < |LaneTokens(k, c, b, o)|
    ensures var x := LaneTokens(k, c, b, o)[j]; x < c && WarpOf(k, x) == b % k.warps && LaneOf(k, x) == o % k.lanes
    decreases if o < k.blockSize then k.blockSize - o else 0
  {
    var here := if Digits(b, k.blockSize, o) < c then [Digits(b, k.blockSize, o)] else [];
    if j < |here| {
      DigitsOf(b, o, k.blockSize);
      assert BlockNo(k, here[j]) == b && BlockOffset(k, here[j]) == o;
    } else {
      LaneTokensAre(k, c, b, o + k.lanes, j - |here|);
      SameResidue(o, k.lanes);
    }
  }

  lemma SameResidue(o: nat, n: nat)
    requires n > 0
    ensures (o + n) % n == o % n
  {
    DivMod(o, n);
    assert o + n == (o / n + 1) * n + o % n;
    DigitsOf(o / n + 1, o % n, n);
  }

  lemma SmallResidue(l: nat, n: nat)
    requires l < n
    ensures l % n == l
  {
  }

  lemma {:induction false} TokensAre(k: Kernel, c: nat, b: nat, l: nat, j: nat)
    requires KernelOk(k) && l < k.lanes && j < |TokensFrom(k, c, b, l)|
    ensures var x := TokensFrom(k, c, b, l)[j]; x < c && WarpOf(k, x) == b % k.warps && LaneOf(k, x) == l
    decreases if b < Blocks(k, c) then Blocks(k, c) - b else 0
  {
    hide WarpOf, LaneOf, LaneTokens, Blocks;
    var here := LaneTokens(k, c, b, l);
    if j < |here| {
      LaneTokensAre(k, c, b, l, j);
      SmallResidue(l, k.lanes);
    } else {
      TokensAre(k, c, b + k.warps, l, j - |here|);
      SameResidue(b, k.warps);
    }
  }

  lemma {:induction false} LaneTokenIn(k: Kernel, c: nat, b: nat, o: nat, n: nat) returns (j: nat)
    requires k.lanes > 0 && Visit(o, n, k.lanes) < k.blockSize && Digits(b, k.blockSize, Visit(o, n, k.lanes)) < c
    ensures j < |LaneTokens(k, c, b, o)| && LaneTokens(k, c, b, o)[j] == Digits(b, k.blockSize, Visit(o, n, k.lanes))
    decreases n
  {
    if n == 0 {
      j := 0;
    } else {
      assert Visit(o + k.lanes, n - 1, k.lanes) == Visit(o, n, k.lanes) by {
        assert (n - 1) * k.lanes + k.lanes == n * k.lanes;
      }
      j := LaneTokenIn(k, c, b, o + k.lanes, n - 1);
      if Digits(b, k.blockSize, o) < c {
        j := j + 1;
      }
    }
  }

  lemma {:induction false} BlockTokenIn(k: Kernel, c: nat, b: nat, l: nat, m: nat, n: nat) returns (j: nat)
    requires KernelOk(k) && Visit(l, n, k.lanes) < k.blockSize
    requires Digits(Visit(b, m, k.warps), k.blockSize, Visit(l, n, k.lanes)) < c
    ensures j < |TokensFrom(k, c, b, l)|
    ensures TokensFrom(k, c, b, l)[j] == Digits(Visit(b, m, k.warps), k.blockSize, Visit(l, n, k.lanes))
    decreases m
  {
    BlocksHold(k, c, Visit(b, m, k.warps), Visit(l, n, k.lanes));
    if m == 0 {
      j := LaneTokenIn(k, c, b, l, n);
    } else {
      assert Visit(b + k.warps, m - 1, k.warps) == Visit(b, m, k.warps) by {
        assert (m - 1) * k.warps + k.warps == m * k.warps;
      }
      j := BlockTokenIn(k, c, b + k.warps, l, m - 1, n);
      j := |LaneTokens(k, c, b, l)| + j;
    }
  }

  /** A token, by its warp's turn over blocks and its lane's turn within the block. */
  lemma TurnsOf(k: Kernel, x: nat) returns (m: nat, n: nat)
    requires KernelOk(k)
    ensures WarpOf(k, x) < k.warps && LaneOf(k, x) < k.lanes && Visit(LaneOf(k, x), n, k.lanes) < k.blockSize
    ensures Digits(Visit(WarpOf(k, x), m, k.warps), k.blockSize, Visit(LaneOf(k, x), n, k.lanes)) == x
  {
    var b, o := BlockNo(k, x), BlockOffset(k, x);
    BlockDigits(k, x);
    hide Visit, BlockNo, BlockOffset, Digits;
    m := TurnOf(b, k.warps);
    n := TurnOf(o, k.lanes);
  }

  lemma TurnOf(e: nat, step: nat) returns (m: nat)
    requires step > 0
    ensures e % step < step && Visit(e % step, m, step) == e
  {
    m := e / step;
    DivMod(e, step);
  }

  /** Every token is visited, by the one thread of its block's warp and its offset's lane. */
  lemma TokenIn(k: Kernel, c: nat, x: nat) returns (j: nat)
    requires KernelOk(k) && x < c
    ensures WarpOf(k, x) < k.warps && LaneOf(k, x) < k.lanes
    ensures j < |TokensFrom(k, c, WarpOf(k, x), LaneOf(k, x))| && TokensFrom(k, c, WarpOf(k, x), LaneOf(k, x))[j] == x
  {
    hide Digits, Visit, TokensFrom, WarpOf, LaneOf;
    var m, n := TurnsOf(k, x);
    j := BlockTokenIn(k, c, WarpOf(k, x), LaneOf(k, x), m, n);
  }

  // ---------------------------------------------------------------- one head of one sequence

  /** What one thread group computes: `columns[d]` are the gathered values' elements `d`. */
  datatype Task = Task(k: Kernel, a: Query, keys: seq<seq<real>>, columns: seq<seq<real>>)

  ghost predicate TaskOk(t: Task) {
    && KernelOk(t.k) && 0 < |t.keys| <= t.k.maxSeq && |t.a.q| == t.k.headSize && ScoresOk(t.a, t.keys) && ExpOk(t.a.exp)
    && |t.columns| == t.k.headSize && forall d | 0 <= d < |t.columns| :: |t.columns[d]| == |t.keys|
  }

  ghost function TaskScores(t: Task): (r: seq<real>)
    requires TaskOk(t)
    ensures |r| == |t.keys|
  {
    Scores(t.a, t.keys)
  }

  lemma TaskFits(t: Task)
    requires TaskOk(t)
    ensures KernelOk(t.k) && 0 < |t.keys| <= t.k.maxSeq <= SharedCells(t.k) <= Cells(t.k)
    ensures 0 < t.k.warps <= t.k.lanes && t.k.warps <= 126 && 0 < t.k.headSize && 0 < t.k.blockSize
  {
  }

  lemma TaskScoreAt(t: Task, x: nat)
    requires TaskOk(t) && x < |t.keys|
    ensures |t.keys[x]| == |t.a.q| == t.k.headSize
    ensures TaskScores(t)[x] == Dot(t.a.q, t.keys[x]) * t.a.scale + t.a.slope * (x - |t.keys| + 1) as real
  {
    assert forall i | 0 <= i < |t.keys| :: |t.keys[i]| == |t.a.q|;
    hide Dot, KernelOk;
  }

  /** Lane `l` of warp `w`. */
  lemma WarpThread(k: Kernel, w: nat, l: nat)
    requires KernelOk(k) && w < k.warps && l < k.lanes
    ensures Digits(w, k.lanes, l) < Threads(k)
    ensures GroupOf(Digits(w, k.lanes, l), k.lanes) == w && TidOf(Digits(w, k.lanes, l), k.lanes) == l
  {
    ThreadAt(w, l, k.warps, k.lanes);
  }
}
