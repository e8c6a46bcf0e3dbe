/**
  The attention kernel as one thread runs it, interval by interval, on shared memory with the output row
  behind it. Each loop does exactly what the thread's program does, from which the results for every
  schedule are proved.
 */
module AttentionThread {
  import opened Schedules
  import opened Strides
  import opened Reductions
  import opened WarpGroups
  import opened CacheLayout
  import opened Attention
  import opened KernelLayout
  import opened ScoreInterval
  import opened ReduceInterval
  import opened ExpInterval
  import opened ValueInterval
  import opened InitInterval
  import opened OutputInterval
  import opened PagedGather

  /** Query head `h` of one sequence: what the host binds. */
  datatype Launch = Launch(k: Kernel, a: Query, g: Shape, cache: seq<real>, table: seq<nat>, heads: nat, h: nat, context: nat)

  /** Every token of the context has a block of the caches. */
  ghost predicate Bound(l: Launch) {
    ShapeOk(l.g) && |l.cache| == 2 * CacheSize(l.g) && TableOk(l.g, l.table, l.context) && HeadsOk(l.heads, l.g.heads, l.h)
  }

  ghost predicate LaunchOk(l: Launch) {
    && Bound(l) && l.k.headSize == l.g.headSize && l.k.blockSize == l.g.blockSize && TaskOk(TaskOf(l)) && l.context > 0
  }

  /** The key-value head that serves the query head. */
  ghost function HeadRead(l: Launch): (head: nat)
    requires HeadsOk(l.heads, l.g.heads, l.h)
    ensures head < l.g.heads
  {
    KvHeadServes(l.heads, l.g.heads, l.h, 0);
    KvHead(l.heads, l.g.heads, l.h)
  }

  ghost function TaskOf(l: Launch): (t: Task)
    requires Bound(l)
    ensures t.k == l.k && t.a == l.a && |t.keys| == l.context
  {
    PagedTask(l.k, l.a, l.g, l.cache, l.table, HeadRead(l), l.context)
  }

  lemma LaunchFits(l: Launch)
    requires LaunchOk(l)
    ensures Bound(l) && KernelOk(l.k) && TaskOk(TaskOf(l)) && |TaskOf(l).keys| == l.context
    ensures l.k.blockSize > 0 && l.k.lanes > 0 && l.k.warps > 0
  {
  }

  // ---------------------------------------------------------------- filling

  /** A strided loop that stores one value. */
  method Fill(mem: array<real>, base: nat, n: nat, v: real, u: nat, step: nat, ghost start: Regs)
    requires u < step && base + n <= mem.Length
    modifies mem
    ensures InRange(FillBody(base, n, v, u, step), mem.Length)
    ensures Alone(FillBody(base, n, v, u, step), start, old(mem[..])) == (start, mem[..])
  {
    ghost var p: Code, before := FillBody(base, n, v, u, step), mem[..];
    FillInRange(base, n, v, u, step, mem.Length);
    var i := u;
    ghost var k := 0;
    AloneNothing(p, start, before);
    while i < n
      invariant k <= |p| && i == Visit(u, k, step)
      invariant InRange(p[..k], |before|) && Alone(p[..k], start, before) == (start, mem[..])
      decreases n - i
    {
      FillStep(base, n, v, u, step, k, start, before, mem[..]);
      mem[base + i] := v;
      VisitNext(u, k, step);
      i := i + step;
      k := k + 1;
    }
    TurnsBound(u, n, step, k);
    assert p[..k] == p;
  }

  lemma FillInRange(base: nat, n: nat, v: real, u: nat, step: nat, size: nat)
    requires u < step && base + n <= size
    ensures InRange(FillBody(base, n, v, u, step), size)
  {
    var p := FillBody(base, n, v, u, step);
    forall i | 0 <= i < |p| ensures Fits(p[i], size) {
      FillAt(base, n, v, u, step, i);
    }
  }

  lemma FillStep(base: nat, n: nat, v: real, u: nat, step: nat, k: nat, start: Regs, before: seq<real>, now: seq<real>)
    requires u < step && base + n <= |before| == |now| && Visit(u, k, step) < n
    requires var p := FillBody(base, n, v, u, step);
             InRange(p, |before|) && k <= |p| && InRange(p[..k], |before|) && Alone(p[..k], start, before) == (start, now)
    ensures var p := FillBody(base, n, v, u, step);
            && k < |p| && InRange(p[..k + 1], |before|)
            && Alone(p[..k + 1], start, before) == (start, now[base + Visit(u, k, step) := v])
  {
    var p: Code := FillBody(base, n, v, u, step);
    TurnsBound(u, n, step, k);
    hide InRange, Alone, FillBody;
    AloneStep(p, start, before, k);
    WriteActs(base + Visit(u, k, step), v, start, now);
  }

  /** Initialisation. */
  method InitThread(l: Launch, mem: array<real>, u: nat)
    requires LaunchOk(l) && mem.Length == Cells(l.k) && u < Threads(l.k)
    modifies mem
    ensures InRange(InitBody(TaskOf(l), u), mem.Length)
    ensures mem[..] == Alone(InitBody(TaskOf(l), u), Fresh(TaskOf(l)), old(mem[..])).1
  {
    hide LaunchOk, Bound, TaskOf, InitBody, FillBody, Alone, InRange, Threads, Cells;
    LaunchFits(l);
    ghost var t, before := TaskOf(l), mem[..];
    InitParts(t, u);
    var threads := l.k.warps * l.k.lanes;
    Fill(mem, 0, l.k.maxSeq, l.a.low, u, threads, Fresh(t));
    Fill(mem, l.k.maxSeq + 128, l.k.warps * l.k.headSize, 0.0, u, threads, Fresh(t));
    AloneBoth(FillBody(0, l.k.maxSeq, l.a.low, u, threads), FillBody(OutBase(l.k), OutSize(l.k), 0.0, u, threads), Fresh(t), before);
  }

  lemma InitParts(t: Task, u: nat)
    requires u < Threads(t.k)
    ensures Threads(t.k) == t.k.warps * t.k.lanes
    ensures InitBody(t, u) == FillBody(0, t.k.maxSeq, t.a.low, u, Threads(t.k)) + FillBody(OutBase(t.k), OutSize(t.k), 0.0, u, Threads(t.k))
    ensures OutBase(t.k) + OutSize(t.k) <= Cells(t.k)
  {
  }

  /** The output of a sequence without a usable context. */
  method ZeroThread(k: Kernel, mem: array<real>, u: nat, ghost start: Regs)
    requires mem.Length == Cells(k) && u < Threads(k)
    modifies mem
    ensures InRange(ZeroCode(k)[u], mem.Length) && mem[..] == Alone(ZeroCode(k)[u], start, old(mem[..])).1
  {
    Fill(mem, k.maxSeq + 128 + k.warps * k.headSize, k.headSize, 0.0, u, k.warps * k.lanes, start);
  }

  // ---------------------------------------------------------------- scores

  /** Where a head's part of a token's block begins. */
  method BlockBase(l: Launch, block: nat) returns (base: int)
    requires l.g.x > 0 && block < |l.table| && HeadsOk(l.heads, l.g.heads, l.h)
    ensures base == l.table[block] * BlockStride(l.g) + HeadRead(l) * HeadStride(l.g)
  {
    HeadsPerKv(l.heads, l.g.heads, l.h);
    var queriesPerKv := l.heads / l.g.heads;
    var kvHead := l.h / queriesPerKv;
    var kvBlockStride := l.g.heads * (l.g.headSize / l.g.x) * l.g.blockSize * l.g.x;
    var kvHeadStride := l.g.headSize / l.g.x * l.g.blockSize * l.g.x;
    base := l.table[block] * kvBlockStride + kvHead * kvHeadStride;
  }

  /** One key element, read through the block table. */
  method LoadKey(l: Launch, base: int, block: nat, offset: nat, d: nat) returns (v: real)
    requires LaunchOk(l) && offset < l.k.blockSize && d < l.k.headSize && Digits(block, l.k.blockSize, offset) < l.context
    requires block < |l.table| && base == l.table[block] * BlockStride(l.g) + HeadRead(l) * HeadStride(l.g)
    ensures var x := Digits(block, l.k.blockSize, offset); |TaskOf(l).keys[x]| == l.k.headSize && v == TaskOf(l).keys[x][d]
  {
    KeyAt(l, block, offset, d);
    var offset1, offset2 := d / l.g.x, d % l.g.x;
    v := l.cache[base + offset1 * l.g.blockSize * l.g.x + offset * l.g.x + offset2];
  }

  lemma KeyAt(l: Launch, block: nat, offset: nat, d: nat)
    requires LaunchOk(l) && offset < l.k.blockSize && d < l.k.headSize && Digits(block, l.k.blockSize, offset) < l.context
    ensures block < |l.table| && l.g.x > 0
    ensures var a := KernelKeyAddr(l.g, l.g.x, l.table[block], HeadRead(l), offset, d); var x := Digits(block, l.k.blockSize, offset);
            && 0 <= a < CacheSize(l.g) && a < |l.cache|
            && |TaskOf(l).keys[x]| == l.k.headSize && TaskOf(l).keys[x][d] == l.cache[a]
  {
    var x := Digits(block, l.k.blockSize, offset);
    DigitsOf(block, offset, l.k.blockSize);
    assert Mapped(l.g, l.table, x);
    GatherInBounds(l.g, l.table, x, HeadRead(l), d);
    assert TaskOf(l).keys[x] == KeyRow(l.g, l.cache, l.table, HeadRead(l), x);
    hide KernelKeyAddr, KernelValueAddr, KeyAddr, ValueAddr, CacheSize, TaskOk;
  }

  /** One score: the query row times the key row, scaled, with the positional penalty if there is one. */
  method ScoreToken(l: Launch, base: int, block: nat, offset: nat) returns (qk: real)
    requires LaunchOk(l) && offset < l.k.blockSize && Digits(block, l.k.blockSize, offset) < l.context
    requires block < |l.table| && base == l.table[block] * BlockStride(l.g) + HeadRead(l) * HeadStride(l.g)
    ensures qk == TaskScores(TaskOf(l))[Digits(block, l.k.blockSize, offset)]
  {
    hide LaunchOk, Bound, TaskOf, TaskOk, KernelOk, BlockStride, HeadStride, TaskScores, CacheSize;
    LaunchFits(l);
    var token := block * l.k.blockSize + offset;
    ghost var key := TaskOf(l).keys[token];
    ScoreIs(l, token);
    qk := 0.0;
    var d := 0;
    while d < l.k.headSize
      invariant d <= l.k.headSize && qk == Dot(l.a.q[..d], key[..d])
    {
      var v := LoadKey(l, base, block, offset, d);
      assert l.a.q[..d + 1][..d] == l.a.q[..d] && key[..d + 1][..d] == key[..d];
      qk := qk + l.a.q[d] * v;
      d := d + 1;
    }
    assert l.a.q[..d] == l.a.q && key[..d] == key;
    qk := qk * l.a.scale;
    ghost var scaled := qk;
    if l.a.slope != 0.0 {
      qk := qk + l.a.slope * (token - l.context + 1) as real;
    }
    assert qk == scaled + l.a.slope * (token - l.context + 1) as real;
  }

  lemma ScoreIs(l: Launch, x: nat)
    requires LaunchOk(l) && x < l.context
    ensures |TaskOf(l).keys| == l.context && |TaskOf(l).keys[x]| == |l.a.q| == l.k.headSize && |TaskScores(TaskOf(l))| == l.context
    ensures TaskScores(TaskOf(l))[x]
         == Dot(l.a.q, TaskOf(l).keys[x]) * l.a.scale + l.a.slope * (x - l.context + 1) as real
  {
    LaunchFits(l);
    hide LaunchOk, Bound, TaskOf;
    TaskScoreAt(TaskOf(l), x);
  }

  /** The first `n` tokens of the thread are scored. */
  ghost predicate ScoreDone(t: Task, u: nat, before: seq<real>, n: nat, qkMax: real, now: seq<real>)
    requires TaskOk(t) && u < Threads(t.k)
  {
    && n <= |ThreadTokens(t, u)| && InRange(ScoreBody(t, u)[..n], |before|)
    && Alone(ScoreBody(t, u)[..n], Fresh(t), before).0.max == qkMax && Alone(ScoreBody(t, u)[..n], Fresh(t), before).1 == now
  }

  lemma ScoreNext(t: Task, u: nat, before: seq<real>, n: nat, qkMax: real, now: seq<real>, x: nat)
    requires TaskOk(t) && u < Threads(t.k) && |before| == Cells(t.k) && ScoreDone(t, u, before, n, qkMax, now)
    requires n < |ThreadTokens(t, u)| && ThreadTokens(t, u)[n] == x
    ensures x < |t.keys| <= |now| == |before|
    ensures var s := TaskScores(t)[x]; ScoreDone(t, u, before, n + 1, Combine(Max(t.a.low), qkMax, s), now[x := s])
  {
    hide TaskOk, KernelOk, ScoreBody, InRange, Alone, Act, ThreadTokens, ScoreAct, Threads, TaskScores, Cells;
    TaskFits(t);
    ScoreInRange(t, u, |before|);
    var p := ScoreBody(t, u);
    AloneStep(p, Fresh(t), before, n);
    assert p[n] == ScoreAct(t, x);
    var r := Alone(p[..n], Fresh(t), before);
    ScoreActs(t, x, r.0, r.1);
  }

  lemma ScoreBegins(t: Task, u: nat, before: seq<real>)
    requires TaskOk(t) && u < Threads(t.k)
    ensures ScoreDone(t, u, before, 0, t.a.low, before)
  {
    AloneNothing(ScoreBody(t, u), Fresh(t), before);
  }

  lemma ScoreEnds(t: Task, u: nat, before: seq<real>, n: nat, qkMax: real, now: seq<real>)
    requires TaskOk(t) && u < Threads(t.k) && ScoreDone(t, u, before, n, qkMax, now) && ThreadTokens(t, u)[n..] == []
    ensures InRange(ScoreBody(t, u), |before|)
    ensures var r := Alone(ScoreBody(t, u), Fresh(t), before); r.0.max == qkMax && r.1 == now
  {
    assert n == |ThreadTokens(t, u)| && ScoreBody(t, u)[..n] == ScoreBody(t, u);
  }

  lemma BlockStarts(k: Kernel, c: nat, b: nat)
    requires k.blockSize > 0 && b < Blocks(k, c)
    ensures Digits(b, k.blockSize, 0) < c
  {
    var n, e := k.blockSize, c + k.blockSize - 1;
    DivMod(e, n);
    MulMonotone(b + 1, e / n, n);
    assert (b + 1) * n == b * n + n;
  }

  lemma LaunchMaps(l: Launch, block: nat)
    requires LaunchOk(l) && block < Blocks(l.k, l.context)
    ensures block < |l.table| && l.g.x > 0
  {
    BlockStarts(l.k, l.context, block);
    KeyAt(l, block, 0, 0);
  }

  /** What is left of a lane's tokens in a block, after the one at offset `o`. */
  lemma NextToken(toks: seq<nat>, n: nat, k: Kernel, c: nat, b: nat, o: nat, rest: seq<nat>)
    requires k.lanes > 0 && o < k.blockSize && n <= |toks| && toks[n..] == LaneTokens(k, c, b, o) + rest
    ensures var x, after := Digits(b, k.blockSize, o), LaneTokens(k, c, b, o + k.lanes) + rest;
            if x < c then n < |toks| && toks[n] == x && toks[n + 1..] == after else toks[n..] == after
  {
    var x, next := Digits(b, k.blockSize, o), LaneTokens(k, c, b, o + k.lanes);
    hide Digits;
    if x < c {
      assert LaneTokens(k, c, b, o) == [x] + next;
      assert toks[n..] == [x] + (next + rest);
      assert toks[n..][0] == x && toks[n..][1..] == next + rest;
    } else {
      assert LaneTokens(k, c, b, o) == next;
    }
  }

  lemma NoToken(toks: seq<nat>, n: nat, k: Kernel, c: nat, b: nat, o: nat, rest: seq<nat>)
    requires k.lanes > 0 && o >= k.blockSize && n <= |toks| && toks[n..] == LaneTokens(k, c, b, o) + rest
    ensures toks[n..] == rest
  {
  }

  /** A lane's part of one block. */
  method ScoreBlock(l: Launch, mem: array<real>, ghost u: nat, block: nat, lane: nat, peak: real, ghost before: seq<real>,
                    ghost done: nat, ghost rest: seq<nat>)
    returns (qkMax: real, ghost n: nat)
    requires LaunchOk(l) && mem.Length == |before| == Cells(l.k) && u < Threads(l.k) && lane < l.k.lanes
    requires block < Blocks(l.k, l.context) && l.k.blockSize > 0
    requires ScoreDone(TaskOf(l), u, before, done, peak, mem[..]) && done <= |ThreadTokens(TaskOf(l), u)|
    requires ThreadTokens(TaskOf(l), u)[done..] == LaneTokens(l.k, l.context, block, lane) + rest
    modifies mem
    ensures ScoreDone(TaskOf(l), u, before, n, qkMax, mem[..]) && n <= |ThreadTokens(TaskOf(l), u)|
    ensures ThreadTokens(TaskOf(l), u)[n..] == rest
  {
    hide LaunchOk, Bound, TaskOk, KernelOk, ScoreDone, Threads, Cells, TaskScores, TaskOf, ThreadTokens, Blocks, BlockStride, HeadStride,
         LaneTokens;
    LaunchFits(l);
    LaunchMaps(l, block);
    ghost var t := TaskOf(l);
    ghost var toks := ThreadTokens(t, u);
    qkMax, n := peak, done;
    var base := BlockBase(l, block);
    var offset := lane;
    while offset < l.k.blockSize
      invariant ScoreDone(t, u, before, n, qkMax, mem[..]) && n <= |toks|
      invariant toks[n..] == LaneTokens(l.k, l.context, block, offset) + rest
      decreases if offset < l.k.blockSize then l.k.blockSize - offset else 0
    {
      NextToken(toks, n, l.k, l.context, block, offset, rest);
      var token := block * l.k.blockSize + offset;
      if token < l.context {
        var qk := ScoreToken(l, base, block, offset);
        ScoreNext(t, u, before, n, qkMax, mem[..], token);
        mem[token] := qk;
        qkMax := if qkMax < qk then qk else qkMax;
        n := n + 1;
      }
      offset := offset + l.k.lanes;
    }
    NoToken(toks, n, l.k, l.context, block, offset, rest);
  }

  lemma TokensUnfold(k: Kernel, c: nat, b: nat, l: nat)
    requires k.lanes > 0 && k.warps > 0 && k.blockSize > 0
    ensures TokensFrom(k, c, b, l)
         == if b >= Blocks(k, c) then [] else LaneTokens(k, c, b, l) + TokensFrom(k, c, b + k.warps, l)
  {
  }

  lemma TokensStart(l: Launch, u: nat)
    requires LaunchOk(l) && u < Threads(l.k)
    ensures ThreadTokens(TaskOf(l), u)[0..] == TokensFrom(l.k, l.context, u / l.k.lanes, u % l.k.lanes)
  {
  }

  /** The scoring loops. */
  method ScoreThread(l: Launch, mem: array<real>, u: nat) returns (qkMax: real)
    requires LaunchOk(l) && mem.Length == Cells(l.k) && u < Threads(l.k)
    modifies mem
    ensures InRange(ScoreBody(TaskOf(l), u), mem.Length)
    ensures var r := Alone(ScoreBody(TaskOf(l), u), Fresh(TaskOf(l)), old(mem[..])); qkMax == r.0.max && mem[..] == r.1
  {
    hide LaunchOk, Bound, TaskOk, KernelOk, ScoreDone, Threads, Cells, TaskScores, TaskOf, ThreadTokens, BlockStride, HeadStride, ScoreBody,
         InRange, Alone, LaneTokens, TokensFrom, Blocks;
    LaunchFits(l);
    TokensStart(l, u);
    ghost var t, before := TaskOf(l), mem[..];
    ghost var toks, n: nat := ThreadTokens(t, u), 0;
    var warp, lane := u / l.k.lanes, u % l.k.lanes;
    var blocks := BlockCount(l.k, l.context);
    qkMax := l.a.low;
    ScoreBegins(t, u, before);
    var block := warp;
    while block < blocks
      invariant ScoreDone(t, u, before, n, qkMax, mem[..]) && n <= |toks|
      invariant toks[n..] == TokensFrom(l.k, l.context, block, lane)
      decreases if block < blocks then blocks - block else 0
    {
      TokensUnfold(l.k, l.context, block, lane);
      qkMax, n := ScoreBlock(l, mem, u, block, lane, qkMax, before, n, TokensFrom(l.k, l.context, block + l.k.warps, lane));
      block := block + l.k.warps;
    }
    TokensUnfold(l.k, l.context, block, lane);
    ScoreEnds(t, u, before, n, qkMax, mem[..]);
  }

  method BlockCount(k: Kernel, c: nat) returns (blocks: nat)
    requires k.blockSize > 0
    ensures blocks == Blocks(k, c)
  {
    blocks := (c + k.blockSize - 1) / k.blockSize;
  }

  // ---------------------------------------------------------------- exponentials

  /** The program has run for `n` actions. */
  ghost predicate Ran(p: Code, start: Regs, before: seq<real>, n: nat, regs: Regs, now: seq<real>) {
    n <= |p| && InRange(p, |before|) && InRange(p[..n], |before|) && Alone(p[..n], start, before) == (regs, now)
  }

  lemma RanNothing(p: Code, start: Regs, before: seq<real>)
    requires InRange(p, |before|)
    ensures Ran(p, start, before, 0, start, before)
  {
    AloneNothing(p, start, before);
  }

  lemma RanOne(p: Code, start: Regs, before: seq<real>, n: nat, regs: Regs, now: seq<real>, a: Action<real, Regs>)
    requires Ran(p, start, before, n, regs, now) && n < |p| && p[n] == a
    ensures Fits(a, |before|) && |now| == |before|
    ensures var r := Act(a, regs, now); Ran(p, start, before, n + 1, r.0, r.1)
  {
    hide Act, Alone;
    AloneStep(p, start, before, n);
  }

  lemma RanAll(p: Code, start: Regs, before: seq<real>, n: nat, regs: Regs, now: seq<real>)
    requires Ran(p, start, before, n, regs, now) && n == |p|
    ensures InRange(p, |before|) && Alone(p, start, before) == (regs, now)
  {
    assert p[..n] == p;
  }

  lemma ExpBounds(t: Task, u: nat)
    requires TaskOk(t) && u < Threads(t.k)
    ensures InRange(ExpBody(t, u), Cells(t.k)) && |ExpBody(t, u)| > 0 && ExpBody(t, u)[0] == LoadAct(Max(t.a.low), MaxCell(t.k))
    ensures MaxCell(t.k) == t.k.maxSeq + 127 < Cells(t.k)
  {
    ExpInRange(t, u, Cells(t.k));
    ExpAt(t, u, 0);
    RedFits(t.k, 127);
  }

  lemma ExpTurnAt(t: Task, u: nat, k: nat)
    requires TaskOk(t) && u < Threads(t.k)
    ensures Visit(u, k, Threads(t.k)) < |t.keys| ==> 1 + k < |ExpBody(t, u)| && ExpBody(t, u)[1 + k] == ExpAct(t, Visit(u, k, Threads(t.k)))
    ensures Visit(u, k, Threads(t.k)) >= |t.keys| && 1 + k <= |ExpBody(t, u)| ==> 1 + k == |ExpBody(t, u)|
    ensures |t.keys| <= Cells(t.k)
  {
    hide TaskOk, Threads, ExpBody, Visit, Turns, Cells, ExpAct;
    TaskFits(t);
    TurnsEnd(u, |t.keys|, Threads(t.k), k);
    if Visit(u, k, Threads(t.k)) < |t.keys| {
      ExpAt(t, u, 1 + k);
    }
  }

  lemma TurnsEnd(u: nat, n: nat, step: nat, k: nat)
    requires step > 0
    ensures Visit(u, k, step) < n <==> k < Turns(u, n, step)
  {
    TurnsBound(u, n, step, k);
  }

  /** The strided loop that turns scores into exponentials and sums them. */
  method ExpThread(l: Launch, mem: array<real>, u: nat) returns (expSum: real)
    requires LaunchOk(l) && mem.Length == Cells(l.k) && u < Threads(l.k)
    modifies mem
    ensures InRange(ExpBody(TaskOf(l), u), mem.Length)
    ensures var r := Alone(ExpBody(TaskOf(l), u), Fresh(TaskOf(l)), old(mem[..])); expSum == r.0.sum && mem[..] == r.1
  {
    hide LaunchOk, Bound, TaskOf, TaskOk, KernelOk, Cells, ExpBody, InRange, Alone, Ran, Act, ExpAct, LoadAct, Threads, Visit;
    LaunchFits(l);
    ghost var t, before := TaskOf(l), mem[..];
    ghost var p: Code := ExpBody(t, u);
    ExpBounds(t, u);
    RanNothing(p, Fresh(t), before);
    RanOne(p, Fresh(t), before, 0, Fresh(t), before, LoadAct(Max(t.a.low), MaxCell(t.k)));
    LoadActs(Max(t.a.low), MaxCell(t.k), Fresh(t), before);
    var qkMax := mem[l.k.maxSeq + 127];
    ghost var regs := Regs(qkMax, 0.0, 0.0);
    var threads := ThreadCount(l.k);
    expSum := 0.0;
    var i := u;
    ghost var k: nat := 0;
    VisitNext(u, 0, threads);
    while i < l.context
      invariant Ran(p, Fresh(t), before, 1 + k, regs, mem[..]) && regs.max == qkMax && regs.sum == expSum
      invariant i == Visit(u, k, threads)
      decreases l.context - i
    {
      ExpTurnAt(t, u, k);
      RanOne(p, Fresh(t), before, 1 + k, regs, mem[..], ExpAct(t, i));
      ExpActs(t, i, regs, mem[..]);
      var val := if mem[i] == l.a.low then 0.0 else l.a.exp(mem[i] - qkMax);
      mem[i] := val;
      expSum := expSum + val;
      regs := Regs(qkMax, expSum, val);
      VisitNext(u, k, threads);
      i := i + threads;
      k := k + 1;
    }
    ExpTurnAt(t, u, k);
    RanWithin(p, Fresh(t), before, 1 + k, regs, mem[..]);
    RanAll(p, Fresh(t), before, 1 + k, regs, mem[..]);
  }

  lemma RanWithin(p: Code, start: Regs, before: seq<real>, n: nat, regs: Regs, now: seq<real>)
    requires Ran(p, start, before, n, regs, now)
    ensures n <= |p|
  {
  }

  method ThreadCount(k: Kernel) returns (n: nat)
    requires KernelOk(k)
    ensures n == Threads(k) > 0
  {
    ThreadsPositive(k);
    n := k.warps * k.lanes;
  }

  // ---------------------------------------------------------------- one warp, in step

  /** One shuffle of a warp: every lane reads its partner's register, then all of them change. */
  method ShuffleLanes(op: Op, regs: array<real>, mask: nat)
    requires mask > 0
    modifies regs
    ensures regs[..] == Exchange(op, old(regs[..]), mask)
  {
    hide FlipBit, Combine, Exchange;
    var v := ShuffleOnce(op, regs[..], mask);
    for l := 0 to regs.Length
      invariant regs[..l] == v[..l]
    {
      regs[l] := v[l];
    }
  }

  /** The loop of shuffles, and the lead's write. */
  method ReduceWarp(op: Op, regs: array<real>, mem: array<real>, cell: nat)
    requires regs != mem && regs.Length > 0 && cell < mem.Length
    modifies regs, mem
    ensures regs[..] == Shuffled(op, old(regs[..]), regs.Length / 2) && mem[..] == old(mem[..])[cell := regs[0]]
    ensures PowerOfTwo(regs.Length) && AllFit(op, old(regs[..])) ==> mem[cell] == Fold(op, old(regs[..]))
  {
    var mask: nat := regs.Length / 2;
    while mask >= 1
      invariant Shuffled(op, regs[..], mask) == Shuffled(op, old(regs[..]), regs.Length / 2)
      invariant mem[..] == old(mem[..])
      decreases mask
    {
      ShuffleLanes(op, regs, mask);
      mask := mask / 2;
    }
    if PowerOfTwo(regs.Length) && AllFit(op, old(regs[..])) {
      ShuffledFolds(op, old(regs[..]));
    }
    mem[cell] := regs[0];
  }

  /** The first warp: a lane for each warp's cell, units beyond, folded into cell `i`. */
  method FirstWarp(k: Kernel, op: Op, mem: array<real>, i: nat)
    requires KernelOk(k) && mem.Length == Cells(k) && k.warps <= i < 128 && AllFit(op, RedValues(k, mem[..]))
    modifies mem
    ensures RedCell(k, i) < mem.Length
    ensures mem[..] == old(mem[..])[RedCell(k, i) := Fold(op, RedValues(k, old(mem[..])))]
  {
    hide PowerOfTwo, Fold, Shuffled, AllFit;
    RedFits(k, i);
    ghost var values, units := RedValues(k, mem[..]), seq(k.lanes - k.warps, _ => Unit(op));
    FoldPadded(op, values, k.lanes - k.warps);
    var regs := new real[k.lanes];
    for l := 0 to k.lanes
      invariant mem[..] == old(mem[..]) && regs[..l] == (values + units)[..l]
    {
      if l < k.warps {
        RedFits(k, l);
      }
      regs[l] := if l < k.warps then mem[k.maxSeq + l] else Unit(op);
    }
    assert regs[..] == values + units;
    ReduceWarp(op, regs, mem, k.maxSeq + i);
    assert mem[..][RedCell(k, i)] == mem[RedCell(k, i)];
  }

  // ---------------------------------------------------------------- values

  /** One value element, read through the block table with the key cache's strides. */
  method LoadValue(l: Launch, base: int, block: nat, offset: nat, d: nat) returns (v: real)
    requires LaunchOk(l) && offset < l.k.blockSize && d < l.k.headSize && Digits(block, l.k.blockSize, offset) < l.context
    requires block < |l.table| && l.g.x > 0 && base == l.table[block] * BlockStride(l.g) + HeadRead(l) * HeadStride(l.g)
    ensures |TaskOf(l).columns| == l.k.headSize && |TaskOf(l).columns[d]| == l.context
    ensures v == TaskOf(l).columns[d][Digits(block, l.k.blockSize, offset)]
  {
    ValueIsAt(l, block, offset, d);
    v := l.cache[CacheOffset(l.g) + base + d * l.g.blockSize + offset];
  }

  /** The value cache lies behind the key cache. */
  function CacheOffset(g: Shape): (r: nat)
    ensures r == CacheSize(g)
  {
    g.blocks * (g.heads * g.headSize * g.blockSize)
  }

  lemma ValueIsAt(l: Launch, block: nat, offset: nat, d: nat)
    requires LaunchOk(l) && offset < l.k.blockSize && d < l.k.headSize && Digits(block, l.k.blockSize, offset) < l.context
    ensures block < |l.table| && l.g.x > 0
    ensures var a := KernelValueAddr(l.g, l.table[block], HeadRead(l), offset, d); var x := Digits(block, l.k.blockSize, offset);
            && 0 <= a < CacheSize(l.g) && CacheSize(l.g) + a < |l.cache|
            && |TaskOf(l).columns| == l.k.headSize && |TaskOf(l).columns[d]| == l.context
            && TaskOf(l).columns[d][x] == l.cache[CacheSize(l.g) + a]
  {
    var x := Digits(block, l.k.blockSize, offset);
    DigitsOf(block, offset, l.k.blockSize);
    assert Mapped(l.g, l.table, x);
    GatherInBounds(l.g, l.table, x, HeadRead(l), d);
    assert TaskOf(l).columns[d] == GatheredColumn(l.g, l.cache, l.table, HeadRead(l), l.context, d);
    assert TaskOf(l).columns[d][x] == GatheredValue(l.g, l.cache, l.table, HeadRead(l), x, d);
    hide KernelKeyAddr, KernelValueAddr, KeyAddr, ValueAddr, CacheSize, TaskOk;
  }

  /** A block's exponentials, and the terms they contribute to one element. */
  ghost function BlockExps(t: Task, b: nat, now: seq<real>): (r: seq<real>)
    requires TaskOk(t) && |now| == Cells(t.k)
    ensures |r| == BlockLength(t, b)
  {
    TaskFits(t);
    seq(BlockLength(t, b), o requires 0 <= o < BlockLength(t, b) => (AccCellAt(t, b, 0, o); now[b * t.k.blockSize + o]))
  }

  ghost function BlockTerms(exps: seq<real>, inv: real, values: seq<real>): (r: seq<real>)
    ensures |r| == |exps| && BlockShare(exps, inv, values) == Fold(Sum, r)
  {
    seq(|exps|, o requires 0 <= o < |exps| => Term(exps[o], inv, if o < |values| then values[o] else 0.0))
  }

  /** What an accumulating action does, whatever the memory. */
  lemma AccDoes(t: Task, b: nat, w: nat, d: nat, regs: Regs, now: seq<real>)
    requires TaskOk(t) && |now| == Cells(t.k) && w < t.k.warps && d < t.k.headSize
    ensures Fits(AccAct(t, b, w, d), |now|) && OutCell(t.k, w, d) < |now|
    ensures var cell := OutCell(t.k, w, d);
            var v := now[cell] + BlockShare(BlockExps(t, b, now), regs.sum, PieceOf(t.columns[d], t.k.blockSize, b));
            Act(AccAct(t, b, w, d), regs, now) == (regs.(val := v), now[cell := v])
  {
    AccFits(t, b, w, d, Cells(t.k));
    var cell, n := OutCell(t.k, w, d), BlockLength(t, b);
    var vs, exps := ReadAll(now, AccCells(t, b, cell)), BlockExps(t, b, now);
    AccCellAt(t, b, cell, n);
    hide TaskOk, BlockShare, OutCell, Cells, PieceOf;
    forall o | 0 <= o < n ensures vs[o] == exps[o] {
      AccCellAt(t, b, cell, o);
    }
    assert vs[..|vs| - 1] == exps;
  }

  lemma BlockHas(l: Launch, block: nat, offset: nat, d: nat)
    requires LaunchOk(l) && offset < l.k.blockSize && d < l.k.headSize
    ensures |TaskOf(l).columns| == l.k.headSize && |TaskOf(l).columns[d]| == l.context
    ensures var x, piece := Digits(block, l.k.blockSize, offset), PieceOf(TaskOf(l).columns[d], l.k.blockSize, block);
            && |piece| == BlockLength(TaskOf(l), block) <= l.k.blockSize
            && (x < l.context <==> offset < |piece|) && (x < l.context ==> piece[offset] == TaskOf(l).columns[d][x])
  {
    var t := TaskOf(l);
    var values := t.columns[d];
    assert |values| == l.context == |TaskExps(t)|;
    hide LaunchOk, TaskOf, TaskExps, TaskOk;
    SamePieces(values, TaskExps(t), l.k.blockSize, block);
    PieceHas(values, l.k.blockSize, block, offset);
  }

  lemma PieceHas(v: seq<real>, size: nat, b: nat, o: nat)
    requires o < size
    ensures |PieceOf(v, size, b)| <= size && (Digits(b, size, o) < |v| <==> o < |PieceOf(v, size, b)|)
    ensures Digits(b, size, o) < |v| ==> PieceOf(v, size, b)[o] == v[Digits(b, size, o)]
  {
    if o < |PieceOf(v, size, b)| {
      PieceAt(v, size, b, o);
    }
  }

  lemma ExpAtOffset(l: Launch, block: nat, offset: nat, now: seq<real>)
    requires LaunchOk(l) && |now| == Cells(l.k) && offset < BlockLength(TaskOf(l), block)
    ensures Digits(block, l.k.blockSize, offset) < |now|
    ensures BlockExps(TaskOf(l), block, now)[offset] == now[Digits(block, l.k.blockSize, offset)]
  {
    AccCellAt(TaskOf(l), block, 0, offset);
    TaskFits(TaskOf(l));
  }

  /** The innermost loop: a block's tokens, skipping those past the context. */
  method BlockSum(l: Launch, mem: array<real>, base: int, block: nat, d: nat, inv: real) returns (acc: real)
    requires LaunchOk(l) && mem.Length == Cells(l.k) && d < l.k.headSize
    requires block < |l.table| && l.g.x > 0 && base == l.table[block] * BlockStride(l.g) + HeadRead(l) * HeadStride(l.g)
    ensures |TaskOf(l).columns| == l.k.headSize
    ensures acc == BlockShare(BlockExps(TaskOf(l), block, mem[..]), inv, PieceOf(TaskOf(l).columns[d], l.k.blockSize, block))
  {
    hide LaunchOk, Bound, TaskOf, TaskOk, KernelOk, Cells, BlockStride, HeadStride, PieceOf, BlockExps, BlockShare, Fold, BlockLength;
    LaunchFits(l);
    BlockHas(l, block, 0, d);
    ghost var t := TaskOf(l);
    ghost var exps, values := BlockExps(t, block, mem[..]), PieceOf(t.columns[d], l.k.blockSize, block);
    ghost var terms := BlockTerms(exps, inv, values);
    NoFold();
    acc := 0.0;
    var offset := 0;
    ghost var n: nat := 0;
    assert terms[..0] == [];
    while offset < l.k.blockSize
      invariant offset <= l.k.blockSize && n == (if offset < |terms| then offset else |terms|)
      invariant acc == Fold(Sum, terms[..n])
    {
      BlockHas(l, block, offset, d);
      var token := block * l.k.blockSize + offset;
      if token < l.context {
        ExpAtOffset(l, block, offset, mem[..]);
        var v := LoadValue(l, base, block, offset, d);
        acc := acc + mem[token] * inv * v;
        assert terms[n] == mem[token] * inv * v;
        FoldNextTerm(terms, n);
        n := n + 1;
      }
      offset := offset + 1;
    }
    assert terms[..n] == terms;
  }

  lemma NoFold()
    ensures Fold(Sum, []) == 0.0
  {
  }

  lemma FoldNextTerm(terms: seq<real>, n: nat)
    requires n < |terms|
    ensures Fold(Sum, terms[..n + 1]) == Fold(Sum, terms[..n]) + terms[n]
  {
    FoldAppend(Sum, terms[..n], terms[n]);
    assert terms[..n + 1] == terms[..n] + [terms[n]];
  }

  /** The rest of the program is what is left of a row, and then `rest`. */
  ghost predicate RowLeft(t: Task, w: nat, lane: nat, b: nat, j: nat, p: Code, n: nat, rest: Code)
    requires TaskOk(t)
  {
    n <= |p| && j <= |Row(t, w, lane, b)| && p[n..] == Row(t, w, lane, b)[j..] + rest
  }

  lemma RowNext(t: Task, w: nat, lane: nat, b: nat, j: nat, p: Code, n: nat, rest: Code)
    requires TaskOk(t) && lane < t.k.lanes && RowLeft(t, w, lane, b, j, p, n, rest)
    ensures Visit(lane, j, t.k.lanes) < t.k.headSize ==>
              n < |p| && p[n] == AccAct(t, b, w, Visit(lane, j, t.k.lanes)) && RowLeft(t, w, lane, b, j + 1, p, n + 1, rest)
    ensures Visit(lane, j, t.k.lanes) >= t.k.headSize ==> p[n..] == rest
  {
    var row := Row(t, w, lane, b);
    TurnsBound(lane, t.k.headSize, t.k.lanes, j);
    hide TaskOk, Row, AccAct, Visit, Turns;
    if Visit(lane, j, t.k.lanes) < t.k.headSize {
      RowAt(t, w, lane, b, j);
      assert p[n..][0] == row[j] && p[n..][1..] == row[j + 1..] + rest;
    } else {
      assert row[j..] == [];
    }
  }

  lemma RowStart(t: Task, w: nat, lane: nat, b: nat, p: Code, n: nat)
    requires TaskOk(t) && n <= |p| && p[n..] == Rows(t, w, lane, b)
    ensures b < Blocks(t.k, |t.keys|) ==> RowLeft(t, w, lane, b, 0, p, n, Rows(t, w, lane, b + t.k.warps))
    ensures b >= Blocks(t.k, |t.keys|) ==> n == |p|
  {
    TaskFits(t);
    hide TaskOk, Row;
    if b < Blocks(t.k, |t.keys|) {
      assert Row(t, w, lane, b)[0..] == Row(t, w, lane, b);
    } else {
      assert p[n..] == [];
    }
  }

  /** One block's row: every `lanes`-th element grows by the block's share. */
  method ValueBlock(l: Launch, mem: array<real>, block: nat, warp: nat, lane: nat, inv: real, ghost p: Code, ghost before: seq<real>,
                    ghost done: nat, ghost start: Regs, ghost rest: Code)
    returns (ghost n: nat, ghost regs: Regs)
    requires LaunchOk(l) && mem.Length == Cells(l.k) && warp < l.k.warps && lane < l.k.lanes && block < Blocks(l.k, l.context)
    requires Ran(p, Fresh(TaskOf(l)), before, done, start, mem[..]) && start.sum == inv
    requires RowLeft(TaskOf(l), warp, lane, block, 0, p, done, rest)
    modifies mem
    ensures Ran(p, Fresh(TaskOf(l)), before, n, regs, mem[..]) && regs.sum == inv && n <= |p| && p[n..] == rest
  {
    hide LaunchOk, Bound, TaskOf, TaskOk, KernelOk, Cells, BlockStride, HeadStride, PieceOf, BlockExps, BlockShare, Blocks, Ran, RowLeft,
         Act, AccAct, OutCell, Visit;
    LaunchFits(l);
    LaunchMaps(l, block);
    ghost var t := TaskOf(l);
    n, regs := done, start;
    var base := BlockBase(l, block);
    var d := lane;
    ghost var j: nat := 0;
    VisitNext(lane, 0, l.k.lanes);
    while d < l.k.headSize
      invariant d == Visit(lane, j, l.k.lanes) && RowLeft(t, warp, lane, block, j, p, n, rest)
      invariant Ran(p, Fresh(t), before, n, regs, mem[..]) && regs.sum == inv
      decreases if d < l.k.headSize then l.k.headSize - d else 0
    {
      RowNext(t, warp, lane, block, j, p, n, rest);
      var acc := BlockSum(l, mem, base, block, d, inv);
      RanOne(p, Fresh(t), before, n, regs, mem[..], AccAct(t, block, warp, d));
      AccDoes(t, block, warp, d, regs, mem[..]);
      var cell := OutIndex(l.k, warp, d);
      mem[cell] := mem[cell] + acc;
      regs := regs.(val := mem[cell]);
      VisitNext(lane, j, l.k.lanes);
      n, j, d := n + 1, j + 1, d + l.k.lanes;
    }
    RowNext(t, warp, lane, block, j, p, n, rest);
    RanWithin(p, Fresh(t), before, n, regs, mem[..]);
  }

  method OutIndex(k: Kernel, w: nat, d: nat) returns (i: nat)
    ensures i == OutCell(k, w, d)
  {
    i := k.maxSeq + 128 + (w * k.headSize + d);
  }

  lemma ValueStarts(t: Task, u: nat)
    requires TaskOk(t) && u < Threads(t.k)
    ensures var p, w, lane := ValueBody(t, u), GroupOf(u, t.k.lanes), TidOf(u, t.k.lanes);
            && InRange(p, Cells(t.k)) && |p| > 0 && p[0] == LoadInverse(SumCell(t.k)) && p[1..] == Rows(t, w, lane, w)
            && w < t.k.warps && SumCell(t.k) == t.k.maxSeq + 126 < Cells(t.k)
  {
    ValueInRange(t, u, Cells(t.k));
    GroupBelow(u, t.k.warps, t.k.lanes);
    RedFits(t.k, 126);
    hide Rows, LoadInverse;
  }

  /** The denominator is at least 1, so the kernel may divide by it. */
  lemma DenominatorPositive(t: Task, mem: seq<real>)
    requires TaskOk(t) && SumKnown(t, mem)
    ensures SumCell(t.k) < |mem| && mem[SumCell(t.k)] >= 1.0
    ensures Inverse(mem[SumCell(t.k)]) == 1.0 / (mem[SumCell(t.k)] + EPSILON)
  {
    ScoresFit(t, []);
    ShiftedSum(t.a, TaskScores(t));
  }

  /** The value loops. */
  method ValueThread(l: Launch, mem: array<real>, u: nat)
    requires LaunchOk(l) && mem.Length == Cells(l.k) && u < Threads(l.k) && SumKnown(TaskOf(l), mem[..])
    modifies mem
    ensures InRange(ValueBody(TaskOf(l), u), mem.Length)
    ensures mem[..] == Alone(ValueBody(TaskOf(l), u), Fresh(TaskOf(l)), old(mem[..])).1
  {
    hide LaunchOk, Bound, TaskOf, TaskOk, KernelOk, Cells, Blocks, Ran, RowLeft, ValueBody, Rows, Alone, InRange, SumKnown, Inverse, Threads,
         Act, LoadInverse;
    LaunchFits(l);
    ghost var t, before := TaskOf(l), mem[..];
    ghost var p: Code := ValueBody(t, u);
    ValueStarts(t, u);
    DenominatorPositive(t, before);
    var warp, lane := u / l.k.lanes, u % l.k.lanes;
    var inv := 1.0 / (mem[l.k.maxSeq + 126] + EPSILON);
    RanNothing(p, Fresh(t), before);
    RanOne(p, Fresh(t), before, 0, Fresh(t), before, LoadInverse(SumCell(t.k)));
    LoadInverseActs(SumCell(t.k), Fresh(t), before);
    ghost var n: nat, regs := 1, Fresh(t).(sum := inv);
    var blocks := BlockCount(l.k, l.context);
    var block := warp;
    while block < blocks
      invariant Ran(p, Fresh(t), before, n, regs, mem[..]) && regs.sum == inv && n <= |p| && p[n..] == Rows(t, warp, lane, block)
      decreases if block < blocks then blocks - block else 0
    {
      RowStart(t, warp, lane, block, p, n);
      n, regs := ValueBlock(l, mem, block, warp, lane, inv, p, before, n, regs, Rows(t, warp, lane, block + l.k.warps));
      block := block + l.k.warps;
    }
    RowStart(t, warp, lane, block, p, n);
    RanAll(p, Fresh(t), before, n, regs, mem[..]);
  }

  // ---------------------------------------------------------------- output

  /** A sum over the warps. */
  method ColumnSum(k: Kernel, mem: array<real>, d: nat) returns (total: real)
    requires mem.Length == Cells(k) && d < k.headSize
    ensures total == Fold(Sum, Column(k, mem[..], d))
  {
    hide Cells, Column, Fold, OutCell;
    ghost var column := Column(k, mem[..], d);
    NoFold();
    assert column[..0] == [];
    total := 0.0;
    var w := 0;
    while w < k.warps
      invariant w <= k.warps && total == Fold(Sum, column[..w])
    {
      ColumnAt(k, mem[..], d, w);
      var cell := OutIndex(k, w, d);
      FoldNextTerm(column, w);
      total := total + mem[cell];
      w := w + 1;
    }
    assert column[..w] == column;
  }

  lemma ColumnAt(k: Kernel, mem: seq<real>, d: nat, w: nat)
    requires |mem| == Cells(k) && d < k.headSize && w < k.warps
    ensures OutCell(k, w, d) < |mem| && Column(k, mem, d)[w] == mem[OutCell(k, w, d)]
  {
    OutCellFits(k, w, d);
  }

  lemma OutDoes(k: Kernel, d: nat, regs: Regs, now: seq<real>)
    requires |now| == Cells(k) && d < k.headSize
    ensures Fits(OutAct(k, d), |now|) && RowCell(k, d) < |now|
    ensures var v := Fold(Sum, Column(k, now, d)); Act(OutAct(k, d), regs, now) == (regs.(val := v), now[RowCell(k, d) := v])
  {
    OutFits(k, d);
    OutActs(k, d, regs, now);
    hide Fold, Column;
  }

  lemma OutputTurnAt(k: Kernel, u: nat, j: nat)
    requires KernelOk(k) && u < Threads(k)
    ensures InRange(OutputBody(k, u), Cells(k))
    ensures var d := Visit(u, j, Threads(k));
            && (d < k.headSize ==> j < |OutputBody(k, u)| && OutputBody(k, u)[j] == OutAct(k, d))
            && (d >= k.headSize && j <= |OutputBody(k, u)| ==> j == |OutputBody(k, u)|)
  {
    OutputInRange(k, u);
    TurnsBound(u, k.headSize, Threads(k), j);
    if j > 0 {
      TurnsBound(u, k.headSize, Threads(k), j - 1);
    }
  }

  /** The output loop. */
  method OutputThread(k: Kernel, mem: array<real>, u: nat, ghost start: Regs)
    requires KernelOk(k) && mem.Length == Cells(k) && u < Threads(k)
    modifies mem
    ensures InRange(OutputBody(k, u), mem.Length)
    ensures mem[..] == Alone(OutputBody(k, u), start, old(mem[..])).1
  {
    hide KernelOk, Cells, OutputBody, InRange, Alone, Ran, Act, OutAct, Threads, Visit, Fold, Column, SharedCells;
    ghost var before, p: Code := mem[..], OutputBody(k, u);
    OutputTurnAt(k, u, 0);
    RanNothing(p, start, before);
    var threads := ThreadCount(k);
    ghost var regs, j: nat := start, 0;
    var i := u;
    VisitNext(u, 0, threads);
    while i < k.headSize
      invariant Ran(p, start, before, j, regs, mem[..]) && i == Visit(u, j, threads)
      decreases if i < k.headSize then k.headSize - i else 0
    {
      OutputTurnAt(k, u, j);
      var total := ColumnSum(k, mem, i);
      RanOne(p, start, before, j, regs, mem[..], OutAct(k, i));
      OutDoes(k, i, regs, mem[..]);
      var cell := RowIndex(k, i);
      mem[cell] := total;
      regs := regs.(val := total);
      VisitNext(u, j, threads);
      i, j := i + threads, j + 1;
    }
    OutputTurnAt(k, u, j);
    RanWithin(p, start, before, j, regs, mem[..]);
    RanAll(p, start, before, j, regs, mem[..]);
  }

  method RowIndex(k: Kernel, d: nat) returns (i: nat)
    ensures i == RowCell(k, d)
  {
    i := k.maxSeq + 128 + k.warps * k.headSize + d;
  }
}
