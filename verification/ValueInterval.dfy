/** Each warp adds up its blocks' weighted values, element by element, in its own partial row. */
module ValueInterval {
  import opened Results
  import opened Schedules
  import opened Strides
  import opened Reductions
  import opened WarpGroups
  import opened Attention
  import opened KernelLayout
  import opened ScoreInterval
  import opened ExpInterval

  ghost function SumCell(k: Kernel): nat { RedCell(k, 126) }

  /** Tokens of block `b` that exist. */
  ghost function BlockLength(t: Task, b: nat): nat
    requires TaskOk(t)
  {
    |PieceOf(TaskExps(t), t.k.blockSize, b)|
  }

  /** Factor, the inverse of the denominator. */
  ghost function Inverse(total: real): real {
    if total + EPSILON == 0.0 then 0.0 else 1.0 / (total + EPSILON)
  }

  ghost function LoadInverse(cell: nat): (a: Action<real, Regs>)
    ensures a.srcs == [cell] && a.dst == None
  {
    Action([cell], (l: Regs, vs: seq<real>) => if |vs| == 1 then l.(sum := Inverse(vs[0])) else l, None, (l: Regs) => 0.0)
  }

  lemma LoadInverseActs(cell: nat, l: Regs, mem: seq<real>)
    requires cell < |mem|
    ensures Act(LoadInverse(cell), l, mem) == (l.(sum := Inverse(mem[cell])), mem)
  {
    assert ReadAll(mem, [cell]) == [mem[cell]];
  }

  /** A token's exponential, scaled, times its value. */
  ghost function Term(e: real, inv: real, v: real): real { e * inv * v }

  /** What a block adds to one element: its exponentials, scaled, times its values. */
  ghost function BlockShare(exps: seq<real>, inv: real, values: seq<real>): real {
    Fold(Sum, seq(|exps|, o requires 0 <= o < |exps| => Term(exps[o], inv, if o < |values| then values[o] else 0.0)))
  }

  /** The cells read: the block's exponentials, then the partial sum so far. */
  ghost function AccCells(t: Task, b: nat, cell: nat): (r: seq<nat>)
    requires TaskOk(t)
    ensures |r| == BlockLength(t, b) + 1
  {
    seq(BlockLength(t, b), o requires 0 <= o < BlockLength(t, b) => b * t.k.blockSize + o) + [cell]
  }

  ghost function Accumulate(l: Regs, vs: seq<real>, values: seq<real>): Regs {
    if |vs| == 0 then l else l.(val := vs[|vs| - 1] + BlockShare(vs[..|vs| - 1], l.sum, values))
  }

  /** Adds block `b`'s share of element `d` to warp `w`'s partial row. */
  ghost function AccAct(t: Task, b: nat, w: nat, d: nat): (a: Action<real, Regs>)
    requires TaskOk(t) && d < t.k.headSize
    ensures a.srcs == AccCells(t, b, OutCell(t.k, w, d)) && a.dst == Some(OutCell(t.k, w, d))
  {
    var values := PieceOf(t.columns[d], t.k.blockSize, b);
    Action(AccCells(t, b, OutCell(t.k, w, d)), (l: Regs, vs: seq<real>) => Accumulate(l, vs, values), Some(OutCell(t.k, w, d)),
           (l: Regs) => l.val)
  }

  /** The terms of one element of the dense output, and the share of each block. */
  ghost function Terms(t: Task, d: nat): (r: seq<real>)
    requires TaskOk(t) && d < t.k.headSize
    ensures |r| == |t.keys|
  {
    var w, inv := TaskExps(t), Inverse(Fold(Sum, TaskExps(t)));
    seq(|w|, i requires 0 <= i < |w| => Term(w[i], inv, t.columns[d][i]))
  }

  ghost function Shares(t: Task, d: nat): (r: seq<real>)
    requires TaskOk(t) && d < t.k.headSize
    ensures |r| == Blocks(t.k, |t.keys|)
  {
    seq(Blocks(t.k, |t.keys|), b requires 0 <= b < Blocks(t.k, |t.keys|) => Fold(Sum, PieceOf(Terms(t, d), t.k.blockSize, b)))
  }

  /** The exponentials are in place and the denominator's factor is loaded. */
  ghost predicate ExpsIn(t: Task, now: seq<real>)
    requires TaskOk(t)
  {
    |now| == Cells(t.k) && forall x | 0 <= x < |t.keys| :: x < |now| && now[x] == TaskExps(t)[x]
  }

  lemma AccCellAt(t: Task, b: nat, cell: nat, o: nat)
    requires TaskOk(t) && o <= BlockLength(t, b)
    ensures AccCells(t, b, cell)[o] == if o < BlockLength(t, b) then b * t.k.blockSize + o else cell
    ensures o < BlockLength(t, b) ==> b * t.k.blockSize + o < |t.keys|
  {
  }

  lemma AccFits(t: Task, b: nat, w: nat, d: nat, n: nat)
    requires TaskOk(t) && w < t.k.warps && d < t.k.headSize && n >= SharedCells(t.k)
    ensures Fits(AccAct(t, b, w, d), n) && OutCell(t.k, w, d) < n
  {
    OutCellFits(t.k, w, d);
    var cells := AccCells(t, b, OutCell(t.k, w, d));
    assert |t.keys| <= t.k.maxSeq;
    hide TaskOk, AccCells, OutCell;
    forall o | 0 <= o < |cells| ensures cells[o] < n {
      AccCellAt(t, b, OutCell(t.k, w, d), o);
    }
  }

  /** A block read through its cells contributes the block's terms. */
  lemma ShareIs(t: Task, b: nat, w: nat, d: nat, now: seq<real>)
    requires TaskOk(t) && ExpsIn(t, now) && w < t.k.warps && d < t.k.headSize
    ensures Fits(AccAct(t, b, w, d), |now|)
    ensures var vs := ReadAll(now, AccCells(t, b, OutCell(t.k, w, d)));
            && |vs| == BlockLength(t, b) + 1 && vs[|vs| - 1] == now[OutCell(t.k, w, d)]
            && BlockShare(vs[..|vs| - 1], Inverse(Fold(Sum, TaskExps(t))), PieceOf(t.columns[d], t.k.blockSize, b))
               == Fold(Sum, PieceOf(Terms(t, d), t.k.blockSize, b))
  {
    AccFits(t, b, w, d, Cells(t.k));
    var size, cell, n := t.k.blockSize, OutCell(t.k, w, d), BlockLength(t, b);
    var inv, vs := Inverse(Fold(Sum, TaskExps(t))), ReadAll(now, AccCells(t, b, OutCell(t.k, w, d)));
    var values, terms := PieceOf(t.columns[d], size, b), PieceOf(Terms(t, d), size, b);
    SamePieces(TaskExps(t), Terms(t, d), size, b);
    SamePieces(TaskExps(t), t.columns[d], size, b);
    AccCellAt(t, b, cell, n);
    hide Term, Inverse, Fold;
    forall o | 0 <= o < n ensures Term(vs[o], inv, values[o]) == terms[o] {
      ReadExp(t, b, cell, now, o);
      PieceAt(Terms(t, d), size, b, o);
      PieceAt(t.columns[d], size, b, o);
    }
    hide TaskOk, AccCells, ExpsIn, PieceOf, TaskExps, Terms, Cells;
    assert vs[..|vs| - 1] == vs[..n];
    ShareOf(vs[..n], inv, values, terms);
  }

  lemma ReadExp(t: Task, b: nat, cell: nat, now: seq<real>, o: nat)
    requires TaskOk(t) && ExpsIn(t, now) && o < BlockLength(t, b)
    requires forall k | 0 <= k < |AccCells(t, b, cell)| :: AccCells(t, b, cell)[k] < |now|
    ensures b * t.k.blockSize + o < |t.keys| && ReadAll(now, AccCells(t, b, cell))[o] == TaskExps(t)[b * t.k.blockSize + o]
  {
    AccCellAt(t, b, cell, o);
    var x := b * t.k.blockSize + o;
    assert now[x] == TaskExps(t)[x];
  }

  lemma ShareOf(exps: seq<real>, inv: real, values: seq<real>, terms: seq<real>)
    requires |exps| == |values| == |terms| && forall o | 0 <= o < |exps| :: Term(exps[o], inv, values[o]) == terms[o]
    ensures BlockShare(exps, inv, values) == Fold(Sum, terms)
  {
    hide Term, Fold;
    var share := seq(|exps|, o requires 0 <= o < |exps| => Term(exps[o], inv, if o < |values| then values[o] else 0.0));
    forall o | 0 <= o < |share| ensures share[o] == terms[o] {
    }
    assert share == terms;
  }

  lemma AccActs(t: Task, b: nat, w: nat, d: nat, l: Regs, now: seq<real>)
    requires TaskOk(t) && ExpsIn(t, now) && w < t.k.warps && d < t.k.headSize && b < Blocks(t.k, |t.keys|)
    requires l.sum == Inverse(Fold(Sum, TaskExps(t)))
    ensures Fits(AccAct(t, b, w, d), |now|)
    ensures var cell := OutCell(t.k, w, d); var r := Act(AccAct(t, b, w, d), l, now);
            cell < |now| && r.0.sum == l.sum && r.1 == now[cell := now[cell] + Shares(t, d)[b]]
  {
    OutCellFits(t.k, w, d);
    ShareIs(t, b, w, d, now);
  }

  // ---------------------------------------------------------------- one warp's rows

  /** Block `b` of warp `w`: lane `l` takes every `lanes`-th element. */
  ghost function Row(t: Task, w: nat, l: nat, b: nat): (p: Code)
    requires TaskOk(t)
    ensures |p| == Turns(l, t.k.headSize, t.k.lanes)
  {
    seq(Turns(l, t.k.headSize, t.k.lanes),
        j requires 0 <= j < Turns(l, t.k.headSize, t.k.lanes) =>
          (TurnsBound(l, t.k.headSize, t.k.lanes, j); AccAct(t, b, w, Visit(l, j, t.k.lanes))))
  }

  /** Blocks `b`, `b + warps`, ... */
  ghost function Rows(t: Task, w: nat, l: nat, b: nat): Code
    requires TaskOk(t)
    decreases if b < Blocks(t.k, |t.keys|) then Blocks(t.k, |t.keys|) - b else 0
  {
    if b >= Blocks(t.k, |t.keys|) then [] else Row(t, w, l, b) + Rows(t, w, l, b + t.k.warps)
  }

  ghost function ValueBody(t: Task, u: nat): (p: Code)
    requires TaskOk(t)
  {
    var w, l := GroupOf(u, t.k.lanes), TidOf(u, t.k.lanes);
    [LoadInverse(SumCell(t.k))] + Rows(t, w, l, w)
  }

  /** An action of a row. */
  ghost predicate IsAcc(t: Task, w: nat, l: nat, a: Action<real, Regs>)
    requires TaskOk(t)
  {
    exists b: nat, d: nat :: d < t.k.headSize && d % t.k.lanes == l && a == AccAct(t, b, w, d)
  }

  lemma RowAt(t: Task, w: nat, l: nat, b: nat, j: nat)
    requires TaskOk(t) && j < |Row(t, w, l, b)|
    ensures Visit(l, j, t.k.lanes) < t.k.headSize && Row(t, w, l, b)[j] == AccAct(t, b, w, Visit(l, j, t.k.lanes))
  {
    TurnsBound(l, t.k.headSize, t.k.lanes, j);
  }

  lemma {:induction false} RowsAt(t: Task, w: nat, l: nat, b: nat, j: nat)
    requires TaskOk(t) && l < t.k.lanes && j < |Rows(t, w, l, b)|
    ensures IsAcc(t, w, l, Rows(t, w, l, b)[j])
    decreases if b < Blocks(t.k, |t.keys|) then Blocks(t.k, |t.keys|) - b else 0
  {
    assert t.k.warps > 0;
    hide TaskOk, AccAct, Visit, Row, IsAcc;
    var n := |Row(t, w, l, b)|;
    if j < n {
      RowAt(t, w, l, b, j);
      RowIsAcc(t, w, l, b, j);
    } else {
      RowsAt(t, w, l, b + t.k.warps, j - n);
    }
  }

  lemma RowIsAcc(t: Task, w: nat, l: nat, b: nat, j: nat)
    requires TaskOk(t) && l < t.k.lanes && j < |Row(t, w, l, b)|
    ensures IsAcc(t, w, l, Row(t, w, l, b)[j])
  {
    RowAt(t, w, l, b, j);
    VisitResidue(l, j, t.k.lanes);
    hide Visit, AccAct, TaskOk, Row;
  }

  lemma RowsInRange(t: Task, w: nat, l: nat, b: nat)
    requires TaskOk(t) && l < t.k.lanes && w < t.k.warps
    ensures InRange(Rows(t, w, l, b), Cells(t.k))
  {
    var p := Rows(t, w, l, b);
    hide TaskOk, Rows, AccAct, IsAcc;
    forall i | 0 <= i < |p| ensures Fits(p[i], Cells(t.k)) {
      RowsAt(t, w, l, b, i);
      AccAnyFits(t, w, l, p[i], Cells(t.k));
    }
  }

  lemma AccAnyFits(t: Task, w: nat, l: nat, a: Action<real, Regs>, n: nat)
    requires TaskOk(t) && w < t.k.warps && IsAcc(t, w, l, a) && n >= SharedCells(t.k)
    ensures Fits(a, n)
  {
    var b: nat, d: nat :| d < t.k.headSize && d % t.k.lanes == l && a == AccAct(t, b, w, d);
    hide AccAct, TaskOk, Fits;
    AccFits(t, b, w, d, n);
  }

  lemma RowInRange(t: Task, w: nat, l: nat, b: nat)
    requires TaskOk(t) && w < t.k.warps
    ensures InRange(Row(t, w, l, b), Cells(t.k))
  {
    var p := Row(t, w, l, b);
    hide TaskOk, Row, AccAct, Visit;
    forall i | 0 <= i < |p| ensures Fits(p[i], Cells(t.k)) {
      RowAt(t, w, l, b, i);
      AccFits(t, b, w, Visit(l, i, t.k.lanes), Cells(t.k));
    }
  }

  /** What a stretch of a warp's rows does, seen from element `d`: it grows, and exponentials and factor stay. */
  ghost predicate Grown(t: Task, w: nat, d: nat, gain: real, l: Regs, now: seq<real>, r: (Regs, seq<real>))
    requires TaskOk(t)
  {
    && |now| == |r.1| == Cells(t.k) && ExpsIn(t, now) && ExpsIn(t, r.1)
    && l.sum == r.0.sum == Inverse(Fold(Sum, TaskExps(t)))
    && OutCell(t.k, w, d) < |now| && r.1[OutCell(t.k, w, d)] == now[OutCell(t.k, w, d)] + gain
  }

  lemma GrownTwice(t: Task, w: nat, d: nat, x: real, y: real, l: Regs, now: seq<real>, r: (Regs, seq<real>), q: (Regs, seq<real>))
    requires TaskOk(t) && Grown(t, w, d, x, l, now, r) && Grown(t, w, d, y, r.0, r.1, q)
    ensures Grown(t, w, d, x + y, l, now, q)
  {
    hide TaskOk, ExpsIn, Cells, OutCell, Inverse, TaskExps;
  }

  lemma GrownNothing(t: Task, w: nat, d: nat, l: Regs, now: seq<real>)
    requires TaskOk(t) && w < t.k.warps && d < t.k.headSize && ExpsIn(t, now) && l.sum == Inverse(Fold(Sum, TaskExps(t)))
    ensures Grown(t, w, d, 0.0, l, now, (l, now))
  {
    OutCellFits(t.k, w, d);
    hide TaskOk, TaskExps, Inverse;
  }

  /** One action on element `e`, seen from element `d`. */
  lemma AccGrows(t: Task, b: nat, w: nat, e: nat, d: nat, l: Regs, now: seq<real>)
    requires TaskOk(t) && ExpsIn(t, now) && w < t.k.warps && e < t.k.headSize && d < t.k.headSize && b < Blocks(t.k, |t.keys|)
    requires l.sum == Inverse(Fold(Sum, TaskExps(t)))
    ensures Fits(AccAct(t, b, w, e), |now|)
    ensures Grown(t, w, d, if e == d then Shares(t, d)[b] else 0.0, l, now, Act(AccAct(t, b, w, e), l, now))
  {
    AccActs(t, b, w, e, l, now);
    OutCellFits(t.k, w, d);
    OutCellFits(t.k, w, e);
    if e != d && OutCell(t.k, w, d) == OutCell(t.k, w, e) {
      OutCellApart(t.k, w, d, w, e);
    }
    assert |t.keys| <= t.k.maxSeq;
    hide TaskOk, AccAct, OutCell, Inverse, TaskExps, Shares, Act;
  }

  lemma TurnOfElement(d: nat, n: nat, lanes: nat)
    requires lanes > 0
    ensures Visit(d % lanes, n, lanes) == d <==> d / lanes == n
  {
    DivMod(d, lanes);
    if Visit(d % lanes, n, lanes) == d {
      UniqueDigits(n, d % lanes, d / lanes, d % lanes, lanes);
    }
  }

  /** What the first `n` turns of its lane add to element `d`. */
  ghost function TurnShare(d: nat, lanes: nat, n: nat, share: real): real
    requires lanes > 0
  {
    if d / lanes < n then share else 0.0
  }

  lemma NextTurn(d: nat, lanes: nat, n: nat, share: real)
    requires lanes > 0
    ensures TurnShare(d, lanes, 0, share) == 0.0
    ensures TurnShare(d, lanes, n + 1, share)
         == TurnShare(d, lanes, n, share) + if Visit(d % lanes, n, lanes) == d then share else 0.0
  {
    TurnOfElement(d, n, lanes);
    hide Visit;
  }

  lemma RowStep(t: Task, w: nat, b: nat, d: nat, e: nat, regs: Regs, now: seq<real>, n: nat, r: (Regs, seq<real>))
    requires TaskOk(t) && w < t.k.warps && d < t.k.headSize && b < Blocks(t.k, |t.keys|)
    requires e == Visit(d % t.k.lanes, n, t.k.lanes) && e < t.k.headSize
    requires Grown(t, w, d, TurnShare(d, t.k.lanes, n, Shares(t, d)[b]), regs, now, r)
    ensures Fits(AccAct(t, b, w, e), |r.1|)
    ensures Grown(t, w, d, TurnShare(d, t.k.lanes, n + 1, Shares(t, d)[b]), regs, now, Act(AccAct(t, b, w, e), r.0, r.1))
  {
    var share := Shares(t, d)[b];
    GrownKeeps(t, w, d, TurnShare(d, t.k.lanes, n, share), regs, now, r);
    NextTurn(d, t.k.lanes, n, share);
    hide TaskOk, Act, AccAct, Grown, Shares, TaskExps, Inverse, Visit, TurnShare, ExpsIn, Cells, Blocks, Fold, Fits;
    AccGrows(t, b, w, e, d, r.0, r.1);
    GrownTwice(t, w, d, TurnShare(d, t.k.lanes, n, share), if e == d then share else 0.0, regs, now, r,
               Act(AccAct(t, b, w, e), r.0, r.1));
  }

  /** Lane `d % lanes` visits element `d`, once, on turn `d / lanes`. */
  lemma {:induction false} RowGrows(t: Task, w: nat, l: nat, b: nat, d: nat, regs: Regs, now: seq<real>, n: nat)
    requires TaskOk(t) && ExpsIn(t, now) && w < t.k.warps && d < t.k.headSize && b < Blocks(t.k, |t.keys|)
    requires l == d % t.k.lanes && regs.sum == Inverse(Fold(Sum, TaskExps(t))) && n <= |Row(t, w, l, b)|
    ensures InRange(Row(t, w, l, b)[..n], |now|)
    ensures Grown(t, w, d, TurnShare(d, t.k.lanes, n, Shares(t, d)[b]), regs, now, Alone(Row(t, w, l, b)[..n], regs, now))
    decreases n
  {
    RowInRange(t, w, l, b);
    var p, share := Row(t, w, l, b), Shares(t, d)[b];
    assert |now| == Cells(t.k);
    PrefixInRange(p, |now|, n);
    hide TaskOk, Row, InRange, Alone, Act, AccAct, Grown, Shares, TaskExps, Inverse, Visit, TurnShare, ExpsIn, Cells, Blocks, Fold, OutCell, Turns;
    if n == 0 {
      AloneNothing(p, regs, now);
      GrownNothing(t, w, d, regs, now);
      NextTurn(d, t.k.lanes, 0, share);
    } else {
      RowGrows(t, w, l, b, d, regs, now, n - 1);
      AloneStep(p, regs, now, n - 1);
      RowAt(t, w, l, b, n - 1);
      RowStep(t, w, b, d, Visit(l, n - 1, t.k.lanes), regs, now, n - 1, Alone(p[..n - 1], regs, now));
    }
  }

  lemma GrownKeeps(t: Task, w: nat, d: nat, gain: real, l: Regs, now: seq<real>, r: (Regs, seq<real>))
    requires TaskOk(t) && Grown(t, w, d, gain, l, now, r)
    ensures ExpsIn(t, r.1) && |r.1| == Cells(t.k) && r.0.sum == Inverse(Fold(Sum, TaskExps(t)))
  {
  }

  lemma WholeRow(t: Task, w: nat, b: nat, d: nat, regs: Regs, now: seq<real>)
    requires TaskOk(t) && ExpsIn(t, now) && w < t.k.warps && d < t.k.headSize && b < Blocks(t.k, |t.keys|)
    requires regs.sum == Inverse(Fold(Sum, TaskExps(t)))
    ensures InRange(Row(t, w, d % t.k.lanes, b), |now|)
    ensures Grown(t, w, d, Shares(t, d)[b], regs, now, Alone(Row(t, w, d % t.k.lanes, b), regs, now))
  {
    var p := Row(t, w, d % t.k.lanes, b);
    RowGrows(t, w, d % t.k.lanes, b, d, regs, now, |p|);
    assert p[..|p|] == p;
    VisitedBy(d, t.k.headSize, t.k.lanes);
    hide TaskOk, Row, InRange, Alone, Grown, Shares, TaskExps, Inverse;
  }

  lemma {:induction false} RowsGrow(t: Task, w: nat, b: nat, d: nat, regs: Regs, now: seq<real>)
    requires TaskOk(t) && ExpsIn(t, now) && w < t.k.warps && d < t.k.headSize
    requires regs.sum == Inverse(Fold(Sum, TaskExps(t)))
    ensures InRange(Rows(t, w, d % t.k.lanes, b), |now|)
    ensures Grown(t, w, d, StrideFold(Sum, Shares(t, d), b, t.k.warps), regs, now, Alone(Rows(t, w, d % t.k.lanes, b), regs, now))
    decreases if b < Blocks(t.k, |t.keys|) then Blocks(t.k, |t.keys|) - b else 0
  {
    var l := d % t.k.lanes;
    RowsInRange(t, w, l, b);
    GrownNothing(t, w, d, regs, now);
    assert |now| == Cells(t.k) && |Shares(t, d)| == Blocks(t.k, |t.keys|);
    hide TaskOk, Row, InRange, Grown, Shares, TaskExps, Inverse, Blocks;
    if b < Blocks(t.k, |t.keys|) {
      WholeRow(t, w, b, d, regs, now);
      var r := Alone(Row(t, w, l, b), regs, now);
      hide Alone;
      GrownKeeps(t, w, d, Shares(t, d)[b], regs, now, r);
      RowsGrow(t, w, b + t.k.warps, d, r.0, r.1);
      AloneBoth(Row(t, w, l, b), Rows(t, w, l, b + t.k.warps), regs, now);
      GrownTwice(t, w, d, Shares(t, d)[b], StrideFold(Sum, Shares(t, d), b + t.k.warps, t.k.warps), regs, now, r,
                 Alone(Rows(t, w, l, b + t.k.warps), r.0, r.1));
    }
  }

  // ---------------------------------------------------------------- all threads

  ghost function ValueCode(t: Task): (r: seq<Code>)
    requires TaskOk(t)
    ensures |r| == Threads(t.k) && forall u | 0 <= u < |r| :: r[u] == ValueBody(t, u)
  {
    seq(Threads(t.k), u requires 0 <= u < Threads(t.k) => ValueBody(t, u))
  }

  /** An action of a thread's body. */
  lemma ValueAt(t: Task, u: nat, i: nat)
    requires TaskOk(t) && u < Threads(t.k) && i < |ValueBody(t, u)|
    ensures i == 0 ==> ValueBody(t, u)[i] == LoadInverse(SumCell(t.k))
    ensures i > 0 ==> IsAcc(t, GroupOf(u, t.k.lanes), TidOf(u, t.k.lanes), ValueBody(t, u)[i])
  {
    hide TaskOk, IsAcc, Rows, GroupOf, TidOf, SumCell;
    if i > 0 {
      RowsAt(t, GroupOf(u, t.k.lanes), TidOf(u, t.k.lanes), GroupOf(u, t.k.lanes), i - 1);
    }
  }

  lemma ValueInRange(t: Task, u: nat, n: nat)
    requires TaskOk(t) && u < Threads(t.k) && n >= SharedCells(t.k)
    ensures InRange(ValueBody(t, u), n)
  {
    var p := ValueBody(t, u);
    RedFits(t.k, 126);
    GroupBelow(u, t.k.warps, t.k.lanes);
    hide TaskOk, IsAcc, ValueBody, GroupOf, TidOf, SharedCells;
    forall i | 0 <= i < |p| ensures Fits(p[i], n) {
      ValueAt(t, u, i);
      if i > 0 {
        AccAnyFits(t, GroupOf(u, t.k.lanes), TidOf(u, t.k.lanes), p[i], n);
      }
    }
  }

  /** The thread that adds to an element of a partial row; nobody owns the other cells. */
  ghost function AddingThread(k: Kernel, a: nat): nat {
    if KernelOk(k) && k.maxSeq + 128 <= a < SharedCells(k) then
      var i := a - (k.maxSeq + 128);
      Digits(i / k.headSize, k.lanes, i % k.headSize % k.lanes)
    else Threads(k)
  }

  lemma AdderOf(k: Kernel, w: nat, d: nat)
    requires KernelOk(k) && w < k.warps && d < k.headSize
    ensures AddingThread(k, OutCell(k, w, d)) == Digits(w, k.lanes, d % k.lanes)
  {
    OutCellFits(k, w, d);
    DigitsOf(w, d, k.headSize);
  }

  lemma AccKeeps(t: Task, b: nat, d: nat, u: nat)
    requires TaskOk(t) && u < Threads(t.k) && d < t.k.headSize && d % t.k.lanes == TidOf(u, t.k.lanes)
    ensures KeepsTo(AccAct(t, b, GroupOf(u, t.k.lanes), d), (a: nat) => AddingThread(t.k, a), u, Threads(t.k))
  {
    var w, owner := GroupOf(u, t.k.lanes), (a: nat) => AddingThread(t.k, a);
    GroupBelow(u, t.k.warps, t.k.lanes);
    AdderOf(t.k, w, d);
    ThreadDigits(u, t.k.lanes);
    var cell := OutCell(t.k, w, d);
    var cells := AccCells(t, b, cell);
    assert |t.keys| <= t.k.maxSeq;
    hide TaskOk, KernelOk, AccCells, OutCell, GroupOf, TidOf, Threads, SharedCells, BlockLength, Digits;
    forall o | 0 <= o < |cells| ensures owner(cells[o]) == u || owner(cells[o]) >= Threads(t.k) {
      AccCellAt(t, b, cell, o);
    }
  }

  lemma ValueOwned(t: Task)
    requires TaskOk(t)
    ensures Owned(ValueCode(t), (a: nat) => AddingThread(t.k, a))
  {
    var progs, owner := ValueCode(t), (a: nat) => AddingThread(t.k, a);
    hide TaskOk, KernelOk, ValueBody, AccAct, IsAcc, Threads, ValueCode, OutCell;
    forall u, i | 0 <= u < |progs| && 0 <= i < |progs[u]| ensures KeepsTo(progs[u][i], owner, u, |progs|) {
      ValueKeeps(t, u, i);
    }
  }

  lemma ValueKeeps(t: Task, u: nat, i: nat)
    requires TaskOk(t) && u < Threads(t.k) && i < |ValueBody(t, u)|
    ensures KeepsTo(ValueBody(t, u)[i], (a: nat) => AddingThread(t.k, a), u, Threads(t.k))
  {
    ValueAt(t, u, i);
    hide TaskOk, KernelOk, ValueBody, AccAct, Threads, OutCell, GroupOf, TidOf;
    if i > 0 {
      var b: nat, d: nat :|
        d < t.k.headSize && d % t.k.lanes == TidOf(u, t.k.lanes) && ValueBody(t, u)[i] == AccAct(t, b, GroupOf(u, t.k.lanes), d);
      AccKeeps(t, b, d, u);
    }
  }

  /** The state before the interval. */
  ghost predicate SumKnown(t: Task, mem: seq<real>)
    requires TaskOk(t)
  {
    && ExpsIn(t, mem) && SumCell(t.k) < |mem| && mem[SumCell(t.k)] == Fold(Sum, TaskExps(t))
    && (forall a: nat | t.k.maxSeq + 128 <= a < SharedCells(t.k) :: mem[a] == 0.0)
  }

  /** After it: every warp holds the shares of its own blocks. */
  ghost predicate Partial(t: Task, after: seq<real>)
    requires TaskOk(t)
  {
    && |after| == Cells(t.k)
    && (forall w, d | 0 <= w < t.k.warps && 0 <= d < t.k.headSize ::
          OutCell(t.k, w, d) < |after| && after[OutCell(t.k, w, d)] == StrideFold(Sum, Shares(t, d), w, t.k.warps))
  }

  lemma InverseLoaded(cell: nat, l: Regs, mem: seq<real>)
    requires cell < |mem|
    ensures InRange([LoadInverse(cell)], |mem|) && Alone([LoadInverse(cell)], l, mem) == (l.(sum := Inverse(mem[cell])), mem)
  {
    assert [LoadInverse(cell)][..0] == [];
    LoadInverseActs(cell, l, mem);
  }

  /** The thread of warp `w` whose lane adds element `d` leaves the warp's share in its cell. */
  lemma ValueCell(t: Task, mem: seq<real>, w: nat, d: nat) returns (u: nat)
    requires TaskOk(t) && SumKnown(t, mem) && w < t.k.warps && d < t.k.headSize
    ensures u == Digits(w, t.k.lanes, d % t.k.lanes) < Threads(t.k) && InRange(ValueBody(t, u), |mem|)
    ensures OutCell(t.k, w, d) < |mem|
    ensures Alone(ValueBody(t, u), Fresh(t), mem).1[OutCell(t.k, w, d)] == StrideFold(Sum, Shares(t, d), w, t.k.warps)
  {
    var l, first := d % t.k.lanes, [LoadInverse(SumCell(t.k))];
    u := Digits(w, t.k.lanes, l);
    ThreadAt(w, l, t.k.warps, t.k.lanes);
    OutCellFits(t.k, w, d);
    assert mem[OutCell(t.k, w, d)] == 0.0;
    InverseLoaded(SumCell(t.k), Fresh(t), mem);
    var r := Alone(first, Fresh(t), mem);
    assert ExpsIn(t, mem);
    hide TaskOk, SumKnown, Inverse, TaskExps, Grown, Fold, Shares, Alone, InRange, Rows, LoadInverse;
    RowsGrow(t, w, w, d, r.0, r.1);
    AloneBoth(first, Rows(t, w, l, w), Fresh(t), mem);
    GrownCell(t, w, d, StrideFold(Sum, Shares(t, d), w, t.k.warps), r.0, mem, Alone(Rows(t, w, l, w), r.0, mem));
  }

  lemma GrownCell(t: Task, w: nat, d: nat, gain: real, l: Regs, now: seq<real>, r: (Regs, seq<real>))
    requires TaskOk(t) && Grown(t, w, d, gain, l, now, r)
    ensures |now| == |r.1| && OutCell(t.k, w, d) < |now| && r.1[OutCell(t.k, w, d)] == now[OutCell(t.k, w, d)] + gain
  {
  }

  /** Whatever the schedule, the interval does this. */
  lemma ValuesAnySchedule(t: Task, mem: seq<real>, after: seq<real>)
    requires TaskOk(t) && SumKnown(t, mem)
    requires Reaches(ValueCode(t), mem, Starts(Fresh(t), Threads(t.k)), after)
    ensures Partial(t, after)
  {
    ReachesSize(ValueCode(t), mem, Starts(Fresh(t), Threads(t.k)), after);
    assert |mem| == Cells(t.k);
    hide TaskOk, SumKnown, ValueCode, ValueBody, Reaches, Alone, InRange, Shares, OutCell, Threads, Cells;
    forall w, d | 0 <= w < t.k.warps && 0 <= d < t.k.headSize
      ensures OutCell(t.k, w, d) < |after| && after[OutCell(t.k, w, d)] == StrideFold(Sum, Shares(t, d), w, t.k.warps)
    {
      ValueCellReached(t, mem, after, w, d);
    }
  }

  lemma ValueCellReached(t: Task, mem: seq<real>, after: seq<real>, w: nat, d: nat)
    requires TaskOk(t) && SumKnown(t, mem) && w < t.k.warps && d < t.k.headSize
    requires Reaches(ValueCode(t), mem, Starts(Fresh(t), Threads(t.k)), after)
    ensures OutCell(t.k, w, d) < |after| && after[OutCell(t.k, w, d)] == StrideFold(Sum, Shares(t, d), w, t.k.warps)
  {
    var u := ValueCell(t, mem, w, d);
    var progs: seq<Code>, owner := ValueCode(t), (a: nat) => AddingThread(t.k, a);
    assert progs[u] == ValueBody(t, u);
    ValueOwned(t);
    AdderOf(t.k, w, d);
    hide TaskOk, SumKnown, ValueCode, ValueBody, Reaches, Alone, InRange, Shares, OutCell, Threads, Cells, Owned;
    OwnedCell(progs, mem, Fresh(t), after, owner, u, OutCell(t.k, w, d));
  }
}
