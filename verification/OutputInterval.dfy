/** After the last barrier: the warps' partial rows are added up into the output row. */
module OutputInterval {
  import opened Results
  import opened Schedules
  import opened Strides
  import opened Reductions
  import opened WarpGroups
  import opened KernelLayout
  import opened ExpInterval
  import opened InitInterval

  /** Element `d` of every warp's partial row. */
  ghost function ColumnCells(k: Kernel, d: nat): (r: seq<nat>)
    ensures |r| == k.warps && forall w | 0 <= w < |r| :: r[w] == OutCell(k, w, d)
  {
    seq(k.warps, w requires 0 <= w < k.warps => OutCell(k, w, d))
  }

  ghost function OutAct(k: Kernel, d: nat): (a: Action<real, Regs>)
    ensures a.srcs == ColumnCells(k, d) && a.dst == Some(RowCell(k, d))
  {
    Action(ColumnCells(k, d), (l: Regs, vs: seq<real>) => l.(val := Fold(Sum, vs)), Some(RowCell(k, d)), (l: Regs) => l.val)
  }

  ghost function OutputBody(k: Kernel, u: nat): (p: Code)
    requires Threads(k) > 0
    ensures |p| == Turns(u, k.headSize, Threads(k))
    ensures forall j | 0 <= j < |p| :: p[j] == OutAct(k, Visit(u, j, Threads(k)))
  {
    seq(Turns(u, k.headSize, Threads(k)), j requires 0 <= j < Turns(u, k.headSize, Threads(k)) => OutAct(k, Visit(u, j, Threads(k))))
  }

  ghost function OutputCode(k: Kernel): (r: seq<Code>)
    requires Threads(k) > 0
    ensures |r| == Threads(k) && forall u | 0 <= u < |r| :: r[u] == OutputBody(k, u)
  {
    seq(Threads(k), u requires 0 <= u < Threads(k) => OutputBody(k, u))
  }

  lemma OutputAt(k: Kernel, u: nat, j: nat)
    requires u < Threads(k) && j < |OutputBody(k, u)|
    ensures var d := Visit(u, j, Threads(k)); d < k.headSize && d % Threads(k) == u && OutputBody(k, u)[j] == OutAct(k, d)
  {
    TurnsBound(u, k.headSize, Threads(k), j);
    VisitResidue(u, j, Threads(k));
  }

  /** The thread that writes an element of the output; nobody owns the other cells. */
  ghost function OutputOwner(k: Kernel, a: nat): nat {
    if SharedCells(k) <= a && Threads(k) > 0 then (a - SharedCells(k)) % Threads(k) else Threads(k)
  }

  lemma OutputKeeps(k: Kernel, u: nat, d: nat)
    requires u < Threads(k) && d < k.headSize && d % Threads(k) == u
    ensures KeepsTo(OutAct(k, d), (a: nat) => OutputOwner(k, a), u, Threads(k))
  {
    var cells := ColumnCells(k, d);
    hide Threads, OutAct;
    forall w | 0 <= w < |cells| ensures OutputOwner(k, cells[w]) >= Threads(k) {
      OutCellFits(k, w, d);
    }
  }

  lemma OutputOwned(k: Kernel)
    requires Threads(k) > 0
    ensures Owned(OutputCode(k), (a: nat) => OutputOwner(k, a))
  {
    var progs, owner := OutputCode(k), (a: nat) => OutputOwner(k, a);
    hide Threads, OutputBody, OutputOwner, OutputCode, Visit, OutAct;
    forall u, i | 0 <= u < |progs| && 0 <= i < |progs[u]| ensures KeepsTo(progs[u][i], owner, u, |progs|) {
      OutputAt(k, u, i);
      OutputKeeps(k, u, Visit(u, i, Threads(k)));
    }
  }

  lemma OutputInRange(k: Kernel, u: nat)
    requires u < Threads(k)
    ensures InRange(OutputBody(k, u), Cells(k))
  {
    var p := OutputBody(k, u);
    forall i | 0 <= i < |p| ensures Fits(p[i], Cells(k)) {
      OutputAt(k, u, i);
      OutFits(k, Visit(u, i, Threads(k)));
    }
  }

  lemma OutFits(k: Kernel, d: nat)
    requires d < k.headSize
    ensures Fits(OutAct(k, d), Cells(k))
  {
    var cells := ColumnCells(k, d);
    forall w | 0 <= w < |cells| ensures cells[w] < Cells(k) {
      OutCellFits(k, w, d);
    }
  }

  /** It reads threadgroup memory only, and writes its own element of the row only. */
  lemma OutputPlaces(k: Kernel, u: nat, i: nat)
    requires u < Threads(k) && i < |OutputBody(k, u)|
    ensures var a := OutputBody(k, u)[i];
            && (forall w | 0 <= w < |a.srcs| :: a.srcs[w] < SharedCells(k))
            && exists d: nat :: d < k.headSize && d % Threads(k) == u && a.dst == Some(RowCell(k, d))
  {
    var a, d := OutputBody(k, u)[i], Visit(u, i, Threads(k));
    OutputAt(k, u, i);
    forall w | 0 <= w < |a.srcs| ensures a.srcs[w] < SharedCells(k) {
      OutCellFits(k, w, d);
    }
  }

  /** Element `d` of the partial rows. */
  ghost function Column(k: Kernel, mem: seq<real>, d: nat): (r: seq<real>)
    requires |mem| == Cells(k) && d < k.headSize
    ensures |r| == k.warps
  {
    seq(k.warps, w requires 0 <= w < k.warps => (OutCellFits(k, w, d); mem[OutCell(k, w, d)]))
  }

  lemma OutActs(k: Kernel, d: nat, l: Regs, mem: seq<real>)
    requires |mem| == Cells(k) && d < k.headSize
    ensures Fits(OutAct(k, d), |mem|)
    ensures Act(OutAct(k, d), l, mem).0.val == Fold(Sum, Column(k, mem, d))
  {
    OutFits(k, d);
    assert ReadAll(mem, ColumnCells(k, d)) == Column(k, mem, d);
    hide Fold;
  }

  lemma ColumnSame(k: Kernel, mem: seq<real>, now: seq<real>, d: nat)
    requires |mem| == |now| == Cells(k) && d < k.headSize && forall a: nat | a < SharedCells(k) :: now[a] == mem[a]
    ensures Column(k, mem, d) == Column(k, now, d)
  {
    forall w | 0 <= w < k.warps ensures Column(k, mem, d)[w] == Column(k, now, d)[w] {
      OutCellFits(k, w, d);
    }
  }

  /** The turns of a thread write different elements, and none of them a partial row. */
  lemma OutputApart(k: Kernel, u: nat, i: nat, j: nat)
    requires u < Threads(k) && i < |OutputBody(k, u)| && j < |OutputBody(k, u)|
    ensures OutputBody(k, u)[i].dst == OutputBody(k, u)[j].dst ==> i == j
    ensures forall a: nat | a < SharedCells(k) :: OutputBody(k, u)[i].dst != Some(a)
  {
    if OutputBody(k, u)[i].dst == OutputBody(k, u)[j].dst {
      VisitedOnce(u, i, u, j, Threads(k));
    }
    hide Visit, Threads, SharedCells;
  }

  lemma RowsReadAsBefore(k: Kernel, u: nat, mem: seq<real>, l: Regs, n: nat)
    requires |mem| == Cells(k) && u < Threads(k) && n <= |OutputBody(k, u)|
    ensures InRange(OutputBody(k, u)[..n], |mem|)
    ensures forall a: nat | a < SharedCells(k) :: Alone(OutputBody(k, u)[..n], l, mem).1[a] == mem[a]
  {
    var p: Code := OutputBody(k, u);
    OutputInRange(k, u);
    PrefixInRange(p, |mem|, n);
    hide InRange, Alone, OutputBody, Threads;
    forall a: nat | a < SharedCells(k) ensures Alone(p[..n], l, mem).1[a] == mem[a] {
      forall i | 0 <= i < n ensures p[..n][i].dst != Some(a) {
        OutputApart(k, u, i, i);
      }
      NotYetWritten(p[..n], l, mem, a);
    }
  }

  /** The thread of an element adds up its column. */
  lemma OutputCell(k: Kernel, mem: seq<real>, d: nat, l: Regs)
    requires |mem| == Cells(k) && d < k.headSize && Threads(k) > 0
    ensures InRange(OutputBody(k, d % Threads(k)), |mem|)
    ensures Alone(OutputBody(k, d % Threads(k)), l, mem).1[RowCell(k, d)] == Fold(Sum, Column(k, mem, d))
  {
    var step := Threads(k);
    var u, j: nat := d % step, d / step;
    VisitedBy(d, k.headSize, step);
    var p: Code := OutputBody(k, u);
    assert u < step && j < |p| && p[j] == OutAct(k, d);
    hide Threads, OutputBody, InRange, Alone, Column, Fold, Turns, Visit, Cells, SharedCells, OutAct, Act;
    OutputInRange(k, u);
    forall i | j < i < |p| ensures p[i].dst != p[j].dst {
      OutputApart(k, u, i, j);
    }
    LastWrite(p, l, mem, j);
    AloneStep(p, l, mem, j);
    var r := Alone(p[..j], l, mem);
    RowsReadAsBefore(k, u, mem, l, j);
    OutActs(k, d, r.0, r.1);
    ColumnSame(k, mem, r.1, d);
    OutVal(k, d, Alone(p[..j + 1], l, mem).0);
  }

  lemma OutVal(k: Kernel, d: nat, l: Regs)
    ensures OutAct(k, d).out(l) == l.val
  {
  }

  /** Whatever the schedule, each element of the output is the sum over the warps. */
  lemma OutputsAnySchedule(k: Kernel, start: Regs, mem: seq<real>, after: seq<real>)
    requires |mem| == Cells(k) && Threads(k) > 0
    requires Reaches(OutputCode(k), mem, Starts(start, Threads(k)), after)
    ensures |after| == |mem|
    ensures forall d | 0 <= d < k.headSize :: after[RowCell(k, d)] == Fold(Sum, Column(k, mem, d))
    ensures forall a: nat | a < SharedCells(k) :: after[a] == mem[a]
  {
    var progs: seq<Code>, owner := OutputCode(k), (a: nat) => OutputOwner(k, a);
    OutputOwned(k);
    hide Reaches, Owned, OutputCode, OutputBody, Threads, Alone, InRange, Column, Fold, SharedCells;
    ReachesSize(progs, mem, Starts(start, Threads(k)), after);
    forall d | 0 <= d < k.headSize ensures after[RowCell(k, d)] == Fold(Sum, Column(k, mem, d)) {
      OutputCell(k, mem, d, start);
      OwnedCell(progs, mem, start, after, owner, d % Threads(k), RowCell(k, d));
    }
    forall a: nat | a < SharedCells(k) ensures after[a] == mem[a] {
      UnownedCell(progs, mem, start, after, owner, a);
    }
  }

  // ---------------------------------------------------------------- no context

  /** What every thread does when the context is empty or too long. */
  ghost function ZeroCode(k: Kernel): (r: seq<Code>)
    requires Threads(k) > 0
    ensures |r| == Threads(k)
    ensures forall u | 0 <= u < |r| :: r[u] == FillBody(SharedCells(k), k.headSize, 0.0, u, Threads(k))
  {
    seq(Threads(k), u requires 0 <= u < Threads(k) => FillBody(SharedCells(k), k.headSize, 0.0, u, Threads(k)))
  }

  /** Whatever the schedule, the output is then zero, and shared memory is not touched. */
  lemma ZeroesAnySchedule(k: Kernel, start: Regs, mem: seq<real>, after: seq<real>)
    requires |mem| == Cells(k) && Threads(k) > 0
    requires Reaches(ZeroCode(k), mem, Starts(start, Threads(k)), after)
    ensures |after| == |mem|
    ensures forall d | 0 <= d < k.headSize :: after[RowCell(k, d)] == 0.0
    ensures forall a: nat | a < SharedCells(k) :: after[a] == mem[a]
  {
    var progs: seq<Code>, owner := ZeroCode(k), (a: nat) => OutputOwner(k, a);
    var base, n, step := SharedCells(k), k.headSize, Threads(k);
    assert forall u | 0 <= u < step :: progs[u] == FillBody(base, n, 0.0, u, step);
    hide Reaches, ZeroCode, FillBody, Threads, Alone, InRange, SharedCells, Visit, Writes;
    forall u, i | 0 <= u < |progs| && 0 <= i < |progs[u]| ensures KeepsTo(progs[u][i], owner, u, |progs|) {
      FillAt(base, n, 0.0, u, step, i);
    }
    hide Owned;
    ReachesSize(progs, mem, Starts(start, step), after);
    forall d | 0 <= d < n ensures after[RowCell(k, d)] == 0.0 {
      var a := RowCell(k, d);
      var u := (a - base) % step;
      Fills(base, n, 0.0, a, step);
      OwnedCell(progs, mem, start, after, owner, u, a);
      forall i, r: Regs | 0 <= i < |progs[u]| && progs[u][i].dst == Some(a) ensures progs[u][i].out(r) == 0.0 {
        FillAt(base, n, 0.0, u, step, i);
      }
      SameWrites(progs[u], start, mem, a, 0.0);
    }
    forall a: nat | a < base ensures after[a] == mem[a] {
      UnownedCell(progs, mem, start, after, owner, a);
    }
  }
}
