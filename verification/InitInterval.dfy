/** Before the first barrier: every score cell is marked as masked and every partial row is zeroed. */
module InitInterval {
  import opened Results
  import opened Schedules
  import opened Strides
  import opened WarpGroups
  import opened KernelLayout
  import opened ScoreInterval
  import opened ExpInterval

  /** Thread `u` of `step` writes `v` to every `step`-th of the `n` cells from `base` on. */
  ghost function FillBody(base: nat, n: nat, v: real, u: nat, step: nat): (p: Code)
    requires step > 0
    ensures |p| == Turns(u, n, step)
    ensures forall j | 0 <= j < |p| :: p[j] == Write(base + Visit(u, j, step), v)
  {
    seq(Turns(u, n, step), j requires 0 <= j < Turns(u, n, step) => Write(base + Visit(u, j, step), v))
  }

  lemma FillAt(base: nat, n: nat, v: real, u: nat, step: nat, j: nat)
    requires u < step && j < |FillBody(base, n, v, u, step)|
    ensures var a := base + Visit(u, j, step);
            base <= a < base + n && (a - base) % step == u && FillBody(base, n, v, u, step)[j] == Write(a, v)
  {
    TurnsBound(u, n, step, j);
    VisitResidue(u, j, step);
  }

  /** Every cell of the region is written, by the thread of its residue. */
  lemma Fills(base: nat, n: nat, v: real, a: nat, step: nat)
    requires step > 0 && base <= a < base + n
    ensures Writes(FillBody(base, n, v, (a - base) % step, step), a)
  {
    var e: nat := a - base;
    var i: nat := e / step;
    VisitedBy(e, n, step);
    hide Visit, Turns;
    assert FillBody(base, n, v, e % step, step)[i] == Write(a, v);
  }

  ghost function OutBase(k: Kernel): nat { k.maxSeq + 128 }

  ghost function OutSize(k: Kernel): nat { k.warps * k.headSize }

  ghost function InitBody(t: Task, u: nat): Code
    requires Threads(t.k) > 0
  {
    FillBody(0, t.k.maxSeq, t.a.low, u, Threads(t.k)) + FillBody(OutBase(t.k), OutSize(t.k), 0.0, u, Threads(t.k))
  }

  ghost function InitCode(t: Task): (r: seq<Code>)
    requires Threads(t.k) > 0
    ensures |r| == Threads(t.k) && forall u | 0 <= u < |r| :: r[u] == InitBody(t, u)
  {
    seq(Threads(t.k), u requires 0 <= u < Threads(t.k) => InitBody(t, u))
  }

  /** The thread that initialises a cell; nobody owns the others. */
  ghost function InitOwner(k: Kernel, a: nat): nat
    requires Threads(k) > 0
  {
    if a < k.maxSeq then a % Threads(k)
    else if OutBase(k) <= a < SharedCells(k) then (a - OutBase(k)) % Threads(k)
    else Threads(k)
  }

  /** An action of a thread's body. */
  lemma InitAt(t: Task, u: nat, i: nat)
    requires u < Threads(t.k) && i < |InitBody(t, u)|
    ensures exists a: nat :: InitOwner(t.k, a) == u && a < SharedCells(t.k)
                             && InitBody(t, u)[i] == Write(a, if a < t.k.maxSeq then t.a.low else 0.0)
  {
    var step := Threads(t.k);
    var first, second := FillBody(0, t.k.maxSeq, t.a.low, u, step), FillBody(OutBase(t.k), OutSize(t.k), 0.0, u, step);
    assert SharedCells(t.k) == OutBase(t.k) + OutSize(t.k);
    hide FillBody, Threads, Visit, OutSize, SharedCells;
    var a: nat;
    if i < |first| {
      FillAt(0, t.k.maxSeq, t.a.low, u, step, i);
      a := Visit(u, i, step);
    } else {
      FillAt(OutBase(t.k), OutSize(t.k), 0.0, u, step, i - |first|);
      a := OutBase(t.k) + Visit(u, i - |first|, step);
    }
    assert InitOwner(t.k, a) == u && InitBody(t, u)[i] == Write(a, if a < t.k.maxSeq then t.a.low else 0.0);
  }

  lemma InitInRange(t: Task, u: nat, n: nat)
    requires u < Threads(t.k) && n >= SharedCells(t.k)
    ensures InRange(InitBody(t, u), n)
  {
    var p := InitBody(t, u);
    hide InitBody, InitOwner, Threads;
    forall i | 0 <= i < |p| ensures Fits(p[i], n) {
      InitAt(t, u, i);
    }
  }

  lemma InitOwned(t: Task)
    requires Threads(t.k) > 0
    ensures Owned(InitCode(t), (a: nat) => InitOwner(t.k, a))
  {
    var progs, owner := InitCode(t), (a: nat) => InitOwner(t.k, a);
    hide Threads, InitBody, InitOwner, InitCode, SharedCells;
    forall u, i | 0 <= u < |progs| && 0 <= i < |progs[u]| ensures KeepsTo(progs[u][i], owner, u, |progs|) {
      InitAt(t, u, i);
    }
  }

  /** Whatever the schedule, this is the state when the kernel's work starts. */
  lemma InitsAnySchedule(t: Task, mem: seq<real>, after: seq<real>)
    requires Threads(t.k) > 0 && |mem| == Cells(t.k)
    requires Reaches(InitCode(t), mem, Starts(Fresh(t), Threads(t.k)), after)
    ensures |after| == |mem|
    ensures forall a: nat | a < t.k.maxSeq :: after[a] == t.a.low
    ensures forall a: nat | OutBase(t.k) <= a < SharedCells(t.k) :: after[a] == 0.0
    ensures forall a: nat | a < |mem| && !(a < t.k.maxSeq || OutBase(t.k) <= a < SharedCells(t.k)) :: after[a] == mem[a]
  {
    hide Reaches, Owned, InitCode, InitBody, Threads, Cells, SharedCells;
    var progs, owner := InitCode(t), (a: nat) => InitOwner(t.k, a);
    InitOwned(t);
    ReachesSize(progs, mem, Starts(Fresh(t), Threads(t.k)), after);
    SharedWithin(t.k);
    forall a: nat | a < SharedCells(t.k) && (a < t.k.maxSeq || OutBase(t.k) <= a)
      ensures after[a] == if a < t.k.maxSeq then t.a.low else 0.0
    {
      InitCell(t, mem, after, a);
    }
    forall a: nat | a < |mem| && !(a < t.k.maxSeq || OutBase(t.k) <= a < SharedCells(t.k)) ensures after[a] == mem[a] {
      UnownedCell(progs, mem, Fresh(t), after, owner, a);
    }
  }

  lemma SharedWithin(k: Kernel)
    ensures OutBase(k) <= SharedCells(k) <= Cells(k)
  {
  }

  lemma InitCell(t: Task, mem: seq<real>, after: seq<real>, a: nat)
    requires Threads(t.k) > 0 && |mem| == Cells(t.k) && a < SharedCells(t.k) && (a < t.k.maxSeq || OutBase(t.k) <= a)
    requires Reaches(InitCode(t), mem, Starts(Fresh(t), Threads(t.k)), after)
    ensures |after| == |mem| && after[a] == if a < t.k.maxSeq then t.a.low else 0.0
  {
    var progs, owner := InitCode(t), (b: nat) => InitOwner(t.k, b);
    var u, v := InitOwner(t.k, a), if a < t.k.maxSeq then t.a.low else 0.0;
    InitOwned(t);
    var p := progs[u];
    assert p == InitBody(t, u);
    InitWrites(t, a);
    hide Reaches, Owned, InitCode, InitBody, Threads, SharedCells, InitOwner;
    OwnedCell(progs, mem, Fresh(t), after, owner, u, a);
    forall i, r: Regs | 0 <= i < |p| && p[i].dst == Some(a) ensures p[i].out(r) == v {
      InitAt(t, u, i);
    }
    SameWrites(p, Fresh(t), mem, a, v);
  }

  lemma InitWrites(t: Task, a: nat)
    requires Threads(t.k) > 0 && a < SharedCells(t.k) && (a < t.k.maxSeq || OutBase(t.k) <= a)
    ensures InitOwner(t.k, a) < Threads(t.k) && Writes(InitBody(t, InitOwner(t.k, a)), a)
  {
    var u, step := InitOwner(t.k, a), Threads(t.k);
    var first, second := FillBody(0, t.k.maxSeq, t.a.low, u, step), FillBody(OutBase(t.k), OutSize(t.k), 0.0, u, step);
    assert SharedCells(t.k) == OutBase(t.k) + OutSize(t.k) && InitBody(t, u) == first + second;
    hide FillBody, Threads, OutSize, SharedCells, InitBody;
    if a < t.k.maxSeq {
      Fills(0, t.k.maxSeq, t.a.low, a, step);
      WritesLeft(first, second, a);
    } else {
      Fills(OutBase(t.k), OutSize(t.k), 0.0, a, step);
      WritesRight(first, second, a);
    }
  }

  lemma WritesLeft(p: Code, q: Code, a: nat)
    requires Writes(p, a)
    ensures Writes(p + q, a)
  {
    var i :| 0 <= i < |p| && p[i].dst == Some(a);
    assert (p + q)[i] == p[i];
  }

  lemma WritesRight(p: Code, q: Code, a: nat)
    requires Writes(q, a)
    ensures Writes(p + q, a)
  {
    var i :| 0 <= i < |q| && q[i].dst == Some(a);
    assert (p + q)[|p| + i] == q[i];
  }
}
