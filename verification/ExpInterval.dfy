/** Every score becomes a shifted exponential, and each warp leaves the sum of its exponentials. */
module ExpInterval {
  import opened Results
  import opened Schedules
  import opened Strides
  import opened Reductions
  import opened WarpGroups
  import opened WarpTeams
  import opened Attention
  import opened KernelLayout
  import opened ScoreInterval
  import opened ReduceInterval

  /** A masked position counts for nothing. */
  ghost function ExpStep(a: Query, l: Regs, v: real): Regs {
    var e := if v == a.low then 0.0 else a.exp(v - l.max);
    Regs(l.max, l.sum + e, e)
  }

  ghost function ExpAct(t: Task, i: nat): (a: Action<real, Regs>)
    ensures a.srcs == [i] && a.dst == Some(i)
  {
    Action([i], (l: Regs, vs: seq<real>) => if |vs| == 1 then ExpStep(t.a, l, vs[0]) else l, Some(i), (l: Regs) => l.val)
  }

  lemma ExpActs(t: Task, i: nat, l: Regs, mem: seq<real>)
    requires i < |mem|
    ensures var n := ExpStep(t.a, l, mem[i]); Act(ExpAct(t, i), l, mem) == (n, mem[i := n.val])
  {
    assert ReadAll(mem, [i]) == [mem[i]];
  }

  ghost function MaxCell(k: Kernel): nat { RedCell(k, 127) }

  ghost function ThreadTurns(t: Task, u: nat): nat
    requires TaskOk(t)
  {
    Turns(u, |t.keys|, Threads(t.k))
  }

  /** Loads the maximum, then visits every `Threads`-th score. */
  ghost function ExpBody(t: Task, u: nat): (p: Code)
    requires TaskOk(t)
    ensures |p| == 1 + ThreadTurns(t, u)
  {
    [LoadAct(Max(t.a.low), MaxCell(t.k))]
    + seq(ThreadTurns(t, u), j requires 0 <= j < ThreadTurns(t, u) => ExpAct(t, Visit(u, j, Threads(t.k))))
  }

  ghost function ExpBodies(t: Task): (r: seq<Code>)
    requires TaskOk(t)
    ensures |r| == Threads(t.k) && forall u | 0 <= u < |r| :: r[u] == ExpBody(t, u)
  {
    seq(Threads(t.k), u requires 0 <= u < Threads(t.k) => ExpBody(t, u))
  }

  lemma ThreadsPositive(k: Kernel)
    requires KernelOk(k)
    ensures Threads(k) > 0
  {
    MulMonotone(1, k.warps, k.lanes);
  }

  /** The actions of a body. */
  lemma ExpAt(t: Task, u: nat, i: nat)
    requires TaskOk(t) && u < Threads(t.k) && i < |ExpBody(t, u)|
    ensures i == 0 ==> ExpBody(t, u)[i] == LoadAct(Max(t.a.low), MaxCell(t.k))
    ensures i > 0 ==> ExpBody(t, u)[i] == ExpAct(t, Visit(u, i - 1, Threads(t.k))) && Visit(u, i - 1, Threads(t.k)) < |t.keys|
  {
    if i > 0 {
      TurnsBound(u, |t.keys|, Threads(t.k), i - 1);
    }
  }

  lemma ExpInRange(t: Task, u: nat, n: nat)
    requires TaskOk(t) && u < Threads(t.k) && n >= SharedCells(t.k)
    ensures InRange(ExpBody(t, u), n)
  {
    RedFits(t.k, 127);
    TaskFits(t);
    var p := ExpBody(t, u);
    hide TaskOk, ExpBody;
    forall i | 0 <= i < |p| ensures Fits(p[i], n) {
      ExpAt(t, u, i);
    }
  }

  ghost function ElementOwner(k: Kernel, n: nat, a: nat): nat {
    if Threads(k) > 0 && a < n then a % Threads(k) else Threads(k)
  }

  lemma VisitResidue(u: nat, j: nat, step: nat)
    requires u < step
    ensures Visit(u, j, step) % step == u
  {
    DigitsOf(j, u, step);
  }

  lemma ExpRaceFree(t: Task)
    requires TaskOk(t)
    ensures RaceFree(ExpBodies(t)) && CellsFree(ExpBodies(t), WarpCells(t.k))
  {
    var bodies, owner := ExpBodies(t), (a: nat) => ElementOwner(t.k, |t.keys|, a);
    assert t.k.maxSeq >= |t.keys| && t.k.warps <= 126;
    hide TaskOk, KernelOk, ExpBody, Threads;
    forall u, i | 0 <= u < |bodies| && 0 <= i < |bodies[u]|
      ensures KeepsTo(bodies[u][i], owner, u, |bodies|)
      ensures forall w | 0 <= w < t.k.warps :: Clear(RedCell(t.k, w), bodies[u][i])
    {
      ExpAt(t, u, i);
      if i > 0 {
        VisitResidue(u, i - 1, Threads(t.k));
      }
    }
    OwnedRaceFree(bodies, owner);
    forall w, u | 0 <= w < t.k.warps && 0 <= u < |bodies| ensures !Touches(bodies[u], RedCell(t.k, w)) {
      assert forall i | 0 <= i < |bodies[u]| :: Clear(RedCell(t.k, w), bodies[u][i]);
    }
  }

  // ---------------------------------------------------------------- registers and cells of one thread

  ghost function TaskExps(t: Task): (r: seq<real>)
    requires TaskOk(t)
    ensures |r| == |t.keys|
  {
    Shifted(t.a, TaskScores(t))
  }

  /** The state before the interval. */
  ghost predicate MaxKnown(t: Task, mem: seq<real>)
    requires TaskOk(t)
  {
    && |mem| == Cells(t.k) && (forall x | 0 <= x < |t.keys| :: mem[x] == TaskScores(t)[x])
    && MaxCell(t.k) < |mem| && mem[MaxCell(t.k)] == Fold(Max(t.a.low), TaskScores(t))
  }

  /** Thread `u` of `step` has visited element `x` within its first `n` turns. */
  ghost predicate Turned(x: nat, u: nat, n: nat, step: nat) {
    step > 0 && x % step == u && x / step < n
  }

  lemma NoneTurned(x: nat, u: nat, step: nat)
    ensures !Turned(x, u, 0, step)
  {
  }

  /** After the load and `n` turns. */
  ghost predicate ExpState(t: Task, u: nat, mem: seq<real>, n: nat, l: Regs, now: seq<real>)
    requires TaskOk(t) && u < Threads(t.k) && n <= ThreadTurns(t, u)
  {
    && |now| == |mem| && l.max == Fold(Max(t.a.low), TaskScores(t))
    && l.sum == Fold(Sum, Visited(TaskExps(t), u, Threads(t.k))[..n])
    && (forall x | 0 <= x < |t.keys| && x < |mem| ::
          now[x] == if Turned(x, u, n, Threads(t.k)) then TaskExps(t)[x] else mem[x])
  }

  lemma ExpLoads(t: Task, u: nat, mem: seq<real>)
    requires TaskOk(t) && u < Threads(t.k) && MaxKnown(t, mem)
    ensures InRange(ExpBody(t, u)[..1], |mem|)
    ensures var r := Alone(ExpBody(t, u)[..1], Fresh(t), mem); ExpState(t, u, mem, 0, r.0, r.1)
  {
    var p := ExpBody(t, u);
    ExpAt(t, u, 0);
    ExpInRange(t, u, Cells(t.k));
    ExpBegins(t, u, mem);
    assert |p| > 0 && MaxCell(t.k) < |mem| == Cells(t.k);
    hide ExpBody, InRange, ExpState, MaxKnown, TaskOk, Alone, Act, Threads, LoadAct;
    AloneStep(p, Fresh(t), mem, 0);
    AloneNothing(p, Fresh(t), mem);
    LoadActs(Max(t.a.low), MaxCell(t.k), Fresh(t), mem);
  }

  lemma ExpBegins(t: Task, u: nat, mem: seq<real>)
    requires TaskOk(t) && u < Threads(t.k) && MaxKnown(t, mem)
    ensures ExpState(t, u, mem, 0, Loaded(Max(t.a.low), Fresh(t), mem[MaxCell(t.k)]), mem)
  {
    hide TaskOk, KernelOk, TaskScores, TaskExps, Visited, Threads, ThreadTurns, Turned, Cells, Turns;
    TaskFits(t);
    assert Visited(TaskExps(t), u, Threads(t.k))[..0] == [] && Fold(Sum, []) == 0.0;
    hide Fold;
    forall x | 0 <= x < |t.keys| ensures !Turned(x, u, 0, Threads(t.k)) {
      NoneTurned(x, u, Threads(t.k));
    }
  }

  lemma ExpTurn(t: Task, u: nat, mem: seq<real>, n: nat, l: Regs, now: seq<real>)
    requires TaskOk(t) && u < Threads(t.k) && MaxKnown(t, mem) && n < ThreadTurns(t, u) && ExpState(t, u, mem, n, l, now)
    ensures Visit(u, n, Threads(t.k)) < |t.keys|
    ensures var r := Act(ExpAct(t, Visit(u, n, Threads(t.k))), l, now); ExpState(t, u, mem, n + 1, r.0, r.1)
  {
    var step, w := Threads(t.k), TaskExps(t);
    var x := Visit(u, n, step);
    TurnsBound(u, |t.keys|, step, n);
    DigitsOf(n, u, step);
    assert x % step == u && x / step == n;
    ScoresFit(t, []);
    assert now[x] == TaskScores(t)[x] && t.a.low < TaskScores(t)[x];
    ExpActs(t, x, l, now);
    assert ExpStep(t.a, l, now[x]).val == w[x];
    var v := Visited(w, u, step);
    assert v[n] == w[x] && v[..n + 1] == v[..n] + [v[n]];
    FoldAppend(Sum, v[..n], v[n]);
    var r := Act(ExpAct(t, x), l, now);
    hide Fold, Visited, TaskExps, TaskScores, Threads, Visit, TaskOk;
    forall y | 0 <= y < |t.keys| && y < |mem|
      ensures r.1[y] == if Turned(y, u, n + 1, step) then w[y] else mem[y]
    {
      if y % step == u && y / step == n {
        SameThreadElement(x, y, step);
      }
    }
  }

  lemma SameThreadElement(x: nat, y: nat, step: nat)
    requires step > 0 && x % step == y % step && x / step == y / step
    ensures x == y
  {
    DivMod(x, step);
    DivMod(y, step);
  }

  lemma {:induction false} ExpRegs(t: Task, u: nat, mem: seq<real>, n: nat)
    requires TaskOk(t) && u < Threads(t.k) && MaxKnown(t, mem) && n <= ThreadTurns(t, u)
    ensures InRange(ExpBody(t, u)[..1 + n], |mem|)
    ensures var r := Alone(ExpBody(t, u)[..1 + n], Fresh(t), mem); ExpState(t, u, mem, n, r.0, r.1)
    decreases n
  {
    hide ExpBody, InRange, ExpState, Alone, Act, TaskOk, KernelOk, MaxKnown, Threads, ThreadTurns, Cells, ExpAct;
    if n == 0 {
      ExpLoads(t, u, mem);
    } else {
      ExpRegs(t, u, mem, n - 1);
      TaskFits(t);
      ExpInRange(t, u, Cells(t.k));
      ExpAt(t, u, n);
      MaxKnownSize(t, mem);
      var p := ExpBody(t, u);
      AloneStep(p, Fresh(t), mem, n);
      assert 1 + (n - 1) == n && n + 1 == 1 + n;
      var r := Alone(p[..n], Fresh(t), mem);
      ExpTurn(t, u, mem, n - 1, r.0, r.1);
    }
  }

  lemma MaxKnownSize(t: Task, mem: seq<real>)
    requires TaskOk(t) && MaxKnown(t, mem)
    ensures |mem| == Cells(t.k)
  {
  }

  // ---------------------------------------------------------------- the result

  lemma ExpTeamOk(t: Task, n: nat)
    requires TaskOk(t) && n >= SharedCells(t.k)
    ensures TeamOk(ExpBodies(t), n, t.k.lanes, WarpCells(t.k))
  {
    hide TaskOk, KernelOk, SharedCells, ExpBody, InRange, RedCell;
    TaskFits(t);
    var bodies, cells := ExpBodies(t), WarpCells(t.k);
    forall u | 0 <= u < |bodies| ensures InRange(bodies[u], n) {
      ExpInRange(t, u, n);
    }
    forall w | 0 <= w < |cells| ensures cells[w] < n {
      RedFits(t.k, w);
    }
  }

  ghost function ExpTeam(t: Task): Team
    requires TaskOk(t)
  {
    Team(Sum, ExpBodies(t), t.k.lanes, WarpCells(t.k))
  }

  /** A thread's register ends as its stride's share of the sum, and its cells as exponentials. */
  lemma ThreadSum(t: Task, u: nat, mem: seq<real>)
    requires TaskOk(t) && u < Threads(t.k) && MaxKnown(t, mem)
    ensures InRange(ExpBody(t, u), |mem|)
    ensures var r := Alone(ExpBody(t, u), Fresh(t), mem);
            && r.0.sum == StrideFold(Sum, TaskExps(t), u, Threads(t.k))
            && (forall x | 0 <= x < |t.keys| && x < |mem| && x % Threads(t.k) == u :: r.1[x] == TaskExps(t)[x])
  {
    var n := ThreadTurns(t, u);
    ExpRegs(t, u, mem, n);
    var v := Visited(TaskExps(t), u, Threads(t.k));
    assert ExpBody(t, u)[..1 + n] == ExpBody(t, u) && v[..n] == v;
    VisitedFold(Sum, TaskExps(t), u, Threads(t.k));
    hide ExpBody, InRange, Alone, MaxKnown, TaskExps, Visited;
    forall x | 0 <= x < |t.keys| && x < |mem| && x % Threads(t.k) == u ensures x / Threads(t.k) < n {
      VisitedBy(x, |t.keys|, Threads(t.k));
    }
  }

  ghost function ThreadSums(t: Task): (r: seq<real>)
    requires TaskOk(t)
    ensures |r| == Threads(t.k)
  {
    ThreadsPositive(t.k);
    seq(Threads(t.k), u requires 0 <= u < Threads(t.k) => StrideFold(Sum, TaskExps(t), u, Threads(t.k)))
  }

  lemma ExpBodyAt(t: Task, u: nat)
    requires TaskOk(t) && u < Threads(t.k)
    ensures ExpBodies(t)[u] == ExpBody(t, u)
  {
  }

  lemma ThreadSumAt(t: Task, u: nat)
    requires TaskOk(t) && u < Threads(t.k)
    ensures ThreadSums(t)[u] == StrideFold(Sum, TaskExps(t), u, Threads(t.k))
  {
    hide TaskExps;
  }

  /** The exchange leaves in a warp's lead the sum over its threads. */
  lemma WarpSum(t: Task, mem: seq<real>, w: nat)
    requires TaskOk(t) && MaxKnown(t, mem) && w < t.k.warps && TeamOk(ExpBodies(t), |mem|, t.k.lanes, WarpCells(t.k))
    ensures GroupFold(Sum, ExpBodies(t), Fresh(t), mem, t.k.lanes, WarpCells(t.k), w)
         == Fold(Sum, PieceOf(ThreadSums(t), t.k.lanes, w))
  {
    var lanes := t.k.lanes;
    GroupFolds(Sum, ExpBodies(t), Fresh(t), mem, lanes, WarpCells(t.k), w);
    var v := LaneValues(Sum, ExpBodies(t), Fresh(t), mem, lanes, w);
    var piece := PieceOf(ThreadSums(t), lanes, w);
    GroupPiece(ThreadSums(t), t.k.warps, lanes, w);
    hide TaskOk, MaxKnown, TeamOk, ExpBodies, ThreadSums, GroupFold, LaneValues, PieceOf, Digits, Threads;
    forall l | 0 <= l < lanes ensures v[l] == piece[l] {
      LaneSum(t, mem, w, l);
    }
    assert v == piece;
  }

  lemma GroupPiece(v: seq<real>, groups: nat, size: nat, g: nat)
    requires g < groups && size > 0 && |v| == groups * size
    ensures |PieceOf(v, size, g)| == size
    ensures forall o | 0 <= o < size :: Digits(g, size, o) < |v| && PieceOf(v, size, g)[o] == v[Digits(g, size, o)]
  {
    MulMonotone(g + 1, groups, size);
    assert (g + 1) * size == g * size + size;
    forall o | 0 <= o < size ensures Digits(g, size, o) < |v| && PieceOf(v, size, g)[o] == v[Digits(g, size, o)] {
      PieceAt(v, size, g, o);
    }
  }

  lemma LaneSum(t: Task, mem: seq<real>, w: nat, l: nat)
    requires TaskOk(t) && MaxKnown(t, mem) && TeamOk(ExpBodies(t), |mem|, t.k.lanes, WarpCells(t.k)) && w < t.k.warps && l < t.k.lanes
    ensures Digits(w, t.k.lanes, 0) + t.k.lanes <= |ExpBodies(t)| && Digits(w, t.k.lanes, l) < Threads(t.k)
    ensures LaneValues(Sum, ExpBodies(t), Fresh(t), mem, t.k.lanes, w)[l] == ThreadSums(t)[Digits(w, t.k.lanes, l)]
  {
    var u := Digits(w, t.k.lanes, l);
    ThreadAt(w, l, t.k.warps, t.k.lanes);
    assert u < Threads(t.k);
    hide TaskOk, MaxKnown, TeamOk, ExpBody, ExpBodies, ThreadSums, LaneValues, Digits, Threads, Alone, InRange, TaskExps;
    ThreadSum(t, u, mem);
    ExpBodyAt(t, u);
    ThreadSumAt(t, u);
    LaneOfGroup(Sum, ExpBodies(t), Fresh(t), mem, t.k.lanes, WarpCells(t.k), w, l, u, ExpBody(t, u));
  }

  /** After the interval: exponentials in place, and warp sums whose sum is that of all exponentials. */
  ghost predicate Exponentiated(t: Task, mem: seq<real>, after: seq<real>)
    requires TaskOk(t)
  {
    && |after| == |mem| == Cells(t.k)
    && (forall x | 0 <= x < |t.keys| :: after[x] == TaskExps(t)[x])
    && Fold(Sum, RedValues(t.k, after)) == Fold(Sum, TaskExps(t))
    && (forall a: nat | t.k.maxSeq + 128 <= a < |mem| :: after[a] == mem[a])
  }

  lemma RedsAreSum(t: Task, mem: seq<real>, after: seq<real>)
    requires TaskOk(t) && MaxKnown(t, mem) && |after| == |mem| && TeamOk(ExpBodies(t), |mem|, t.k.lanes, WarpCells(t.k))
    requires forall w | 0 <= w < t.k.warps ::
               RedCell(t.k, w) < |after| && after[RedCell(t.k, w)]
                 == GroupFold(Sum, ExpBodies(t), Fresh(t), mem, t.k.lanes, WarpCells(t.k), w)
    ensures Fold(Sum, RedValues(t.k, after)) == Fold(Sum, TaskExps(t))
  {
    var v, sums, k := RedValues(t.k, after), ThreadSums(t), t.k;
    ThreadsPositive(k);
    hide GroupFold, TeamOk, ExpBodies, MaxKnown, TaskExps, Fold;
    forall w | 0 <= w < k.warps ensures v[w] == Fold(Sum, PieceOf(sums, k.lanes, w)) {
      WarpSum(t, mem, w);
    }
    PiecesTotal(Sum, sums, k.lanes, v, k.warps);
    assert v[..k.warps] == v && Pieces(sums, k.lanes, k.warps) == sums;
    StridesTotal(Sum, TaskExps(t), Threads(k), sums, Threads(k));
  }

  /** Whatever the schedule, the interval does this. */
  lemma ExpsAnySchedule(t: Task, mem: seq<real>, after: seq<real>)
    requires TaskOk(t) && MaxKnown(t, mem)
    requires TeamReaches(ExpTeam(t), Fresh(t), mem, after)
    ensures Exponentiated(t, mem, after)
  {
    var bodies, cells := ExpBodies(t), WarpCells(t.k);
    ExpRaceFree(t);
    TeamResult(ExpTeam(t), Fresh(t), mem, after);
    forall x | 0 <= x < |t.keys| ensures after[x] == TaskExps(t)[x] {
      var u := ExpCell(t, mem, x);
      assert bodies[u] == ExpBody(t, u);
    }
    RedsAreSum(t, mem, after);
    assert t.k.maxSeq >= |t.keys| && t.k.warps <= 126;
    hide TaskOk, KernelOk, ExpBody;
    forall a: nat | t.k.maxSeq + 128 <= a < |mem| ensures after[a] == mem[a] {
      forall u | 0 <= u < |bodies| ensures !Writes(bodies[u], a) {
        forall i | 0 <= i < |bodies[u]| ensures bodies[u][i].dst != Some(a) {
          ExpAt(t, u, i);
        }
      }
      assert a !in cells;
    }
  }

  lemma ExpCell(t: Task, mem: seq<real>, x: nat) returns (u: nat)
    requires TaskOk(t) && MaxKnown(t, mem) && x < |t.keys|
    ensures u < Threads(t.k) && x < |mem| && InRange(ExpBody(t, u), |mem|) && Writes(ExpBody(t, u), x)
    ensures Alone(ExpBody(t, u), Fresh(t), mem).1[x] == TaskExps(t)[x]
  {
    hide TaskOk, KernelOk, Threads, MaxKnown, ExpBody, Alone, InRange, TaskExps;
    TaskFits(t);
    ThreadsPositive(t.k);
    MaxKnownSize(t, mem);
    u := x % Threads(t.k);
    CellExp(t, u, mem, x);
    ExpWrites(t, u, x);
  }

  lemma CellExp(t: Task, u: nat, mem: seq<real>, x: nat)
    requires TaskOk(t) && MaxKnown(t, mem) && u < Threads(t.k) && x < |t.keys| && x < |mem| && x % Threads(t.k) == u
    ensures InRange(ExpBody(t, u), |mem|) && Alone(ExpBody(t, u), Fresh(t), mem).1[x] == TaskExps(t)[x]
  {
    hide TaskOk, Threads, MaxKnown, ExpBody, Alone, InRange, TaskExps;
    ThreadSum(t, u, mem);
  }

  lemma ExpWrites(t: Task, u: nat, x: nat)
    requires TaskOk(t) && u < Threads(t.k) && x < |t.keys| && x % Threads(t.k) == u
    ensures Writes(ExpBody(t, u), x)
  {
    hide TaskOk, Threads, ExpBody, Visit, Turns;
    var i: nat := x / Threads(t.k);
    VisitedBy(x, |t.keys|, Threads(t.k));
    ExpAt(t, u, 1 + i);
    assert ExpBody(t, u)[1 + i].dst == Some(x);
  }
}
