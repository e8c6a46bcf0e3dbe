/** Copying cache blocks inside the caches, or from one buffer to another, under any schedule. */
module CopyBlocks {
  import opened Results
  import opened Schedules
  import opened Strides

  // ---------------------------------------------------------------- moves of single cells

  /** One element to copy: a load into the thread's register, then a store of it. */
  datatype Move = Move(from: nat, to: nat)

  ghost function Load<V>(a: nat): (r: Action<V, V>)
    ensures r.srcs == [a] && r.dst == None
  {
    Action([a], (l, vs: seq<V>) => if |vs| == 1 then vs[0] else l, None, l => l)
  }

  ghost function Save<V>(a: nat): (r: Action<V, V>)
    ensures r.srcs == [] && r.dst == Some(a)
  {
    Action([], (l, vs: seq<V>) => l, Some(a), l => l)
  }

  lemma LoadSave<V>(from: nat, to: nat, l: V, mem: seq<V>)
    requires from < |mem| && to < |mem|
    ensures Act(Load(from), l, mem) == (mem[from], mem)
    ensures Act(Save(to), mem[from], mem) == (mem[from], mem[to := mem[from]])
    ensures Save(to).out(mem[from]) == mem[from]
  {
    assert ReadAll(mem, [from]) == [mem[from]];
  }

  ghost function MoveAction<V>(ms: seq<Move>, k: nat): Action<V, V>
    requires k < 2 * |ms|
  {
    if k % 2 == 0 then Load(ms[k / 2].from) else Save(ms[k / 2].to)
  }

  ghost function CopyProgram<V>(ms: seq<Move>): (p: Program<V, V>)
    ensures |p| == 2 * |ms|
    ensures forall k | 0 <= k < |p| :: p[k] == MoveAction(ms, k)
  {
    seq(2 * |ms|, k requires 0 <= k < 2 * |ms| => MoveAction(ms, k))
  }

  ghost predicate MovesIn(ms: seq<Move>, n: nat) {
    forall j | 0 <= j < |ms| :: ms[j].from < n && ms[j].to < n
  }

  /** Moves to one cell come from one cell, and a move to a cell that any move reads leaves it as it is. */
  ghost predicate MovesAgree(all: seq<seq<Move>>) {
    forall t, j, u, k | 0 <= t < |all| && 0 <= j < |all[t]| && 0 <= u < |all| && 0 <= k < |all[u]| :: Agree(all[t][j], all[u][k])
  }

  ghost predicate Agree(x: Move, y: Move) {
    (x.to == y.to ==> x.from == y.from) && (x.to == y.from ==> x.from == x.to)
  }

  ghost function CopyPrograms<V>(all: seq<seq<Move>>): (r: seq<Program<V, V>>)
    ensures |r| == |all| && forall t | 0 <= t < |all| :: r[t] == CopyProgram<V>(all[t])
  {
    seq(|all|, t requires 0 <= t < |all| => CopyProgram<V>(all[t]))
  }

  lemma CopyInRange<V>(ms: seq<Move>, n: nat)
    requires MovesIn(ms, n)
    ensures InRange<V, V>(CopyProgram(ms), n)
  {
    var p: Program<V, V> := CopyProgram(ms);
    forall k | 0 <= k < |p| ensures (p[k].dst.Some? ==> p[k].dst.value < n) && forall i | 0 <= i < |p[k].srcs| :: p[k].srcs[i] < n {
      assert p[k] == MoveAction(ms, k);
    }
  }

  lemma MoveActions<V>(ms: seq<Move>, j: nat)
    requires j < |ms|
    ensures CopyProgram<V>(ms)[2 * j] == Load(ms[j].from) && CopyProgram<V>(ms)[2 * j + 1] == Save(ms[j].to)
  {
    hide Load, Save;
    assert 2 * j / 2 == j && (2 * j + 1) / 2 == j;
    assert CopyProgram<V>(ms)[2 * j] == MoveAction(ms, 2 * j) && CopyProgram<V>(ms)[2 * j + 1] == MoveAction(ms, 2 * j + 1);
  }

  ghost function RunCopies<V>(all: seq<seq<Move>>, mem: seq<V>, locals: seq<V>, sched: seq<nat>): (m: Machine<V, V>)
    requires |locals| == |all| && forall t | 0 <= t < |all| :: MovesIn(all[t], |mem|)
    ensures Consistent(CopyPrograms(all), m) && |m.mem| == |mem|
  {
    assert forall t | 0 <= t < |all| :: InRange<V, V>(CopyPrograms(all)[t], |mem|) by {
      forall t | 0 <= t < |all| ensures InRange<V, V>(CopyPrograms(all)[t], |mem|) {
        CopyInRange<V>(all[t], |mem|);
      }
    }
    Scheduled(CopyPrograms(all), Begin(CopyPrograms(all), mem, locals), sched)
  }

  /** Every move done once, from the old contents; every other cell as it was. */
  ghost predicate Moved<V>(all: seq<seq<Move>>, before: seq<V>, after: seq<V>) {
    && |after| == |before|
    && (forall t, j | 0 <= t < |all| && 0 <= j < |all[t]| ::
          all[t][j].to < |after| && all[t][j].from < |before| && after[all[t][j].to] == before[all[t][j].from])
    && (forall a | 0 <= a < |after| && (forall t, j | 0 <= t < |all| && 0 <= j < |all[t]| :: all[t][j].to != a) :: after[a] == before[a])
  }

  ghost predicate IsSource(all: seq<seq<Move>>, a: nat) {
    exists t, j :: 0 <= t < |all| && 0 <= j < |all[t]| && all[t][j].from == a
  }

  ghost predicate IsTarget(all: seq<seq<Move>>, a: nat) {
    exists t, j :: 0 <= t < |all| && 0 <= j < |all[t]| && all[t][j].to == a
  }

  /** What every interleaving keeps: sources as they were, registers loaded from them, finished moves in place. */
  ghost predicate CopyState<V>(all: seq<seq<Move>>, mem0: seq<V>, m: Machine<V, V>) {
    && Consistent(CopyPrograms(all), m) && |m.mem| == |mem0|
    && (forall a: nat | a < |mem0| && IsSource(all, a) :: m.mem[a] == mem0[a])
    && (forall t, j | 0 <= t < |all| && 0 <= j < |all[t]| && m.pcs[t] == 2 * j + 1 :: InRegister(mem0, all[t][j], m.locals[t]))
    && (forall t, j | 0 <= t < |all| && 0 <= j < |all[t]| && m.pcs[t] >= 2 * j + 2 :: InPlace(mem0, all[t][j], m.mem))
    && (forall a: nat | a < |mem0| && !IsTarget(all, a) :: m.mem[a] == mem0[a])
  }

  ghost predicate InRegister<V>(mem0: seq<V>, x: Move, l: V) {
    x.from < |mem0| && l == mem0[x.from]
  }

  ghost predicate InPlace<V>(mem0: seq<V>, x: Move, mem: seq<V>) {
    x.from < |mem0| && x.to < |mem| && mem[x.to] == mem0[x.from]
  }

  /** The `k`-th action of a thread is half of its move `k / 2`. */
  lemma ActionIs<V>(all: seq<seq<Move>>, mem: seq<V>, l: V, t: nat, k: nat) returns (j: nat)
    requires t < |all| && k < |CopyPrograms<V>(all)[t]| && MovesIn(all[t], |mem|)
    ensures j < |all[t]| && all[t][j].from < |mem| && all[t][j].to < |mem| && (k == 2 * j || k == 2 * j + 1)
    ensures Fits(CopyPrograms<V>(all)[t][k], |mem|)
    ensures k == 2 * j ==> Act(CopyPrograms<V>(all)[t][k], l, mem) == (mem[all[t][j].from], mem)
    ensures k == 2 * j + 1 ==> Act(CopyPrograms<V>(all)[t][k], l, mem) == (l, mem[all[t][j].to := l])
  {
    j := k / 2;
    MoveActions<V>(all[t], j);
    if k == 2 * j {
      LoadSave(all[t][j].from, all[t][j].to, l, mem);
    }
  }

  lemma CopyTick<V>(all: seq<seq<Move>>, mem0: seq<V>, m: Machine<V, V>, t: nat)
    requires CopyState(all, mem0, m) && MovesAgree(all) && forall u | 0 <= u < |all| :: MovesIn(all[u], |mem0|)
    ensures CopyState(all, mem0, Tick(CopyPrograms(all), m, t))
  {
    var progs: seq<Program<V, V>> := CopyPrograms(all);
    if t < |all| && m.pcs[t] < |progs[t]| {
      var n := Tick(progs, m, t);
      var j := ActionIs(all, m.mem, m.locals[t], t, m.pcs[t]);
      hide MovesIn, CopyProgram, CopyPrograms, Act, IsSource, IsTarget;
      var x := all[t][j];
      if m.pcs[t] == 2 * j {
        SourceIs(all, t, j);
        LoadKeeps(all, mem0, m, n, t, j);
      } else {
        assert InRegister(mem0, x, m.locals[t]);
        assert n.mem == m.mem[x.to := mem0[x.from]] && n.locals == m.locals;
        SaveKeeps(all, mem0, m, n, t, j);
      }
    }
  }

  lemma SourceIs(all: seq<seq<Move>>, t: nat, j: nat)
    requires t < |all| && j < |all[t]|
    ensures IsSource(all, all[t][j].from) && IsTarget(all, all[t][j].to)
  {
  }

  lemma LoadKeeps<V>(all: seq<seq<Move>>, mem0: seq<V>, m: Machine<V, V>, n: Machine<V, V>, t: nat, j: nat)
    requires CopyState(all, mem0, m) && Consistent(CopyPrograms(all), n) && t < |all| && j < |all[t]| && IsSource(all, all[t][j].from)
    requires m.pcs[t] == 2 * j && n.pcs == m.pcs[t := 2 * j + 1] && all[t][j].from < |mem0|
    requires n.mem == m.mem && n.locals == m.locals[t := m.mem[all[t][j].from]]
    ensures CopyState(all, mem0, n)
  {
    hide IsSource, IsTarget, CopyPrograms;
    forall u, k | 0 <= u < |all| && 0 <= k < |all[u]| && n.pcs[u] == 2 * k + 1 ensures InRegister(mem0, all[u][k], n.locals[u]) {
      if u != t {
        assert InRegister(mem0, all[u][k], m.locals[u]);
      }
    }
    forall u, k | 0 <= u < |all| && 0 <= k < |all[u]| && n.pcs[u] >= 2 * k + 2 ensures InPlace(mem0, all[u][k], n.mem) {
      assert InPlace(mem0, all[u][k], m.mem);
    }
  }

  lemma SaveKeeps<V>(all: seq<seq<Move>>, mem0: seq<V>, m: Machine<V, V>, n: Machine<V, V>, t: nat, j: nat)
    requires CopyState(all, mem0, m) && Consistent(CopyPrograms(all), n) && MovesAgree(all) && t < |all| && j < |all[t]|
    requires all[t][j].from < |mem0| && all[t][j].to < |mem0|
    requires m.pcs[t] == 2 * j + 1 && n.pcs == m.pcs[t := 2 * j + 2] && n.locals == m.locals
    requires n.mem == m.mem[all[t][j].to := mem0[all[t][j].from]]
    ensures CopyState(all, mem0, n)
  {
    var x := all[t][j];
    forall a: nat | a < |mem0| && IsSource(all, a) ensures n.mem[a] == mem0[a] {
      var u, k :| 0 <= u < |all| && 0 <= k < |all[u]| && all[u][k].from == a;
      assert Agree(x, all[u][k]);
    }
    SourceIs(all, t, j);
    hide IsSource, IsTarget, CopyPrograms;
    forall u, k | 0 <= u < |all| && 0 <= k < |all[u]| && n.pcs[u] == 2 * k + 1 ensures InRegister(mem0, all[u][k], n.locals[u]) {
      assert InRegister(mem0, all[u][k], m.locals[u]);
    }
    forall u, k | 0 <= u < |all| && 0 <= k < |all[u]| && n.pcs[u] >= 2 * k + 2 ensures InPlace(mem0, all[u][k], n.mem) {
      if u != t || k != j {
        assert InPlace(mem0, all[u][k], m.mem);
        assert Agree(x, all[u][k]);
      }
    }
  }

  lemma {:induction false} CopyKeeps<V>(all: seq<seq<Move>>, mem: seq<V>, locals: seq<V>, sched: seq<nat>)
    requires MovesAgree(all) && |locals| == |all| && forall t | 0 <= t < |all| :: MovesIn(all[t], |mem|)
    ensures CopyState(all, mem, RunCopies(all, mem, locals, sched))
    decreases |sched|
  {
    var progs: seq<Program<V, V>> := CopyPrograms(all);
    assert forall t | 0 <= t < |all| :: InRange<V, V>(progs[t], |mem|) by {
      forall t | 0 <= t < |all| ensures InRange<V, V>(progs[t], |mem|) {
        CopyInRange<V>(all[t], |mem|);
      }
    }
    hide MovesAgree, MovesIn, InRange, Tick;
    if sched != [] {
      CopyKeeps(all, mem, locals, sched[..|sched| - 1]);
      CopyTick(all, mem, RunCopies(all, mem, locals, sched[..|sched| - 1]), sched[|sched| - 1]);
    }
  }

  /** Any interleaving of loads and stores performs the moves. */
  lemma AnyScheduleMoves<V>(all: seq<seq<Move>>, mem: seq<V>, locals: seq<V>, sched: seq<nat>)
    requires MovesAgree(all) && |locals| == |all| && forall t | 0 <= t < |all| :: MovesIn(all[t], |mem|)
    requires Complete(CopyPrograms(all), RunCopies(all, mem, locals, sched))
    ensures Moved(all, mem, RunCopies(all, mem, locals, sched).mem)
  {
    var m := RunCopies(all, mem, locals, sched);
    CopyKeeps(all, mem, locals, sched);
    hide MovesAgree, MovesIn, RunCopies;
    forall t, j | 0 <= t < |all| && 0 <= j < |all[t]| ensures InPlace(mem, all[t][j], m.mem) {
      assert m.pcs[t] == |CopyPrograms<V>(all)[t]| == 2 * |all[t]|;
    }
  }

  /** The moves have one result. */
  lemma MovedOnce<V>(all: seq<seq<Move>>, before: seq<V>, after: seq<V>, other: seq<V>)
    requires Moved(all, before, after) && Moved(all, before, other)
    ensures after == other
  {
    forall a | 0 <= a < |before| ensures after[a] == other[a] {
      if t, j :| 0 <= t < |all| && 0 <= j < |all[t]| && all[t][j].to == a {
        assert after[all[t][j].to] == before[all[t][j].from];
      }
    }
  }

  // ---------------------------------------------------------------- moves of whole blocks

  /** Blocks of `size` cells; a group of `threads` threads for each job, which it does block by block. */
  datatype Launch = Launch(jobs: seq<seq<Move>>, size: nat, threads: nat)

  ghost predicate LaunchOk(y: Launch, blocks: nat) {
    y.threads > 0 && y.size > 0 && forall p | 0 <= p < |y.jobs| :: MovesIn(y.jobs[p], blocks)
  }

  ghost function CellMove(y: Launch, p: nat, r: nat, i: nat): Move
    requires p < |y.jobs| && r < |y.jobs[p]|
  {
    Move(Digits(y.jobs[p][r].from, y.size, i), Digits(y.jobs[p][r].to, y.size, i))
  }

  /** The elements thread `tid` copies for one block. */
  ghost function BlockMoves(y: Launch, p: nat, r: nat, tid: nat): (ms: seq<Move>)
    requires p < |y.jobs| && r < |y.jobs[p]| && y.threads > 0
    ensures |ms| == Turns(tid, y.size, y.threads)
  {
    seq(Turns(tid, y.size, y.threads), k requires 0 <= k < Turns(tid, y.size, y.threads) => CellMove(y, p, r, Visit(tid, k, y.threads)))
  }

  /** And for the first `n` blocks of its job, one after the other. */
  ghost function ThreadMoves(y: Launch, p: nat, tid: nat, n: nat): (ms: seq<Move>)
    requires p < |y.jobs| && n <= |y.jobs[p]| && y.threads > 0
    ensures |ms| == n * Turns(tid, y.size, y.threads)
  {
    if n == 0 then [] else ThreadMoves(y, p, tid, n - 1) + BlockMoves(y, p, n - 1, tid)
  }

  ghost function AllMoves(y: Launch): (all: seq<seq<Move>>)
    requires y.threads > 0
    ensures |all| == |y.jobs| * y.threads
  {
    seq(|y.jobs| * y.threads, u requires 0 <= u < |y.jobs| * y.threads =>
      (GroupBelow(u, |y.jobs|, y.threads);
       ThreadMoves(y, GroupOf(u, y.threads), TidOf(u, y.threads), |y.jobs[GroupOf(u, y.threads)]|)))
  }

  /** Move `j` of a thread is one turn of one of its blocks. */
  lemma {:induction false} MoveOf(y: Launch, p: nat, tid: nat, n: nat, j: nat) returns (r: nat, k: nat)
    requires p < |y.jobs| && n <= |y.jobs[p]| && tid < y.threads && j < |ThreadMoves(y, p, tid, n)|
    ensures r < n && k < Turns(tid, y.size, y.threads) && Visit(tid, k, y.threads) < y.size
    ensures j == r * Turns(tid, y.size, y.threads) + k
    ensures ThreadMoves(y, p, tid, n)[j] == CellMove(y, p, r, Visit(tid, k, y.threads))
    decreases n
  {
    var t := Turns(tid, y.size, y.threads);
    if j < |ThreadMoves(y, p, tid, n - 1)| {
      r, k := MoveOf(y, p, tid, n - 1, j);
    } else {
      r, k := n - 1, j - (n - 1) * t;
      TurnsBound(tid, y.size, y.threads, k);
    }
  }

  /** Every turn of every block is among the moves. */
  lemma {:induction false} MoveAt(y: Launch, p: nat, tid: nat, n: nat, r: nat, k: nat)
    requires p < |y.jobs| && r < n <= |y.jobs[p]| && tid < y.threads && k < Turns(tid, y.size, y.threads)
    ensures r * Turns(tid, y.size, y.threads) + k < |ThreadMoves(y, p, tid, n)|
    ensures ThreadMoves(y, p, tid, n)[r * Turns(tid, y.size, y.threads) + k] == CellMove(y, p, r, Visit(tid, k, y.threads))
    decreases n
  {
    if r < n - 1 {
      MoveAt(y, p, tid, n - 1, r, k);
    }
  }

  lemma AllMovesAt(y: Launch, u: nat, j: nat) returns (p: nat, r: nat, i: nat, tid: nat, k: nat)
    requires y.threads > 0 && u < |AllMoves(y)| && j < |AllMoves(y)[u]|
    ensures p == GroupOf(u, y.threads) < |y.jobs| && r < |y.jobs[p]| && tid == TidOf(u, y.threads)
    ensures k < Turns(tid, y.size, y.threads) && i == Visit(tid, k, y.threads) < y.size
    ensures j == r * Turns(tid, y.size, y.threads) + k && AllMoves(y)[u][j] == CellMove(y, p, r, i)
  {
    GroupBelow(u, |y.jobs|, y.threads);
    p, tid := GroupOf(u, y.threads), TidOf(u, y.threads);
    r, k := MoveOf(y, p, tid, |y.jobs[p]|, j);
    i := Visit(tid, k, y.threads);
  }

  lemma CellsIn(y: Launch, blocks: nat)
    requires LaunchOk(y, blocks)
    ensures forall u | 0 <= u < |AllMoves(y)| :: MovesIn(AllMoves(y)[u], blocks * y.size)
  {
    var all: seq<seq<Move>> := AllMoves(y);
    hide AllMoves;
    forall u, j | 0 <= u < |all| && 0 <= j < |all[u]| ensures all[u][j].from < blocks * y.size && all[u][j].to < blocks * y.size {
      var p, r, i, tid, k := AllMovesAt(y, u, j);
      assert MovesIn(y.jobs[p], blocks);
      DigitsBelow(y.jobs[p][r].from, i, blocks, y.size);
      DigitsBelow(y.jobs[p][r].to, i, blocks, y.size);
    }
  }

  lemma TwoMoves(y: Launch, t: nat, j: nat, u: nat, k: nat)
    requires y.threads > 0 && y.size > 0 && MovesAgree(y.jobs)
    requires t < |AllMoves(y)| && j < |AllMoves(y)[t]| && u < |AllMoves(y)| && k < |AllMoves(y)[u]|
    ensures Agree(AllMoves(y)[t][j], AllMoves(y)[u][k])
  {
    var p, r, i, tid, a := AllMovesAt(y, t, j);
    var q, s, e, uid, b := AllMovesAt(y, u, k);
    hide AllMoves, Digits, GroupOf, TidOf, Visit, Turns;
    var x, z := y.jobs[p][r], y.jobs[q][s];
    assert Agree(x, z);
    if Digits(x.to, y.size, i) == Digits(z.to, y.size, e) {
      UniqueDigits(x.to, i, z.to, e, y.size);
    }
    if Digits(x.to, y.size, i) == Digits(z.from, y.size, e) {
      UniqueDigits(x.to, i, z.from, e, y.size);
    }
  }

  /** When the blocks agree, so do their cells. */
  lemma CellsAgree(y: Launch)
    requires y.threads > 0 && y.size > 0 && MovesAgree(y.jobs)
    ensures MovesAgree(AllMoves(y))
  {
    var all: seq<seq<Move>> := AllMoves(y);
    hide AllMoves, Agree;
    forall t, j, u, k | 0 <= t < |all| && 0 <= j < |all[t]| && 0 <= u < |all| && 0 <= k < |all[u]| ensures Agree(all[t][j], all[u][k]) {
      TwoMoves(y, t, j, u, k);
    }
  }

  /** Every block of every job copied from the old contents, every other block as it was. */
  ghost predicate BlocksMoved<V>(y: Launch, blocks: nat, before: seq<V>, after: seq<V>) {
    && |after| == |before| == blocks * y.size
    && (forall p, r, i | 0 <= p < |y.jobs| && 0 <= r < |y.jobs[p]| && 0 <= i < y.size ::
          Same(before, CellMove(y, p, r, i).from, after, CellMove(y, p, r, i).to))
    && (forall b, i | 0 <= b < blocks && 0 <= i < y.size && NotMovedTo(y, b) :: Same(before, Digits(b, y.size, i), after, Digits(b, y.size, i)))
  }

  ghost predicate Same<V>(before: seq<V>, a: nat, after: seq<V>, b: nat) {
    a < |before| && b < |after| && after[b] == before[a]
  }

  ghost predicate NotMovedTo(y: Launch, b: nat) {
    forall p, r | 0 <= p < |y.jobs| && 0 <= r < |y.jobs[p]| :: y.jobs[p][r].to != b
  }

  ghost function RunLaunch<V>(y: Launch, blocks: nat, mem: seq<V>, locals: seq<V>, sched: seq<nat>): (m: Machine<V, V>)
    requires LaunchOk(y, blocks) && |mem| == blocks * y.size && |locals| == |y.jobs| * y.threads
    ensures Consistent(CopyPrograms(AllMoves(y)), m) && |m.mem| == |mem|
  {
    CellsIn(y, blocks);
    RunCopies(AllMoves(y), mem, locals, sched)
  }

  /** Any interleaving of all threads of all groups, for any group size, copies the blocks. */
  lemma AnyScheduleCopies<V>(y: Launch, blocks: nat, mem: seq<V>, locals: seq<V>, sched: seq<nat>)
    requires LaunchOk(y, blocks) && MovesAgree(y.jobs) && |mem| == blocks * y.size && |locals| == |y.jobs| * y.threads
    requires Complete(CopyPrograms(AllMoves(y)), RunLaunch(y, blocks, mem, locals, sched))
    ensures BlocksMoved(y, blocks, mem, RunLaunch(y, blocks, mem, locals, sched).mem)
  {
    var after := RunLaunch(y, blocks, mem, locals, sched).mem;
    CellsIn(y, blocks);
    CellsAgree(y);
    AnyScheduleMoves(AllMoves(y), mem, locals, sched);
    hide AllMoves, MovesAgree, LaunchOk, CopyPrograms, RunLaunch, MovesIn;
    forall p, r, i | 0 <= p < |y.jobs| && 0 <= r < |y.jobs[p]| && 0 <= i < y.size
      ensures Same(mem, CellMove(y, p, r, i).from, after, CellMove(y, p, r, i).to)
    {
      CellMoved(y, mem, after, p, r, i);
    }
    forall b, i | 0 <= b < blocks && 0 <= i < y.size && NotMovedTo(y, b)
      ensures Same(mem, Digits(b, y.size, i), after, Digits(b, y.size, i))
    {
      DigitsBelow(b, i, blocks, y.size);
      CellNotMoved(y, mem, after, b, i);
    }
  }

  lemma CellMoved<V>(y: Launch, before: seq<V>, after: seq<V>, p: nat, r: nat, i: nat)
    requires y.threads > 0 && Moved(AllMoves(y), before, after) && p < |y.jobs| && r < |y.jobs[p]| && i < y.size
    ensures Same(before, CellMove(y, p, r, i).from, after, CellMove(y, p, r, i).to)
  {
    hide *;
    var u, j := MoverOf(y, p, r, i);
    MoveMade(AllMoves(y), before, after, u, j);
  }

  lemma MoveMade<V>(all: seq<seq<Move>>, before: seq<V>, after: seq<V>, u: nat, j: nat)
    requires Moved(all, before, after) && u < |all| && j < |all[u]|
    ensures Same(before, all[u][j].from, after, all[u][j].to)
  {
  }

  lemma ThreadIs(y: Launch, u: nat)
    requires y.threads > 0 && u < |y.jobs| * y.threads && GroupOf(u, y.threads) < |y.jobs|
    ensures AllMoves(y)[u] == ThreadMoves(y, GroupOf(u, y.threads), TidOf(u, y.threads), |y.jobs[GroupOf(u, y.threads)]|)
  {
    hide ThreadMoves, GroupOf, TidOf;
  }

  /** Which thread moves element `i` of a pair's block, and when. */
  lemma MoverOf(y: Launch, p: nat, r: nat, i: nat) returns (u: nat, j: nat)
    requires y.threads > 0 && p < |y.jobs| && r < |y.jobs[p]| && i < y.size
    ensures u < |AllMoves(y)| && j < |AllMoves(y)[u]| && AllMoves(y)[u][j] == CellMove(y, p, r, i)
  {
    hide *;
    VisitedBy(i, y.size, y.threads);
    var tid: nat, k: nat := i % y.threads, i / y.threads;
    ThreadAt(p, tid, |y.jobs|, y.threads);
    MoveAt(y, p, tid, |y.jobs[p]|, r, k);
    u, j := Digits(p, y.threads, tid), r * Turns(tid, y.size, y.threads) + k;
    ThreadIs(y, u);
  }

  lemma CellNotMoved<V>(y: Launch, before: seq<V>, after: seq<V>, b: nat, i: nat)
    requires y.threads > 0 && Moved(AllMoves(y), before, after) && NotMovedTo(y, b) && i < y.size
    requires Digits(b, y.size, i) < |before| == |after|
    ensures after[Digits(b, y.size, i)] == before[Digits(b, y.size, i)]
  {
    var all: seq<seq<Move>> := AllMoves(y);
    hide AllMoves, Digits, Visit, Turns;
    forall u, j | 0 <= u < |all| && 0 <= j < |all[u]| ensures all[u][j].to != Digits(b, y.size, i) {
      var p, r, e, tid, k := AllMovesAt(y, u, j);
      if all[u][j].to == Digits(b, y.size, i) {
        UniqueDigits(y.jobs[p][r].to, e, b, i, y.size);
      }
    }
  }

  // ---------------------------------------------------------------- copy_blocks and swap_blocks

  /** A row of `block_mapping`. */
  datatype Pair = Pair(src: nat, dst: nat)

  /** Pairs with one destination have one source, and a destination that is also a source is copied onto itself. */
  ghost predicate CopyAgrees(pairs: seq<Pair>) {
    forall p, q | 0 <= p < |pairs| && 0 <= q < |pairs| ::
      (pairs[p].dst == pairs[q].dst ==> pairs[p].src == pairs[q].src) && (pairs[p].dst == pairs[q].src ==> pairs[p].src == pairs[p].dst)
  }

  /** Between buffers, only the first matters. */
  ghost predicate SwapAgrees(pairs: seq<Pair>) {
    forall p, q | 0 <= p < |pairs| && 0 <= q < |pairs| && pairs[p].dst == pairs[q].dst :: pairs[p].src == pairs[q].src
  }

  /** Distinct destinations, none of them a source, are the usual case. */
  lemma ApartAgrees(pairs: seq<Pair>)
    requires forall p, q | 0 <= p < q < |pairs| :: pairs[p].dst != pairs[q].dst
    ensures SwapAgrees(pairs)
    ensures (forall p, q | 0 <= p < |pairs| && 0 <= q < |pairs| :: pairs[p].dst != pairs[q].src) ==> CopyAgrees(pairs)
  {
  }

  ghost predicate PairsIn(pairs: seq<Pair>, srcs: nat, dsts: nat) {
    forall p | 0 <= p < |pairs| :: pairs[p].src < srcs && pairs[p].dst < dsts
  }

  /** In both caches of `blocks` blocks, the value cache lying behind the key cache. */
  ghost function CopyLaunch(pairs: seq<Pair>, blocks: nat, size: nat, threads: nat): Launch {
    Launch(seq(|pairs|, p requires 0 <= p < |pairs| =>
             [Move(pairs[p].src, pairs[p].dst), Move(blocks + pairs[p].src, blocks + pairs[p].dst)]), size, threads)
  }

  /** From a source of `srcs` blocks to a destination that lies behind it. */
  ghost function SwapLaunch(pairs: seq<Pair>, srcs: nat, size: nat, threads: nat): Launch {
    Launch(seq(|pairs|, p requires 0 <= p < |pairs| => [Move(pairs[p].src, srcs + pairs[p].dst)]), size, threads)
  }

  lemma CopyJobs(pairs: seq<Pair>, blocks: nat, size: nat, threads: nat)
    requires PairsIn(pairs, blocks, blocks) && size > 0 && threads > 0
    ensures LaunchOk(CopyLaunch(pairs, blocks, size, threads), 2 * blocks)
    ensures CopyAgrees(pairs) ==> MovesAgree(CopyLaunch(pairs, blocks, size, threads).jobs)
  {
    var jobs := CopyLaunch(pairs, blocks, size, threads).jobs;
    forall p | 0 <= p < |pairs| ensures MovesIn(jobs[p], 2 * blocks) {
      assert pairs[p].src < blocks && pairs[p].dst < blocks;
    }
    if CopyAgrees(pairs) {
      forall t, j, u, k | 0 <= t < |jobs| && 0 <= j < |jobs[t]| && 0 <= u < |jobs| && 0 <= k < |jobs[u]| ensures Agree(jobs[t][j], jobs[u][k]) {
        assert pairs[t].dst < blocks && pairs[t].src < blocks && pairs[u].src < blocks && pairs[u].dst < blocks;
      }
    }
  }

  lemma SwapJobs(pairs: seq<Pair>, srcs: nat, dsts: nat, size: nat, threads: nat)
    requires PairsIn(pairs, srcs, dsts) && size > 0 && threads > 0
    ensures LaunchOk(SwapLaunch(pairs, srcs, size, threads), srcs + dsts)
    ensures SwapAgrees(pairs) ==> MovesAgree(SwapLaunch(pairs, srcs, size, threads).jobs)
  {
    var jobs := SwapLaunch(pairs, srcs, size, threads).jobs;
    forall p | 0 <= p < |pairs| ensures MovesIn(jobs[p], srcs + dsts) {
      assert pairs[p].src < srcs && pairs[p].dst < dsts;
    }
    if SwapAgrees(pairs) {
      forall t, j, u, k | 0 <= t < |jobs| && 0 <= j < |jobs[t]| && 0 <= u < |jobs| && 0 <= k < |jobs[u]| ensures Agree(jobs[t][j], jobs[u][k]) {
        assert pairs[u].src < srcs && pairs[t].src < srcs;
      }
    }
  }

  /** Block `b` of a buffer. */
  ghost function BlockOf<V>(buffer: seq<V>, size: nat, b: nat): (r: seq<V>)
    requires Digits(b, size, 0) + size <= |buffer|
    ensures |r| == size
  {
    buffer[Digits(b, size, 0)..][..size]
  }

  lemma BlockFits<V>(buffer: seq<V>, size: nat, blocks: nat, b: nat)
    requires |buffer| == blocks * size && b < blocks
    ensures Digits(b, size, 0) + size <= |buffer|
  {
    MulMonotone(b + 1, blocks, size);
    assert (b + 1) * size == b * size + size;
  }

  /** Afterwards block `b` holds what block `a` held before. */
  ghost predicate Copied<V>(before: seq<V>, after: seq<V>, size: nat, a: nat, b: nat) {
    && Digits(a, size, 0) + size <= |before| && Digits(b, size, 0) + size <= |after|
    && BlockOf(after, size, b) == BlockOf(before, size, a)
  }

  lemma SameBlocks<V>(before: seq<V>, after: seq<V>, size: nat, blocks: nat, a: nat, b: nat)
    requires |before| == |after| == blocks * size && a < blocks && b < blocks
    requires forall i | 0 <= i < size :: Same(before, Digits(a, size, i), after, Digits(b, size, i))
    ensures Copied(before, after, size, a, b)
  {
    BlockFits(before, size, blocks, a);
    BlockFits(after, size, blocks, b);
    forall i | 0 <= i < size ensures BlockOf(after, size, b)[i] == BlockOf(before, size, a)[i] {
      assert Same(before, Digits(a, size, i), after, Digits(b, size, i));
      assert Digits(a, size, i) == Digits(a, size, 0) + i && Digits(b, size, i) == Digits(b, size, 0) + i;
    }
  }

  lemma JobDone<V>(y: Launch, blocks: nat, before: seq<V>, after: seq<V>, p: nat, r: nat)
    requires BlocksMoved(y, blocks, before, after) && p < |y.jobs| && r < |y.jobs[p]| && MovesIn(y.jobs[p], blocks)
    ensures Copied(before, after, y.size, y.jobs[p][r].from, y.jobs[p][r].to)
  {
    var m := y.jobs[p][r];
    forall i | 0 <= i < y.size ensures Same(before, Digits(m.from, y.size, i), after, Digits(m.to, y.size, i)) {
      assert Same(before, CellMove(y, p, r, i).from, after, CellMove(y, p, r, i).to);
    }
    SameBlocks(before, after, y.size, blocks, m.from, m.to);
  }

  lemma BlockKept<V>(y: Launch, blocks: nat, before: seq<V>, after: seq<V>, b: nat)
    requires BlocksMoved(y, blocks, before, after) && b < blocks && NotMovedTo(y, b)
    ensures Copied(before, after, y.size, b, b)
  {
    SameBlocks(before, after, y.size, blocks, b, b);
  }

  ghost predicate Spared(pairs: seq<Pair>, b: nat) {
    forall p | 0 <= p < |pairs| :: pairs[p].dst != b
  }

  /** In both caches, destinations hold the old contents of their sources and all other blocks are as they were. */
  ghost predicate CopyResult<V>(pairs: seq<Pair>, blocks: nat, size: nat, before: seq<V>, after: seq<V>) {
    && (forall p | 0 <= p < |pairs| ::
          && Copied(before, after, size, pairs[p].src, pairs[p].dst)
          && Copied(before, after, size, blocks + pairs[p].src, blocks + pairs[p].dst))
    && (forall b | 0 <= b < blocks && Spared(pairs, b) ::
          Copied(before, after, size, b, b) && Copied(before, after, size, blocks + b, blocks + b))
  }

  lemma CopyMeans<V>(pairs: seq<Pair>, blocks: nat, size: nat, threads: nat, before: seq<V>, after: seq<V>)
    requires PairsIn(pairs, blocks, blocks) && LaunchOk(CopyLaunch(pairs, blocks, size, threads), 2 * blocks)
    requires BlocksMoved(CopyLaunch(pairs, blocks, size, threads), 2 * blocks, before, after)
    ensures CopyResult(pairs, blocks, size, before, after)
  {
    var y := CopyLaunch(pairs, blocks, size, threads);
    hide BlocksMoved, Copied, LaunchOk;
    forall p | 0 <= p < |pairs|
      ensures Copied(before, after, size, pairs[p].src, pairs[p].dst)
      ensures Copied(before, after, size, blocks + pairs[p].src, blocks + pairs[p].dst)
    {
      assert MovesIn(y.jobs[p], 2 * blocks);
      JobDone(y, 2 * blocks, before, after, p, 0);
      JobDone(y, 2 * blocks, before, after, p, 1);
    }
    forall b | 0 <= b < blocks && Spared(pairs, b)
      ensures Copied(before, after, size, b, b) && Copied(before, after, size, blocks + b, blocks + b)
    {
      BlockKept(y, 2 * blocks, before, after, b);
      BlockKept(y, 2 * blocks, before, after, blocks + b);
    }
  }

  /** Any interleaving of `copy_blocks` copies in both caches, whatever the group size. */
  lemma CopyBlocksAnySchedule<V>(pairs: seq<Pair>, blocks: nat, size: nat, threads: nat, mem: seq<V>, locals: seq<V>, sched: seq<nat>)
    requires PairsIn(pairs, blocks, blocks) && CopyAgrees(pairs) && size > 0 && threads > 0
    requires |mem| == 2 * blocks * size && |locals| == |pairs| * threads
    ensures LaunchOk(CopyLaunch(pairs, blocks, size, threads), 2 * blocks)
    ensures var y := CopyLaunch(pairs, blocks, size, threads); var m := RunLaunch(y, 2 * blocks, mem, locals, sched);
            Complete(CopyPrograms(AllMoves(y)), m) ==> CopyResult(pairs, blocks, size, mem, m.mem)
  {
    var y := CopyLaunch(pairs, blocks, size, threads);
    CopyJobs(pairs, blocks, size, threads);
    hide AllMoves, CopyPrograms, MovesAgree, RunLaunch, CopyResult, BlocksMoved;
    var m := RunLaunch(y, 2 * blocks, mem, locals, sched);
    if Complete(CopyPrograms(AllMoves(y)), m) {
      AnyScheduleCopies(y, 2 * blocks, mem, locals, sched);
      CopyMeans(pairs, blocks, size, threads, mem, m.mem);
    }
  }

  ghost predicate SwapResult<V>(pairs: seq<Pair>, srcs: nat, dsts: nat, size: nat, before: seq<V>, after: seq<V>) {
    && (forall p | 0 <= p < |pairs| :: Copied(before, after, size, pairs[p].src, srcs + pairs[p].dst))
    && (forall b | 0 <= b < srcs :: Copied(before, after, size, b, b))
    && (forall b | 0 <= b < dsts && Spared(pairs, b) :: Copied(before, after, size, srcs + b, srcs + b))
  }

  lemma SwapMeans<V>(pairs: seq<Pair>, srcs: nat, dsts: nat, size: nat, threads: nat, before: seq<V>, after: seq<V>)
    requires PairsIn(pairs, srcs, dsts) && LaunchOk(SwapLaunch(pairs, srcs, size, threads), srcs + dsts)
    requires BlocksMoved(SwapLaunch(pairs, srcs, size, threads), srcs + dsts, before, after)
    ensures SwapResult(pairs, srcs, dsts, size, before, after)
  {
    var y := SwapLaunch(pairs, srcs, size, threads);
    hide BlocksMoved, Copied, LaunchOk;
    forall p | 0 <= p < |pairs| ensures Copied(before, after, size, pairs[p].src, srcs + pairs[p].dst) {
      assert MovesIn(y.jobs[p], srcs + dsts);
      JobDone(y, srcs + dsts, before, after, p, 0);
    }
    forall b | 0 <= b < srcs ensures Copied(before, after, size, b, b) {
      BlockKept(y, srcs + dsts, before, after, b);
    }
    forall b | 0 <= b < dsts && Spared(pairs, b) ensures Copied(before, after, size, srcs + b, srcs + b) {
      BlockKept(y, srcs + dsts, before, after, srcs + b);
    }
  }

  /** Any interleaving of `swap_blocks` fills the destination blocks from the source and changes nothing else. */
  lemma SwapBlocksAnySchedule<V>(pairs: seq<Pair>, srcs: nat, dsts: nat, size: nat, threads: nat, mem: seq<V>, locals: seq<V>, sched: seq<nat>)
    requires PairsIn(pairs, srcs, dsts) && SwapAgrees(pairs) && size > 0 && threads > 0
    requires |mem| == (srcs + dsts) * size && |locals| == |pairs| * threads
    ensures LaunchOk(SwapLaunch(pairs, srcs, size, threads), srcs + dsts)
    ensures var y := SwapLaunch(pairs, srcs, size, threads); var m := RunLaunch(y, srcs + dsts, mem, locals, sched);
            Complete(CopyPrograms(AllMoves(y)), m) ==> SwapResult(pairs, srcs, dsts, size, mem, m.mem)
  {
    var y := SwapLaunch(pairs, srcs, size, threads);
    SwapJobs(pairs, srcs, dsts, size, threads);
    hide AllMoves, CopyPrograms, MovesAgree, RunLaunch, SwapResult, BlocksMoved;
    var m := RunLaunch(y, srcs + dsts, mem, locals, sched);
    if Complete(CopyPrograms(AllMoves(y)), m) {
      AnyScheduleCopies(y, srcs + dsts, mem, locals, sched);
      SwapMeans(pairs, srcs, dsts, size, threads, mem, m.mem);
    }
  }

  // ---------------------------------------------------------------- when the schedule decides

  lemma LoadTick<V>(all: seq<seq<Move>>, m: Machine<V, V>, t: nat)
    requires Consistent(CopyPrograms<V>(all), m) && t < |all| && |all[t]| > 0 && m.pcs[t] == 0 && MovesIn(all[t], |m.mem|)
    ensures all[t][0].from < |m.mem|
    ensures Tick(CopyPrograms<V>(all), m, t) == m.(locals := m.locals[t := m.mem[all[t][0].from]], pcs := m.pcs[t := 1])
  {
    var j := ActionIs(all, m.mem, m.locals[t], t, 0);
  }

  lemma SaveTick<V>(all: seq<seq<Move>>, m: Machine<V, V>, t: nat)
    requires Consistent(CopyPrograms<V>(all), m) && t < |all| && |all[t]| > 0 && m.pcs[t] == 1 && MovesIn(all[t], |m.mem|)
    ensures all[t][0].to < |m.mem|
    ensures var n := Tick(CopyPrograms<V>(all), m, t); n.mem == m.mem[all[t][0].to := m.locals[t]] && n.pcs == m.pcs[t := 2] && n.locals == m.locals
  {
    var j := ActionIs(all, m.mem, m.locals[t], t, 1);
  }

  lemma ThenTick<V>(progs: seq<Program<V, V>>, m: Machine<V, V>, sched: seq<nat>, t: nat)
    requires Consistent(progs, m)
    ensures Scheduled(progs, m, sched + [t]) == Tick(progs, Scheduled(progs, m, sched), t)
  {
    assert (sched + [t])[..|sched + [t]| - 1] == sched;
  }

  /** No move but a thread's first goes to `a`. */
  ghost predicate FirstOnly(all: seq<seq<Move>>, a: nat) {
    forall t, j | 0 <= t < |all| && 1 <= j < |all[t]| :: all[t][j].to != a
  }

  lemma QuietAfterFirst<V>(all: seq<seq<Move>>, a: nat, t: nat, k: nat)
    requires FirstOnly(all, a) && t < |all| && k >= 2
    ensures NoneLeft(CopyPrograms<V>(all)[t], k, a)
  {
    var p: Program<V, V> := CopyPrograms(all)[t];
    assert p == CopyProgram<V>(all[t]);
    forall i | k <= i < |p| ensures p[i].dst != Some(a) {
      assert p[i] == MoveAction<V>(all[t], i);
    }
  }

  /** When only two threads are left, and both are past their first moves, the rest does not touch `a`. */
  lemma EndQuietly<V>(all: seq<seq<Move>>, m: Machine<V, V>, p: nat, q: nat, a: nat) returns (rest: seq<nat>)
    requires Consistent(CopyPrograms<V>(all), m) && FirstOnly(all, a) && p < |all| && q < |all| && a < |m.mem|
    requires m.pcs[p] >= 2 && m.pcs[q] >= 2
    requires forall t | 0 <= t < |all| && t != p && t != q :: m.pcs[t] == |CopyPrograms<V>(all)[t]|
    ensures Complete(CopyPrograms(all), Scheduled(CopyPrograms(all), m, rest))
    ensures Scheduled(CopyPrograms(all), m, rest).mem[a] == m.mem[a]
  {
    var progs: seq<Program<V, V>> := CopyPrograms(all);
    hide CopyPrograms, FirstOnly, NoneLeft;
    QuietAfterFirst<V>(all, a, p, m.pcs[p]);
    var one := FinishThread(progs, m, p);
    var n := Scheduled(progs, m, one);
    QuietAfterFirst<V>(all, a, q, n.pcs[q]);
    var two := FinishThread(progs, n, q);
    ScheduledTwice(progs, m, one, two);
    rest := one + two;
  }

  ghost predicate TwoFirst(all: seq<seq<Move>>, n: nat, p: nat, q: nat) {
    && p < |all| && q < |all| && p != q && |all[p]| > 0 && |all[q]| > 0 && (forall t | 0 <= t < |all| :: MovesIn(all[t], n))
    && all[p][0].from < n && all[p][0].to < n && all[q][0].from < n && all[q][0].to < n
  }

  ghost predicate Outcome<V>(all: seq<seq<Move>>, m: Machine<V, V>, sched: seq<nat>, a: nat, v: V)
    requires Consistent(CopyPrograms<V>(all), m)
  {
    Complete(CopyPrograms(all), Scheduled(CopyPrograms(all), m, sched)) && a < |m.mem| && Scheduled(CopyPrograms(all), m, sched).mem[a] == v
  }

  ghost predicate AtStart<V>(all: seq<seq<Move>>, m: Machine<V, V>) {
    Consistent(CopyPrograms<V>(all), m) && forall t | 0 <= t < |all| :: m.pcs[t] == 0
  }

  /** Both threads load first, every other thread runs, and then `q` saves last. */
  lemma SavesLast<V>(all: seq<seq<Move>>, m: Machine<V, V>, p: nat, q: nat) returns (sched: seq<nat>)
    requires AtStart(all, m) && TwoFirst(all, |m.mem|, p, q) && FirstOnly(all, all[q][0].to)
    ensures Outcome(all, m, sched, all[q][0].to, m.mem[all[q][0].from])
  {
    var progs: seq<Program<V, V>> := CopyPrograms(all);
    hide CopyPrograms, Tick, Scheduled, FirstOnly;
    LoadTick(all, m, p);
    var m1 := Tick(progs, m, p);
    LoadTick(all, m1, q);
    var m2 := Tick(progs, m1, q);
    var others := FinishOthers(progs, m2, |all|, p, q);
    var m3 := Scheduled(progs, m2, others);
    SaveTick(all, m3, p);
    var m4 := Tick(progs, m3, p);
    SaveTick(all, m4, q);
    var m5 := Tick(progs, m4, q);
    var rest := EndQuietly(all, m5, p, q, all[q][0].to);
    sched := Joined(progs, m, [p, q], others, [p, q], rest);
    TwoTicks(progs, m, p, q);
    TwoTicks(progs, m3, p, q);
  }

  lemma TwoTicks<V>(progs: seq<Program<V, V>>, m: Machine<V, V>, p: nat, q: nat)
    requires Consistent(progs, m)
    ensures Scheduled(progs, m, [p, q]) == Tick(progs, Tick(progs, m, p), q)
  {
    ThenTick(progs, m, [p], q);
    ThenTick(progs, m, [], p);
    assert [p] + [q] == [p, q] && [] + [p] == [p];
  }

  /** Four schedules in a row. */
  lemma Joined<V>(progs: seq<Program<V, V>>, m: Machine<V, V>, a: seq<nat>, b: seq<nat>, c: seq<nat>, d: seq<nat>) returns (r: seq<nat>)
    requires Consistent(progs, m)
    ensures Scheduled(progs, m, r) == Scheduled(progs, Scheduled(progs, Scheduled(progs, Scheduled(progs, m, a), b), c), d)
  {
    ScheduledTwice(progs, m, a, b);
    ScheduledTwice(progs, m, a + b, c);
    ScheduledTwice(progs, m, a + b + c, d);
    r := a + b + c + d;
  }

  /** One thread loads first, every other thread runs to its end, and then it saves. */
  lemma LoadsFirst<V>(all: seq<seq<Move>>, m: Machine<V, V>, p: nat, q: nat) returns (sched: seq<nat>)
    requires AtStart(all, m) && TwoFirst(all, |m.mem|, p, q) && FirstOnly(all, all[q][0].to)
    ensures Outcome(all, m, sched, all[q][0].to, m.mem[all[q][0].from])
  {
    var progs: seq<Program<V, V>> := CopyPrograms(all);
    hide CopyPrograms, Tick, Scheduled, FirstOnly;
    LoadTick(all, m, q);
    var m1 := Tick(progs, m, q);
    var others := FinishOthers(progs, m1, |all|, q, q);
    var m2 := Scheduled(progs, m1, others);
    SaveTick(all, m2, q);
    var m3 := Tick(progs, m2, q);
    var rest := EndQuietly(all, m3, q, q, all[q][0].to);
    sched := Joined(progs, m, [q], others, [q], rest);
    OneTick(progs, m, q);
    OneTick(progs, m2, q);
  }

  lemma OneTick<V>(progs: seq<Program<V, V>>, m: Machine<V, V>, p: nat)
    requires Consistent(progs, m)
    ensures Scheduled(progs, m, [p]) == Tick(progs, m, p)
  {
    ThenTick(progs, m, [], p);
    assert [] + [p] == [p];
  }

  /** The other thread saves where this one is about to load from. */
  lemma LoadsAfter<V>(all: seq<seq<Move>>, m: Machine<V, V>, p: nat, q: nat) returns (sched: seq<nat>)
    requires AtStart(all, m) && TwoFirst(all, |m.mem|, p, q) && FirstOnly(all, all[q][0].to) && all[p][0].to == all[q][0].from
    ensures Outcome(all, m, sched, all[q][0].to, m.mem[all[p][0].from])
  {
    var progs: seq<Program<V, V>> := CopyPrograms(all);
    hide CopyPrograms, Tick, Scheduled, FirstOnly;
    LoadTick(all, m, p);
    var m1 := Tick(progs, m, p);
    var others := FinishOthers(progs, m1, |all|, p, q);
    var m2 := Scheduled(progs, m1, others);
    SaveTick(all, m2, p);
    var m3 := Tick(progs, m2, p);
    LoadTick(all, m3, q);
    var m4 := Tick(progs, m3, q);
    SaveTick(all, m4, q);
    var m5 := Tick(progs, m4, q);
    var rest := EndQuietly(all, m5, p, q, all[q][0].to);
    sched := Joined(progs, m, [p], others, [p, q] + [q], rest);
    OneTick(progs, m, p);
    TwoTicks(progs, m2, p, q);
    ThenTick(progs, m2, [p, q], q);
  }

  // ---------------------------------------------------------------- launches

  /** Every memory has one result. */
  ghost predicate OneResult<V(!new)>(y: Launch, blocks: nat)
    requires LaunchOk(y, blocks)
  {
    forall mem: seq<V>, locals: seq<V>, s: seq<nat>, t: seq<nat> | RunsTo(y, blocks, mem, locals, s) && RunsTo(y, blocks, mem, locals, t) ::
      RunLaunch(y, blocks, mem, locals, s).mem == RunLaunch(y, blocks, mem, locals, t).mem
  }

  ghost predicate RunsTo<V>(y: Launch, blocks: nat, mem: seq<V>, locals: seq<V>, s: seq<nat>)
    requires LaunchOk(y, blocks)
  {
    |mem| == blocks * y.size && |locals| == |y.jobs| * y.threads && Complete(CopyPrograms(AllMoves(y)), RunLaunch(y, blocks, mem, locals, s))
  }

  lemma AgreeingLaunch<V(!new)>(y: Launch, blocks: nat)
    requires LaunchOk(y, blocks) && MovesAgree(y.jobs)
    ensures OneResult<V>(y, blocks)
  {
    CellsIn(y, blocks);
    CellsAgree(y);
    hide AllMoves, MovesAgree, CopyPrograms, MovesIn, LaunchOk, Moved;
    forall mem: seq<V>, locals: seq<V>, s: seq<nat>, t: seq<nat> | RunsTo(y, blocks, mem, locals, s) && RunsTo(y, blocks, mem, locals, t)
      ensures RunLaunch(y, blocks, mem, locals, s).mem == RunLaunch(y, blocks, mem, locals, t).mem
    {
      AnyScheduleMoves(AllMoves(y), mem, locals, s);
      AnyScheduleMoves(AllMoves(y), mem, locals, t);
      MovedOnce(AllMoves(y), mem, RunLaunch(y, blocks, mem, locals, s).mem, RunLaunch(y, blocks, mem, locals, t).mem);
    }
  }

  /** Blocks that some job writes first are written by no job later. */
  ghost predicate JobsFirst(jobs: seq<seq<Move>>) {
    && (forall p | 0 <= p < |jobs| :: jobs[p] != [])
    && (forall p, q, r | 0 <= p < |jobs| && jobs[p] != [] && 0 <= q < |jobs| && 1 <= r < |jobs[q]| :: jobs[q][r].to != jobs[p][0].to)
  }

  /** The first thread of a job starts with the first element of its first block. */
  lemma FirstThread(y: Launch, blocks: nat, p: nat)
    requires LaunchOk(y, blocks) && p < |y.jobs| && y.jobs[p] != []
    ensures Digits(p, y.threads, 0) < |AllMoves(y)| && AllMoves(y)[Digits(p, y.threads, 0)] != []
    ensures AllMoves(y)[Digits(p, y.threads, 0)][0] == CellMove(y, p, 0, 0)
  {
    ThreadAt(p, 0, |y.jobs|, y.threads);
    TurnsBound(0, y.size, y.threads, 0);
    assert Visit(0, 0, y.threads) == 0;
    MoveAt(y, p, 0, |y.jobs[p]|, 0, 0);
  }

  lemma FirstCells(y: Launch, p: nat)
    requires y.threads > 0 && y.size > 0 && JobsFirst(y.jobs) && p < |y.jobs|
    ensures FirstOnly(AllMoves(y), CellMove(y, p, 0, 0).to)
  {
    var all: seq<seq<Move>> := AllMoves(y);
    hide AllMoves;
    forall u, j | 0 <= u < |all| && 1 <= j < |all[u]| ensures all[u][j].to != CellMove(y, p, 0, 0).to {
      var q, r, i, tid, k := AllMovesAt(y, u, j);
      if all[u][j].to == CellMove(y, p, 0, 0).to {
        UniqueDigits(y.jobs[q][r].to, i, y.jobs[p][0].to, 0, y.size);
        NotFirst(r, k, Turns(tid, y.size, y.threads), j, tid, y.threads);
        assert false;
      }
    }
  }

  /** A later move is of a later block, or of a later element. */
  lemma NotFirst(r: nat, k: nat, turns: nat, j: nat, tid: nat, step: nat)
    requires j == r * turns + k && j >= 1 && step > 0
    ensures r >= 1 || Visit(tid, k, step) > 0
  {
    if r == 0 {
      assert k * step >= step by { MulMonotone(1, k, step); }
    }
  }

  /** One cell apart from the others. */
  ghost function Marked<V>(n: nat, a: nat, v: V, w: V): (r: seq<V>)
    ensures |r| == n && forall i | 0 <= i < n :: r[i] == if i == a then v else w
  {
    seq(n, i => if i == a then v else w)
  }

  /** Two jobs whose first blocks do not agree make the result depend on the schedule. */
  lemma DisagreeingLaunch<V(!new)>(y: Launch, blocks: nat, p: nat, q: nat, v: V, w: V)
    requires LaunchOk(y, blocks) && JobsFirst(y.jobs) && p < |y.jobs| && q < |y.jobs| && v != w
    requires !Agree(y.jobs[p][0], y.jobs[q][0])
    ensures !OneResult<V>(y, blocks)
  {
    var all: seq<seq<Move>>, t, u := AllMoves(y), Digits(p, y.threads, 0), Digits(q, y.threads, 0);
    var x, z := CellMove(y, p, 0, 0), CellMove(y, q, 0, 0);
    var mem, locals := Marked(blocks * y.size, x.from, v, w), Marked(|y.jobs| * y.threads, 0, v, w);
    CellsIn(y, blocks);
    FirstThread(y, blocks, p);
    FirstThread(y, blocks, q);
    FirstCells(y, q);
    FirstCells(y, p);
    DifferentThreads(p, q, y.threads);
    CellsDisagree(y, p, q);
    FirstMovesIn(all, |mem|, t, u);
    var m := RunLaunch(y, blocks, mem, locals, []);
    hide AllMoves, CopyPrograms, MovesIn, Digits, CellMove, FirstOnly, Marked, RunCopies;
    assert AtStart(all, m) && m.mem == mem by {
      StartsThere(y, blocks, mem, locals);
    }
    var s1, s2;
    if x.to == z.to && x.from != z.from {
      s1 := SavesLast(all, m, t, u);
      s2 := SavesLast(all, m, u, t);
    } else {
      s1 := LoadsFirst(all, m, t, u);
      s2 := LoadsAfter(all, m, t, u);
    }
    FromStart(y, blocks, mem, locals, s1);
    FromStart(y, blocks, mem, locals, s2);
    assert RunsTo(y, blocks, mem, locals, s1) && RunsTo(y, blocks, mem, locals, s2);
  }

  lemma DifferentThreads(p: nat, q: nat, threads: nat)
    requires threads > 0 && p != q
    ensures Digits(p, threads, 0) != Digits(q, threads, 0)
  {
    if Digits(p, threads, 0) == Digits(q, threads, 0) {
      UniqueDigits(p, 0, q, 0, threads);
    }
  }

  lemma CellsDisagree(y: Launch, p: nat, q: nat)
    requires y.size > 0 && p < |y.jobs| && q < |y.jobs| && y.jobs[p] != [] && y.jobs[q] != [] && !Agree(y.jobs[p][0], y.jobs[q][0])
    ensures p != q && !Agree(CellMove(y, p, 0, 0), CellMove(y, q, 0, 0))
  {
    var x, z := y.jobs[p][0], y.jobs[q][0];
    if Digits(x.from, y.size, 0) == Digits(z.from, y.size, 0) {
      UniqueDigits(x.from, 0, z.from, 0, y.size);
    }
    if Digits(x.from, y.size, 0) == Digits(x.to, y.size, 0) {
      UniqueDigits(x.from, 0, x.to, 0, y.size);
    }
  }

  lemma FirstMovesIn(all: seq<seq<Move>>, n: nat, t: nat, u: nat)
    requires (forall i | 0 <= i < |all| :: MovesIn(all[i], n)) && t < |all| && u < |all| && t != u && all[t] != [] && all[u] != []
    ensures TwoFirst(all, n, t, u) && TwoFirst(all, n, u, t)
  {
  }

  lemma StartsThere<V>(y: Launch, blocks: nat, mem: seq<V>, locals: seq<V>)
    requires LaunchOk(y, blocks) && |mem| == blocks * y.size && |locals| == |y.jobs| * y.threads
    ensures var m := RunLaunch(y, blocks, mem, locals, []); AtStart(AllMoves(y), m) && m.mem == mem
  {
    CellsIn(y, blocks);
  }

  lemma FromStart<V>(y: Launch, blocks: nat, mem: seq<V>, locals: seq<V>, sched: seq<nat>)
    requires LaunchOk(y, blocks) && |mem| == blocks * y.size && |locals| == |y.jobs| * y.threads
    ensures Scheduled(CopyPrograms(AllMoves(y)), RunLaunch(y, blocks, mem, locals, []), sched) == RunLaunch(y, blocks, mem, locals, sched)
  {
    CellsIn(y, blocks);
  }

  /**
    In-place copies have one result for every memory, whatever the interleaving, if and only if pairs with one
    destination have one source and every destination that is also a source is copied onto itself.
   */
  lemma CopyResultIff<V(!new)>(pairs: seq<Pair>, blocks: nat, size: nat, threads: nat, v: V, w: V)
    requires PairsIn(pairs, blocks, blocks) && size > 0 && threads > 0 && v != w
    ensures LaunchOk(CopyLaunch(pairs, blocks, size, threads), 2 * blocks)
    ensures OneResult<V>(CopyLaunch(pairs, blocks, size, threads), 2 * blocks) <==> CopyAgrees(pairs)
  {
    var y := CopyLaunch(pairs, blocks, size, threads);
    CopyJobs(pairs, blocks, size, threads);
    hide OneResult;
    if CopyAgrees(pairs) {
      AgreeingLaunch<V>(y, 2 * blocks);
    } else {
      var p, q :| 0 <= p < |pairs| && 0 <= q < |pairs|
        && !((pairs[p].dst == pairs[q].dst ==> pairs[p].src == pairs[q].src) && (pairs[p].dst == pairs[q].src ==> pairs[p].src == pairs[p].dst));
      assert !Agree(y.jobs[p][0], y.jobs[q][0]);
      assert JobsFirst(y.jobs) by {
        forall a, b, r | 0 <= a < |y.jobs| && 0 <= b < |y.jobs| && 1 <= r < |y.jobs[b]| ensures y.jobs[b][r].to != y.jobs[a][0].to {
          assert pairs[a].dst < blocks;
        }
      }
      DisagreeingLaunch(y, 2 * blocks, p, q, v, w);
    }
  }

  /** Between buffers, if and only if pairs with one destination have one source. */
  lemma SwapResultIff<V(!new)>(pairs: seq<Pair>, srcs: nat, dsts: nat, size: nat, threads: nat, v: V, w: V)
    requires PairsIn(pairs, srcs, dsts) && size > 0 && threads > 0 && v != w
    ensures LaunchOk(SwapLaunch(pairs, srcs, size, threads), srcs + dsts)
    ensures OneResult<V>(SwapLaunch(pairs, srcs, size, threads), srcs + dsts) <==> SwapAgrees(pairs)
  {
    var y := SwapLaunch(pairs, srcs, size, threads);
    SwapJobs(pairs, srcs, dsts, size, threads);
    hide OneResult;
    if SwapAgrees(pairs) {
      AgreeingLaunch<V>(y, srcs + dsts);
    } else {
      var p, q :| 0 <= p < |pairs| && 0 <= q < |pairs| && pairs[p].dst == pairs[q].dst && pairs[p].src != pairs[q].src;
      assert !Agree(y.jobs[p][0], y.jobs[q][0]);
      DisagreeingLaunch(y, srcs + dsts, p, q, v, w);
    }
  }

  /** A chain of two copies, for any sizes: the second may copy the first's old or new contents. */
  lemma ChainedCopyRaces<V(!new)>(blocks: nat, size: nat, threads: nat, v: V, w: V)
    requires blocks >= 3 && size > 0 && threads > 0 && v != w
    ensures LaunchOk(CopyLaunch([Pair(0, 1), Pair(1, 2)], blocks, size, threads), 2 * blocks)
    ensures !OneResult<V>(CopyLaunch([Pair(0, 1), Pair(1, 2)], blocks, size, threads), 2 * blocks)
  {
    var pairs := [Pair(0, 1), Pair(1, 2)];
    assert pairs[0].dst == pairs[1].src && pairs[0].src != pairs[0].dst;
    CopyResultIff(pairs, blocks, size, threads, v, w);
  }

  // ---------------------------------------------------------------- the kernels, one thread at a time

  /** The moves of a list, one after the other. */
  ghost function DoMoves<V>(mem: seq<V>, ms: seq<Move>): (r: seq<V>)
    requires MovesIn(ms, |mem|)
    ensures |r| == |mem|
  {
    if ms == [] then mem
    else
      var n := |ms| - 1;
      var r := DoMoves(mem, ms[..n]);
      r[ms[n].to := r[ms[n].from]]
  }

  lemma MovesPrefix(ms: seq<Move>, n: nat, j: nat)
    requires MovesIn(ms, n) && j <= |ms|
    ensures MovesIn(ms[..j], n)
  {
  }

  /** A thread's program, run by itself, does its moves. */
  lemma {:induction false} AloneMoves<V>(ms: seq<Move>, l: V, mem: seq<V>, j: nat)
    requires MovesIn(ms, |mem|) && j <= |ms|
    ensures InRange(CopyProgram<V>(ms)[..2 * j], |mem|) && MovesIn(ms[..j], |mem|)
    ensures Alone(CopyProgram<V>(ms)[..2 * j], l, mem).1 == DoMoves(mem, ms[..j])
    decreases j
  {
    var p: Program<V, V> := CopyProgram(ms);
    CopyInRange<V>(ms, |mem|);
    MovesPrefix(ms, |mem|, j);
    PrefixInRange(p, |mem|, 2 * j);
    if j > 0 {
      AloneMoves(ms, l, mem, j - 1);
      hide CopyProgram, InRange, MovesIn, Alone, DoMoves;
      PairOfActions(ms, l, mem, j - 1);
      DoMovesStep(mem, ms, j - 1);
    }
  }

  /** The load and the save of one move. */
  lemma PairOfActions<V>(ms: seq<Move>, l: V, mem: seq<V>, j: nat)
    requires MovesIn(ms, |mem|) && j < |ms|
    ensures InRange(CopyProgram<V>(ms)[..2 * j], |mem|) && InRange(CopyProgram<V>(ms)[..2 * (j + 1)], |mem|)
    ensures ms[j].from < |mem| && ms[j].to < |mem|
    ensures var p := CopyProgram<V>(ms); var r := Alone(p[..2 * j], l, mem).1;
            Alone(p[..2 * (j + 1)], l, mem).1 == r[ms[j].to := r[ms[j].from]]
  {
    hide CopyProgram, InRange, MovesIn, Load, Save, Act, Alone, MoveAction;
    CopyInRange<V>(ms, |mem|);
    MoveActions<V>(ms, j);
    MoveIn(ms, |mem|, j);
    var p: Program<V, V>, i := CopyProgram(ms), 2 * j;
    assert 2 * (j + 1) == i + 2;
    TwoActions(p, l, mem, i, ms[j]);
  }

  lemma MoveIn(ms: seq<Move>, n: nat, j: nat)
    requires MovesIn(ms, n) && j < |ms|
    ensures ms[j].from < n && ms[j].to < n
  {
  }

  lemma TwoActions<V>(p: Program<V, V>, l: V, mem: seq<V>, i: nat, m: Move)
    requires InRange(p, |mem|) && i + 1 < |p| && m.from < |mem| && m.to < |mem| && p[i] == Load(m.from) && p[i + 1] == Save(m.to)
    ensures InRange(p[..i], |mem|) && InRange(p[..i + 2], |mem|)
    ensures var r := Alone(p[..i], l, mem).1; Alone(p[..i + 2], l, mem).1 == r[m.to := r[m.from]]
  {
    hide InRange, Load, Save, Act, Alone;
    AloneStep(p, l, mem, i);
    AloneStep(p, l, mem, i + 1);
    var r := Alone(p[..i], l, mem);
    LoadSave(m.from, m.to, r.0, r.1);
    assert i + 1 + 1 == i + 2;
  }

  /** What thread `tid` copies from one block to another. */
  ghost function StrideMoves(src: nat, dst: nat, size: nat, tid: nat, threads: nat): (ms: seq<Move>)
    requires threads > 0
    ensures |ms| == Turns(tid, size, threads)
  {
    seq(Turns(tid, size, threads), k requires 0 <= k < Turns(tid, size, threads) =>
      Move(Digits(src, size, Visit(tid, k, threads)), Digits(dst, size, Visit(tid, k, threads))))
  }

  lemma StridesIn(src: nat, dst: nat, size: nat, tid: nat, threads: nat, blocks: nat)
    requires threads > 0 && src < blocks && dst < blocks
    ensures MovesIn(StrideMoves(src, dst, size, tid, threads), blocks * size)
  {
    var ms := StrideMoves(src, dst, size, tid, threads);
    forall k | 0 <= k < |ms| ensures ms[k].from < blocks * size && ms[k].to < blocks * size {
      TurnsBound(tid, size, threads, k);
      DigitsBelow(src, Visit(tid, k, threads), blocks, size);
      DigitsBelow(dst, Visit(tid, k, threads), blocks, size);
    }
  }

  /** One cache's part of a thread of `copy_blocks`, in place. */
  method CopyInPlace<V>(cache: array<V>, src: nat, dst: nat, size: nat, tid: nat, threads: nat, ghost blocks: nat)
    requires threads > 0 && src < blocks && dst < blocks && cache.Length == blocks * size
    modifies cache
    ensures MovesIn(StrideMoves(src, dst, size, tid, threads), cache.Length)
    ensures cache[..] == DoMoves(old(cache[..]), StrideMoves(src, dst, size, tid, threads))
  {
    ghost var ms, before, k := StrideMoves(src, dst, size, tid, threads), cache[..], 0;
    StridesIn(src, dst, size, tid, threads, blocks);
    var srcOffset, dstOffset := src * size, dst * size;
    assert srcOffset == Digits(src, size, 0) && dstOffset == Digits(dst, size, 0) && ms[..0] == [];
    hide Turns, StrideMoves, MovesIn, Digits;
    NoMoves(before);
    var i := tid;
    while i < size
      invariant i == Visit(tid, k, threads) && k <= |ms|
      invariant MovesIn(ms[..k], |before|) && cache[..] == DoMoves(before, ms[..k])
    {
      StrideMoveAt(src, dst, size, tid, threads, k);
      DoMovesStep(before, ms, k);
      DigitsShift(src, size, i);
      DigitsShift(dst, size, i);
      cache[dstOffset + i] := cache[srcOffset + i];
      VisitNext(tid, k, threads);
      i := i + threads;
      k := k + 1;
    }
    TurnsBound(tid, size, threads, k);
    assert ms[..k] == ms;
  }

  lemma NoMoves<V>(mem: seq<V>)
    ensures MovesIn([], |mem|) && DoMoves(mem, []) == mem
  {
  }

  lemma DigitsShift(a: nat, size: nat, i: nat)
    ensures Digits(a, size, i) == Digits(a, size, 0) + i
  {
  }

  lemma StrideMoveAt(src: nat, dst: nat, size: nat, tid: nat, threads: nat, k: nat)
    requires threads > 0 && Visit(tid, k, threads) < size
    ensures var ms, i := StrideMoves(src, dst, size, tid, threads), Visit(tid, k, threads);
            k < |ms| && ms[k] == Move(Digits(src, size, i), Digits(dst, size, i))
  {
    TurnsBound(tid, size, threads, k);
  }

  lemma DoMovesStep<V>(mem: seq<V>, ms: seq<Move>, k: nat)
    requires MovesIn(ms, |mem|) && k < |ms|
    ensures MovesIn(ms[..k], |mem|) && MovesIn(ms[..k + 1], |mem|) && ms[k].from < |mem| && ms[k].to < |mem|
    ensures var r := DoMoves(mem, ms[..k]); DoMoves(mem, ms[..k + 1]) == r[ms[k].to := r[ms[k].from]]
  {
    MovesPrefix(ms, |mem|, k);
    MovesPrefix(ms, |mem|, k + 1);
    MoveIn(ms, |mem|, k);
    hide MovesIn;
    var next := ms[..k + 1];
    assert next[..k] == ms[..k] && next[k] == ms[k] && |next| - 1 == k && next != [];
  }

  /** A thread of `copy_blocks`: its part of the key block, then of the value block. */
  method CopyBlocksThread<V>(keyCache: array<V>, valueCache: array<V>, pairs: seq<Pair>, size: nat, pairIdx: nat, tid: nat,
                             threads: nat, ghost blocks: nat)
    requires PairsIn(pairs, blocks, blocks) && pairIdx < |pairs| && tid < threads && size > 0 && keyCache != valueCache
    requires keyCache.Length == valueCache.Length == blocks * size
    modifies keyCache, valueCache
    ensures MovesIn(ThreadMoves(CopyLaunch(pairs, blocks, size, threads), pairIdx, tid, 2), |old(keyCache[..] + valueCache[..])|)
    ensures keyCache[..] + valueCache[..]
         == DoMoves(old(keyCache[..] + valueCache[..]), ThreadMoves(CopyLaunch(pairs, blocks, size, threads), pairIdx, tid, 2))
  {
    hide DoMoves, StrideMoves, ThreadMoves, MovesIn;
    ghost var k, v := keyCache[..], valueCache[..];
    var srcBlock, dstBlock := pairs[pairIdx].src, pairs[pairIdx].dst;
    CopyInPlace(keyCache, srcBlock, dstBlock, size, tid, threads, blocks);
    CopyInPlace(valueCache, srcBlock, dstBlock, size, tid, threads, blocks);
    BothCaches(k, v, pairs, blocks, size, threads, pairIdx, tid);
  }

  ghost function MovedBy(ms: seq<Move>, base: nat): (r: seq<Move>)
    ensures |r| == |ms|
  {
    seq(|ms|, j requires 0 <= j < |ms| => Move(base + ms[j].from, base + ms[j].to))
  }

  lemma {:induction false} MovesLeft<V>(k: seq<V>, v: seq<V>, ms: seq<Move>)
    requires MovesIn(ms, |k|)
    ensures MovesIn(ms, |k + v|) && DoMoves(k + v, ms) == DoMoves(k, ms) + v
    decreases |ms|
  {
    if ms != [] {
      MovesPrefix(ms, |k|, |ms| - 1);
      MovesLeft(k, v, ms[..|ms| - 1]);
    }
  }

  lemma {:induction false} MovesRight<V>(k: seq<V>, v: seq<V>, ms: seq<Move>)
    requires MovesIn(ms, |v|)
    ensures MovesIn(MovedBy(ms, |k|), |k + v|) && DoMoves(k + v, MovedBy(ms, |k|)) == k + DoMoves(v, ms)
    decreases |ms|
  {
    if ms != [] {
      var n := |ms| - 1;
      MovesPrefix(ms, |v|, n);
      assert MovedBy(ms, |k|)[..n] == MovedBy(ms[..n], |k|);
      MovesRight(k, v, ms[..n]);
    }
  }

  lemma {:induction false} MovesBoth<V>(mem: seq<V>, a: seq<Move>, b: seq<Move>)
    requires MovesIn(a, |mem|) && MovesIn(b, |mem|)
    ensures MovesIn(a + b, |mem|) && DoMoves(mem, a + b) == DoMoves(DoMoves(mem, a), b)
    decreases |b|
  {
    if b == [] {
      assert a + b == a;
    } else {
      var n := |b| - 1;
      MovesPrefix(b, |mem|, n);
      MovesBoth(mem, a, b[..n]);
      assert (a + b)[..|a + b| - 1] == a + b[..n];
    }
  }

  /** A thread's moves over both caches are its moves in each. */
  lemma BothCaches<V>(k: seq<V>, v: seq<V>, pairs: seq<Pair>, blocks: nat, size: nat, threads: nat, p: nat, tid: nat)
    requires PairsIn(pairs, blocks, blocks) && p < |pairs| && tid < threads && |k| == |v| == blocks * size
    ensures MovesIn(StrideMoves(pairs[p].src, pairs[p].dst, size, tid, threads), |k|)
    ensures MovesIn(ThreadMoves(CopyLaunch(pairs, blocks, size, threads), p, tid, 2), |k + v|)
    ensures var ms := StrideMoves(pairs[p].src, pairs[p].dst, size, tid, threads);
            DoMoves(k + v, ThreadMoves(CopyLaunch(pairs, blocks, size, threads), p, tid, 2)) == DoMoves(k, ms) + DoMoves(v, ms)
  {
    var y, ms := CopyLaunch(pairs, blocks, size, threads), StrideMoves(pairs[p].src, pairs[p].dst, size, tid, threads);
    StridesIn(pairs[p].src, pairs[p].dst, size, tid, threads, blocks);
    ThreadMovesAre(pairs, blocks, size, threads, p, tid);
    MovesLeft(k, v, ms);
    MovesRight(DoMoves(k, ms), v, ms);
    hide DoMoves, StrideMoves, ThreadMoves, CopyLaunch, MovesIn;
    MovesBoth(k + v, ms, MovedBy(ms, blocks * size));
  }

  lemma ThreadMovesAre(pairs: seq<Pair>, blocks: nat, size: nat, threads: nat, p: nat, tid: nat)
    requires p < |pairs| && tid < threads
    ensures var ms := StrideMoves(pairs[p].src, pairs[p].dst, size, tid, threads);
            ThreadMoves(CopyLaunch(pairs, blocks, size, threads), p, tid, 2) == ms + MovedBy(ms, blocks * size)
  {
    var y, ms := CopyLaunch(pairs, blocks, size, threads), StrideMoves(pairs[p].src, pairs[p].dst, size, tid, threads);
    assert y.jobs[p] == [Move(pairs[p].src, pairs[p].dst), Move(blocks + pairs[p].src, blocks + pairs[p].dst)];
    assert BlockMoves(y, p, 0, tid) == ms;
    forall k | 0 <= k < |ms| ensures BlockMoves(y, p, 1, tid)[k] == MovedBy(ms, blocks * size)[k] {
      Distributes(blocks, pairs[p].src, size);
      Distributes(blocks, pairs[p].dst, size);
    }
    assert ThreadMoves(y, p, tid, 0) == [] && ThreadMoves(y, p, tid, 1) == [] + ms;
  }

  lemma Distributes(a: nat, b: nat, size: nat)
    ensures (a + b) * size == a * size + b * size
  {
  }

  /** What thread `tid` copies from one range of cells to another. */
  ghost function RangeMoves(from: nat, to: nat, size: nat, tid: nat, threads: nat): (ms: seq<Move>)
    requires threads > 0
    ensures |ms| == Turns(tid, size, threads)
  {
    seq(Turns(tid, size, threads), k requires 0 <= k < Turns(tid, size, threads) =>
      Move(from + Visit(tid, k, threads), to + Visit(tid, k, threads)))
  }

  lemma RangeMoveAt(from: nat, to: nat, size: nat, tid: nat, threads: nat, k: nat, n: nat)
    requires threads > 0 && Visit(tid, k, threads) < size && from + size <= n && to + size <= n
    ensures var ms, i := RangeMoves(from, to, size, tid, threads), Visit(tid, k, threads);
            k < |ms| && ms[k] == Move(from + i, to + i) && MovesIn(ms, n)
  {
    TurnsBound(tid, size, threads, k);
    var ms := RangeMoves(from, to, size, tid, threads);
    forall j | 0 <= j < |ms| ensures ms[j].from < n && ms[j].to < n {
      TurnsBound(tid, size, threads, j);
    }
  }

  /** The loop of `swap_blocks`, over the source and the destination behind it. */
  method SwapLoop<V>(src: array<V>, dst: array<V>, srcOffset: nat, dstOffset: nat, size: nat, tid: nat, threads: nat)
    requires src != dst && srcOffset + size <= src.Length && dstOffset + size <= dst.Length && tid < threads
    modifies dst
    ensures var ms := RangeMoves(srcOffset, src.Length + dstOffset, size, tid, threads);
            && MovesIn(ms, |old(src[..] + dst[..])|)
            && src[..] + dst[..] == DoMoves(old(src[..] + dst[..]), ms)
  {
    ghost var n := src.Length;
    ghost var ms, before, k := RangeMoves(srcOffset, n + dstOffset, size, tid, threads), src[..] + dst[..], 0;
    assert ms[..0] == [] && |before| == n + dst.Length;
    hide Turns, RangeMoves, MovesIn, DoMoves;
    NoMoves(before);
    var i := tid;
    while i < size
      invariant i == Visit(tid, k, threads) && k <= |ms|
      invariant MovesIn(ms[..k], |before|) && src[..] + dst[..] == DoMoves(before, ms[..k])
    {
      RangeMoveAt(srcOffset, n + dstOffset, size, tid, threads, k, |before|);
      DoMovesStep(before, ms, k);
      SaveBehind(src[..], dst[..], srcOffset + i, dstOffset + i);
      dst[dstOffset + i] := src[srcOffset + i];
      VisitNext(tid, k, threads);
      i := i + threads;
      k := k + 1;
    }
    TurnsBound(tid, size, threads, k);
    assert ms[..k] == ms;
  }

  /** A thread of `swap_blocks`. */
  method SwapBlocksThread<V>(src: array<V>, dst: array<V>, pairs: seq<Pair>, size: nat, pairIdx: nat, tid: nat, threads: nat,
                             ghost srcs: nat, ghost dsts: nat)
    requires PairsIn(pairs, srcs, dsts) && pairIdx < |pairs| && tid < threads && src != dst
    requires src.Length == srcs * size && dst.Length == dsts * size
    modifies dst
    ensures MovesIn(ThreadMoves(SwapLaunch(pairs, srcs, size, threads), pairIdx, tid, 1), |old(src[..] + dst[..])|)
    ensures src[..] + dst[..]
         == DoMoves(old(src[..] + dst[..]), ThreadMoves(SwapLaunch(pairs, srcs, size, threads), pairIdx, tid, 1))
  {
    var s, d := pairs[pairIdx].src, pairs[pairIdx].dst;
    BlockFits(src[..], size, srcs, s);
    BlockFits(dst[..], size, dsts, d);
    SwapMovesAre(pairs, srcs, size, threads, pairIdx, tid);
    SwapLoop(src, dst, s * size, d * size, size, tid, threads);
  }

  lemma SaveBehind<V>(s: seq<V>, d: seq<V>, i: nat, j: nat)
    requires i < |s| && j < |d|
    ensures (s + d)[|s| + j := (s + d)[i]] == s + d[j := s[i]]
  {
  }

  lemma SwapMovesAre(pairs: seq<Pair>, srcs: nat, size: nat, threads: nat, p: nat, tid: nat)
    requires p < |pairs| && tid < threads
    ensures ThreadMoves(SwapLaunch(pairs, srcs, size, threads), p, tid, 1)
         == RangeMoves(pairs[p].src * size, srcs * size + pairs[p].dst * size, size, tid, threads)
  {
    var y := SwapLaunch(pairs, srcs, size, threads);
    assert y.jobs[p] == [Move(pairs[p].src, srcs + pairs[p].dst)];
    Distributes(srcs, pairs[p].dst, size);
    assert BlockMoves(y, p, 0, tid) == RangeMoves(pairs[p].src * size, srcs * size + pairs[p].dst * size, size, tid, threads);
    assert ThreadMoves(y, p, tid, 0) == [];
  }
}
