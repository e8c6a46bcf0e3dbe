/** The whole attention kernel for one head of one sequence: any schedule of its intervals computes dense attention. */
module PagedAttention {
  import opened Results
  import opened Schedules
  import opened Strides
  import opened Reductions
  import opened WarpGroups
  import opened WarpTeams
  import opened Attention
  import opened KernelLayout
  import opened ScoreInterval
  import opened ReduceInterval
  import opened ExpInterval
  import opened ValueInterval
  import opened InitInterval
  import opened OutputInterval

  ghost function RowStart(): Regs { Regs(0.0, 0.0, 0.0) }

  /** Memory at the kernel's start, at each of its six barriers, and at its end. */
  datatype Trace = Trace(start: seq<real>, ready: seq<real>, scored: seq<real>, peaked: seq<real>, raised: seq<real>,
                         summed: seq<real>, partial: seq<real>, end: seq<real>)

  /** Every interval runs to its barrier under some schedule of its own. */
  ghost predicate IsRun(t: Task, r: Trace)
    requires TaskOk(t)
  {
    ThreadsPositive(t.k);
    RunSizes(t, r);
    && |r.start| == |r.ready| == |r.scored| == |r.peaked| == |r.raised| == |r.summed| == Cells(t.k)
    && Reaches(InitCode(t), r.start, Starts(Fresh(t), Threads(t.k)), r.ready)
    && TeamReaches(ScoreTeam(t), Fresh(t), r.ready, r.scored)
    && TeamReaches(ReduceTeam(t.k, Max(t.a.low), 127), Fresh(t), r.scored, r.peaked)
    && TeamReaches(ExpTeam(t), Fresh(t), r.peaked, r.raised)
    && TeamReaches(ReduceTeam(t.k, Sum, 126), Fresh(t), r.raised, r.summed)
    && Reaches(ValueCode(t), r.summed, Starts(Fresh(t), Threads(t.k)), r.partial)
    && Reaches(OutputCode(t.k), r.partial, Starts(RowStart(), Threads(t.k)), r.end)
  }

  lemma RunSizes(t: Task, r: Trace)
    requires TaskOk(t)
    ensures KernelOk(t.k)
  {
  }

  /** The partial rows are still zero. */
  ghost predicate RowsZero(k: Kernel, mem: seq<real>) {
    |mem| == Cells(k) && forall a: nat | OutBase(k) <= a < SharedCells(k) :: mem[a] == 0.0
  }

  lemma PeakStored(t: Task, mem: seq<real>, scored: seq<real>, peaked: seq<real>)
    requires TaskOk(t) && Scored(t, mem, scored) && RowsZero(t.k, mem) && MaxCell(t.k) < |scored|
    requires peaked == scored[MaxCell(t.k) := Fold(Max(t.a.low), RedValues(t.k, scored))]
    ensures MaxKnown(t, peaked) && RowsZero(t.k, peaked)
  {
    TaskFits(t);
    hide TaskOk, KernelOk, Fold, RedValues, TaskScores, Cells, SharedCells, AllFit;
  }

  lemma TotalStored(t: Task, mem: seq<real>, raised: seq<real>, summed: seq<real>)
    requires TaskOk(t) && Exponentiated(t, mem, raised) && RowsZero(t.k, mem) && SumCell(t.k) < |raised|
    requires summed == raised[SumCell(t.k) := Fold(Sum, RedValues(t.k, raised))]
    ensures SumKnown(t, summed)
  {
    TaskFits(t);
    SharedWithin(t.k);
    hide TaskOk, KernelOk, Fold, RedValues, TaskExps, Cells, SharedCells;
  }

  /** Up to the first reduction: scores in place and their maximum in its cell. */
  lemma MaxReached(t: Task, r: Trace)
    requires TaskOk(t) && IsRun(t, r)
    ensures MaxKnown(t, r.peaked) && RowsZero(t.k, r.peaked)
  {
    ThreadsPositive(t.k);
    TaskFits(t);
    RedFits(t.k, 127);
    SharedWithin(t.k);
    hide TaskOk, KernelOk, Threads, Cells, Reaches, TeamReaches, InitCode, ScoreTeam, ReduceTeam, Fold, RedValues, TaskScores, AllFit, MaxKnown, SharedCells;
    InitsAnySchedule(t, r.start, r.ready);
    ScoresAnySchedule(t, r.ready, r.scored);
    hide IsRun;
    ScoredFits(t, r.ready, r.scored);
    assert TeamReaches(ReduceTeam(t.k, Max(t.a.low), 127), Fresh(t), r.scored, r.peaked);
    hide Scored;
    ReducesAnySchedule(t.k, Max(t.a.low), Fresh(t), 127, r.scored, r.peaked);
    PeakStored(t, r.ready, r.scored, r.peaked);
  }

  lemma ScoredFits(t: Task, mem: seq<real>, after: seq<real>)
    requires TaskOk(t) && Scored(t, mem, after)
    ensures KernelOk(t.k) && |after| == Cells(t.k) && AllFit(Max(t.a.low), RedValues(t.k, after))
  {
  }

  /** Up to the second: exponentials in place and their sum in its cell. */
  lemma SumReached(t: Task, r: Trace)
    requires TaskOk(t) && IsRun(t, r)
    ensures SumKnown(t, r.summed)
  {
    TaskFits(t);
    RedFits(t.k, 126);
    hide TaskOk, KernelOk, Threads, Cells, Reaches, TeamReaches, ExpTeam, ReduceTeam, Fold, RedValues, TaskExps, MaxKnown, SumKnown, Exponentiated, RowsZero;
    MaxReached(t, r);
    ExpsAnySchedule(t, r.peaked, r.raised);
    assert TeamReaches(ReduceTeam(t.k, Sum, 126), Fresh(t), r.raised, r.summed);
    hide IsRun;
    ReducesAnySchedule(t.k, Sum, Fresh(t), 126, r.raised, r.summed);
    TotalStored(t, r.peaked, r.raised, r.summed);
  }

  /** The column of partial sums of an element adds up to the sum of its terms. */
  lemma ColumnTotal(t: Task, mem: seq<real>, d: nat)
    requires TaskOk(t) && Partial(t, mem) && d < t.k.headSize
    ensures Fold(Sum, Column(t.k, mem, d)) == Fold(Sum, Terms(t, d))
  {
    TaskFits(t);
    var gathered, shares, n := Column(t.k, mem, d), Shares(t, d), Blocks(t.k, |t.keys|);
    hide TaskOk, KernelOk, Terms, TaskExps, Blocks, Fold, PieceOf;
    StridesTotal(Sum, shares, t.k.warps, gathered, t.k.warps);
    PiecesTotal(Sum, Terms(t, d), t.k.blockSize, shares, n);
    assert shares[..n] == shares;
    BlocksCover(t.k, |t.keys|);
    assert Pieces(Terms(t, d), t.k.blockSize, n) == Terms(t, d);
  }

  lemma BlocksCover(k: Kernel, c: nat)
    requires k.blockSize > 0
    ensures c <= Blocks(k, c) * k.blockSize
  {
    DivMod(c + k.blockSize - 1, k.blockSize);
  }

  /** The terms are the dense weights times the values. */
  lemma TermsAreWeighted(t: Task, d: nat)
    requires TaskOk(t) && d < t.k.headSize
    ensures Fold(Sum, Shifted(t.a, Scores(t.a, t.keys))) + EPSILON != 0.0
    ensures |t.columns[d]| == |t.keys| && Terms(t, d) == Weighted(Weights(t.a, TaskScores(t)), t.columns[d])
  {
    ScoresFit(t, []);
    ShiftedSum(t.a, TaskScores(t));
    var w, v := Terms(t, d), Weighted(Weights(t.a, TaskScores(t)), t.columns[d]);
    var exps, total := Shifted(t.a, TaskScores(t)), Fold(Sum, Shifted(t.a, TaskScores(t)));
    hide TaskScores, Shifted, Fold;
    forall i | 0 <= i < |w| ensures w[i] == v[i] {
      assert w[i] == Term(exps[i], Inverse(total), t.columns[d][i]);
    }
  }

  /**
    The refinement: for any warp count and any power of two of lanes at least as large, and for every
    schedule of every interval, the output row is dense attention over the gathered keys and values.
   */
  lemma KernelIsDense(t: Task, r: Trace)
    requires TaskOk(t) && IsRun(t, r)
    ensures |r.end| == Cells(t.k) && Fold(Sum, Shifted(t.a, Scores(t.a, t.keys))) + EPSILON != 0.0
    ensures forall d | 0 <= d < t.k.headSize :: |t.columns[d]| == |t.keys| && r.end[RowCell(t.k, d)] == Dense(t.a, t.keys, t.columns[d])
  {
    ThreadsPositive(t.k);
    SumReached(t, r);
    ValuesAnySchedule(t, r.summed, r.partial);
    OutputsAnySchedule(t.k, RowStart(), r.partial, r.end);
    TaskFits(t);
    TermsAreWeighted(t, 0);
    hide IsRun, Reaches, TaskOk, KernelOk, Partial, SumKnown, Fold, Column, Terms, Shifted, Weights, Weighted, Scores;
    forall d | 0 <= d < t.k.headSize
      ensures |t.columns[d]| == |t.keys| && r.end[RowCell(t.k, d)] == Dense(t.a, t.keys, t.columns[d])
    {
      ColumnTotal(t, r.partial, d);
      TermsAreWeighted(t, d);
    }
  }

  /** So each output element is an average of the values, of total weight strictly between 1 - EPSILON and 1. */
  lemma OutputIsAverage(t: Task, r: Trace, d: nat, lo: real, hi: real)
    requires TaskOk(t) && IsRun(t, r) && d < t.k.headSize && forall i | 0 <= i < |t.columns[d]| :: lo <= t.columns[d][i] <= hi
    ensures |r.end| == Cells(t.k)
    ensures Fold(Sum, Shifted(t.a, Scores(t.a, t.keys))) + EPSILON != 0.0
    ensures var weight := Fold(Sum, Weights(t.a, Scores(t.a, t.keys)));
            1.0 - EPSILON < weight < 1.0 && Times(lo, weight) <= r.end[RowCell(t.k, d)] <= Times(hi, weight)
  {
    assert ScoresOk(t.a, t.keys) && ExpOk(t.a.exp);
    hide IsRun, TaskOk, KernelOk, Dense, Shifted, Weights, Scores, ScoresOk, ExpOk, Fold, Cells, SharedCells, Times;
    TaskFits(t);
    KernelIsDense(t, r);
    DenseIsAverage(t.a, t.keys, t.columns[d], lo, hi);
  }

  /** No thread and no warp waits for ever within an interval, so every start has such a run. */
  lemma KernelRuns(t: Task, start: seq<real>) returns (r: Trace)
    requires TaskOk(t) && |start| == Cells(t.k)
    ensures IsRun(t, r) && r.start == start
  {
    ThreadsPositive(t.k);
    TaskFits(t);
    RedFits(t.k, 127);
    RedFits(t.k, 126);
    var k, n := t.k, Threads(t.k);
    ScoreTeamOk(t, Cells(k));
    ExpTeamOk(t, Cells(k));
    LoadTeamOk(k, Max(t.a.low), RedCell(k, 127), Cells(k));
    LoadTeamOk(k, Sum, RedCell(k, 126), Cells(k));
    hide Reaches, TeamReaches, InRange, TeamOk, TaskOk, KernelOk, InitCode, ValueCode, OutputCode, ScoreBodies, ExpBodies, LoadBodies,
         InitBody, ValueBody, OutputBody, Cells, SharedCells;
    forall u | 0 <= u < n
      ensures InRange(InitCode(t)[u], Cells(k)) && InRange(ValueCode(t)[u], Cells(k)) && InRange(OutputCode(k)[u], Cells(k))
    {
      InitInRange(t, u, Cells(k));
      ValueInRange(t, u, Cells(k));
      OutputInRange(k, u);
    }
    hide Threads;
    var ready := CanReach(InitCode(t), start, Starts(Fresh(t), n));
    var scored := TeamCanReach(ScoreTeam(t), Fresh(t), ready);
    var peaked := TeamCanReach(ReduceTeam(k, Max(t.a.low), 127), Fresh(t), scored);
    var raised := TeamCanReach(ExpTeam(t), Fresh(t), peaked);
    var summed := TeamCanReach(ReduceTeam(k, Sum, 126), Fresh(t), raised);
    var partial := CanReach(ValueCode(t), summed, Starts(Fresh(t), n));
    var end := CanReach(OutputCode(k), partial, Starts(RowStart(), n));
    r := Trace(start, ready, scored, peaked, raised, summed, partial, end);
  }

  // ---------------------------------------------------------------- memory safety

  /** All accesses are to the first `n` cells, and no cell one thread writes is touched by another. */
  ghost predicate Safe(progs: seq<Code>, n: nat) {
    RaceFree(progs) && forall u | 0 <= u < |progs| :: InRange(progs[u], n)
  }

  lemma TeamSafe(y: Team, n: nat)
    requires Fitting(y, n) && RaceFree(y.bodies) && CellsFree(y.bodies, y.cells)
    ensures y.lanes > 0 && |y.bodies| == |y.cells| * y.lanes && Safe(CodeOf(y), n)
  {
    TeamSizes(y, n);
    TeamRaceFree(y.op, y.bodies, y.lanes, y.cells);
    TeamInRange(y.op, y.bodies, n, y.lanes, y.cells);
    hide RaceFree, InRange, CellsFree, Fitting;
  }

  ghost predicate TeamIsSafe(y: Team, n: nat) {
    y.lanes > 0 && |y.bodies| == |y.cells| * y.lanes && Safe(CodeOf(y), n)
  }

  /** The maximum is kept in cell 127, and the sum in cell 126, apart from the warps' cells. */
  lemma ReduceSafe(t: Task, op: Op, i: nat)
    requires TaskOk(t) && t.k.warps <= i < 128
    ensures TeamIsSafe(ReduceTeam(t.k, op, i), SharedCells(t.k))
  {
    TaskFits(t);
    RedFits(t.k, i);
    LoadTeamOk(t.k, op, RedCell(t.k, i), SharedCells(t.k));
    LoadRaceFree(t.k, op, i);
    hide Safe, TaskOk, KernelOk, SharedCells, TeamOk, CellsFree, RaceFree, LoadBodies;
    TeamSafe(ReduceTeam(t.k, op, i), SharedCells(t.k));
  }

  /**
    Before the output, every access of every interval is within the threadgroup memory, and no cell that one
    thread writes is touched by another before the next barrier. The output reads threadgroup memory only, and
    writes the row only, each element by one thread.
   */
  lemma IntervalsSafe(t: Task)
    requires TaskOk(t)
    ensures KernelOk(t.k) && Threads(t.k) > 0
    ensures Safe(InitCode(t), SharedCells(t.k)) && Safe(ValueCode(t), SharedCells(t.k))
    ensures TeamIsSafe(ScoreTeam(t), SharedCells(t.k)) && TeamIsSafe(ExpTeam(t), SharedCells(t.k))
    ensures TeamIsSafe(ReduceTeam(t.k, Max(t.a.low), 127), SharedCells(t.k)) && TeamIsSafe(ReduceTeam(t.k, Sum, 126), SharedCells(t.k))
    ensures OutputSafe(t.k)
  {
    hide Safe, RaceFree, InRange, TeamOk, CellsFree, TaskOk, KernelOk, InitCode, ValueCode, ScoreBodies, ExpBodies, SharedCells, Threads,
         ReduceTeam, TeamIsSafe, OutputSafe;
    TaskFits(t);
    ThreadsPositive(t.k);
    SharedSafe(t);
    OutputIsSafe(t.k);
    WarpsSafe(t);
    ReduceSafe(t, Max(t.a.low), 127);
    ReduceSafe(t, Sum, 126);
  }

  lemma WarpsSafe(t: Task)
    requires TaskOk(t)
    ensures TeamIsSafe(ScoreTeam(t), SharedCells(t.k)) && TeamIsSafe(ExpTeam(t), SharedCells(t.k))
  {
    hide Safe, RaceFree, InRange, TeamOk, CellsFree, TaskOk, ScoreBodies, ExpBodies, SharedCells;
    ScoreTeamOk(t, SharedCells(t.k));
    ScoreRaceFree(t);
    ScoreCellsFree(t);
    TeamSafe(ScoreTeam(t), SharedCells(t.k));
    ExpTeamOk(t, SharedCells(t.k));
    ExpRaceFree(t);
    TeamSafe(ExpTeam(t), SharedCells(t.k));
  }

  ghost predicate OutputSafe(k: Kernel) {
    && Threads(k) > 0 && RaceFree(OutputCode(k))
    && (forall u, i | 0 <= u < Threads(k) && 0 <= i < |OutputCode(k)[u]| :: ReadsShared(k, OutputCode(k)[u][i]) && WritesRow(k, u, OutputCode(k)[u][i]))
  }

  ghost predicate ReadsShared(k: Kernel, a: Action<real, Regs>) {
    forall w | 0 <= w < |a.srcs| :: a.srcs[w] < SharedCells(k)
  }

  ghost predicate WritesRow(k: Kernel, u: nat, a: Action<real, Regs>)
    requires Threads(k) > 0
  {
    exists d: nat :: d < k.headSize && d % Threads(k) == u && a.dst == Some(RowCell(k, d))
  }

  lemma OutputIsSafe(k: Kernel)
    requires Threads(k) > 0
    ensures OutputSafe(k)
  {
    OutputOwned(k);
    OwnedRaceFree(OutputCode(k), (a: nat) => OutputOwner(k, a));
    hide RaceFree, Owned, OutputBody, Threads, SharedCells;
    forall u, i | 0 <= u < Threads(k) && 0 <= i < |OutputCode(k)[u]|
      ensures ReadsShared(k, OutputCode(k)[u][i]) && WritesRow(k, u, OutputCode(k)[u][i])
    {
      OutputPlaces(k, u, i);
    }
  }

  lemma SharedSafe(t: Task)
    requires TaskOk(t) && Threads(t.k) > 0
    ensures Safe(InitCode(t), SharedCells(t.k)) && Safe(ValueCode(t), SharedCells(t.k))
  {
    InitOwned(t);
    ValueOwned(t);
    OwnedRaceFree(InitCode(t), (a: nat) => InitOwner(t.k, a));
    OwnedRaceFree(ValueCode(t), (a: nat) => AddingThread(t.k, a));
    hide RaceFree, InRange, TaskOk, InitCode, ValueCode, InitBody, ValueBody, SharedCells, Threads, Owned;
    forall u | 0 <= u < Threads(t.k) ensures InRange(InitCode(t)[u], SharedCells(t.k)) && InRange(ValueCode(t)[u], SharedCells(t.k)) {
      InitInRange(t, u, SharedCells(t.k));
      ValueInRange(t, u, SharedCells(t.k));
    }
  }
}
