/** The first warp folds what the warps have left into one reserved cell. */
module ReduceInterval {
  import opened Results
  import opened Schedules
  import opened Strides
  import opened Reductions
  import opened WarpGroups
  import opened WarpTeams
  import opened KernelLayout
  import opened ScoreInterval

  /** Loads a cell into the register that is reduced. */
  ghost function LoadAct(op: Op, cell: nat): (a: Action<real, Regs>)
    ensures a.srcs == [cell] && a.dst == None
  {
    Action([cell], (l: Regs, vs: seq<real>) => if |vs| == 1 then Loaded(op, l, vs[0]) else l, None, (l: Regs) => 0.0)
  }

  ghost function Loaded(op: Op, l: Regs, v: real): Regs {
    if op.Max? then l.(max := v) else l.(sum := v)
  }

  lemma LoadActs(op: Op, cell: nat, l: Regs, mem: seq<real>)
    requires cell < |mem|
    ensures Act(LoadAct(op, cell), l, mem) == (Loaded(op, l, mem[cell]), mem)
  {
    assert ReadAll(mem, [cell]) == [mem[cell]];
  }

  /** Lane `l` loads warp `l`'s cell, if there is such a warp. */
  ghost function LoadBody(k: Kernel, op: Op, l: nat): Code {
    if l < k.warps then [LoadAct(op, RedCell(k, l))] else []
  }

  ghost function LoadBodies(k: Kernel, op: Op): (r: seq<Code>)
    ensures |r| == k.lanes && forall l | 0 <= l < |r| :: r[l] == LoadBody(k, op, l)
  {
    seq(k.lanes, l requires 0 <= l < k.lanes => LoadBody(k, op, l))
  }

  /** The unit of the operation is what a lane without a warp starts from. */
  ghost predicate StartsAtUnit(op: Op, start: Regs) {
    Reduced(op, start) == Unit(op)
  }

  lemma LoadTeamOk(k: Kernel, op: Op, cell: nat, n: nat)
    requires KernelOk(k) && n >= SharedCells(k) && cell < n
    ensures TeamOk(LoadBodies(k, op), n, k.lanes, [cell])
  {
    forall l | 0 <= l < k.lanes ensures InRange(LoadBodies(k, op)[l], n) {
      assert LoadBodies(k, op)[l] == LoadBody(k, op, l);
      if l < k.warps {
        RedFits(k, l);
      }
    }
  }

  ghost function ReduceTeam(k: Kernel, op: Op, i: nat): Team {
    Team(op, LoadBodies(k, op), k.lanes, [RedCell(k, i)])
  }

  lemma LoadRaceFree(k: Kernel, op: Op, i: nat)
    requires k.warps <= i
    ensures RaceFree(LoadBodies(k, op)) && CellsFree(LoadBodies(k, op), [RedCell(k, i)])
  {
    var bodies: seq<Code> := LoadBodies(k, op);
    forall l, j | 0 <= l < |bodies| && 0 <= j < |bodies[l]| ensures bodies[l][j].dst == None && Clear(RedCell(k, i), bodies[l][j]) {
      assert bodies[l] == LoadBody(k, op, l);
    }
  }

  /** What the lanes of the first warp hold: one value per warp, units beyond. */
  lemma LoadedLanes(k: Kernel, op: Op, start: Regs, mem: seq<real>)
    requires KernelOk(k) && |mem| == Cells(k) && StartsAtUnit(op, start)
    requires forall l | 0 <= l < k.lanes :: InRange(LoadBodies(k, op)[l], |mem|)
    ensures Digits(0, k.lanes, 0) + k.lanes <= |LoadBodies(k, op)|
    ensures LaneValues(op, LoadBodies(k, op), start, mem, k.lanes, 0)
         == RedValues(k, mem) + seq(k.lanes - k.warps, _ => Unit(op))
  {
    var v := LaneValues(op, LoadBodies(k, op), start, mem, k.lanes, 0);
    var w := RedValues(k, mem) + seq(k.lanes - k.warps, _ => Unit(op));
    forall l | 0 <= l < k.lanes ensures v[l] == w[l] {
      LaneValue(op, LoadBodies(k, op), start, mem, k.lanes, 0, l);
      assert LoadBodies(k, op)[l] == LoadBody(k, op, l);
      if l < k.warps {
        RedFits(k, l);
        LoadActs(op, RedCell(k, l), start, mem);
        assert LoadBody(k, op, l)[..0] == [];
      }
    }
  }

  /** Whatever the schedule, cell `i` gets the fold over the warps and nothing else changes. */
  lemma ReducesAnySchedule(k: Kernel, op: Op, start: Regs, i: nat, mem: seq<real>, after: seq<real>)
    requires KernelOk(k) && k.warps <= i < 128 && |mem| == Cells(k) && StartsAtUnit(op, start) && AllFit(op, RedValues(k, mem))
    requires TeamReaches(ReduceTeam(k, op, i), start, mem, after)
    ensures |after| == |mem| && RedCell(k, i) < |mem|
    ensures after == mem[RedCell(k, i) := Fold(op, RedValues(k, mem))]
  {
    var bodies, cell := LoadBodies(k, op), RedCell(k, i);
    RedFits(k, i);
    LoadRaceFree(k, op, i);
    TeamResult(ReduceTeam(k, op, i), start, mem, after);
    LoadedLanes(k, op, start, mem);
    FoldPadded(op, RedValues(k, mem), k.lanes - k.warps);
    GroupFolds(op, bodies, start, mem, k.lanes, [cell], 0);
    assert after[[cell][0]] == Fold(op, RedValues(k, mem));
    hide TeamOk, KernelOk, GroupFold, Fold, LaneValues, TeamReaches, CellsFree, RaceFree, AllFit;
    forall a: nat | a < |mem| && a != cell ensures after[a] == mem[a] {
      forall l | 0 <= l < |bodies| ensures !Writes(bodies[l], a) {
        assert bodies[l] == LoadBody(k, op, l);
      }
    }
  }
}
