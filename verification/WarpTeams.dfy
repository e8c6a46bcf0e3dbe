/**
  Threads in groups, interleaved: within a group, a register exchange is one step of all its lanes
  together, and no lane can go on before every lane has reached it.
 */
module WarpTeams {
  import opened Results
  import opened Schedules
  import opened Strides
  import opened Reductions
  import opened WarpGroups

  datatype Team = Team(op: Op, bodies: seq<Code>, lanes: nat, cells: seq<nat>)

  /** One lane takes its next action, or one group makes its next exchange. */
  datatype Turn = Lane(t: nat) | Group(g: nat)

  /** `masks[g]` is the bit that group `g` exchanges next; at zero it is done. */
  datatype Warps = Warps(mem: seq<real>, locals: seq<Regs>, pcs: seq<nat>, masks: seq<nat>)

  ghost predicate Fitting(y: Team, n: nat) {
    TeamOk(y.bodies, n, y.lanes, y.cells)
  }

  ghost function CodeOf(y: Team): (r: seq<Code>)
    requires y.lanes > 0 && |y.bodies| == |y.cells| * y.lanes
    ensures |r| == |y.bodies|
  {
    TeamCode(y.op, y.bodies, y.lanes, y.cells)
  }

  ghost predicate StateOk(y: Team, m: Warps) {
    && Fitting(y, |m.mem|) && |m.locals| == |m.pcs| == |y.bodies| && |m.masks| == |y.cells|
    && forall t | 0 <= t < |y.bodies| :: m.pcs[t] <= |CodeOf(y)[t]|
  }

  /** Thread `l` of group `g`. */
  ghost function ThreadOf(y: Team, g: nat, l: nat): nat { Digits(g, y.lanes, l) }

  lemma ThreadOfFits(y: Team, g: nat, l: nat)
    requires |y.bodies| == |y.cells| * y.lanes && g < |y.cells| && l < y.lanes
    ensures ThreadOf(y, g, l) < |y.bodies|
    ensures GroupOf(ThreadOf(y, g, l), y.lanes) == g && TidOf(ThreadOf(y, g, l), y.lanes) == l
  {
    ThreadAt(g, l, |y.cells|, y.lanes);
  }

  /** Every lane of the group has reached the exchange. */
  ghost predicate Gathered(y: Team, pcs: seq<nat>, g: nat) {
    && |pcs| == |y.bodies| == |y.cells| * y.lanes && g < |y.cells|
    && forall l | 0 <= l < y.lanes :: Arrived(y, pcs, g, l)
  }

  ghost predicate Arrived(y: Team, pcs: seq<nat>, g: nat, l: nat)
    requires |pcs| == |y.bodies| == |y.cells| * y.lanes && g < |y.cells| && l < y.lanes
  {
    ThreadOfFits(y, g, l);
    pcs[ThreadOf(y, g, l)] >= |y.bodies[ThreadOf(y, g, l)]|
  }

  /** The registers that a group exchanges, lane by lane. */
  ghost function Registers(y: Team, locals: seq<Regs>, g: nat): (r: seq<real>)
    requires |locals| == |y.bodies| == |y.cells| * y.lanes && g < |y.cells|
    ensures |r| == y.lanes
  {
    seq(y.lanes, l requires 0 <= l < y.lanes => (ThreadOfFits(y, g, l); Reduced(y.op, locals[ThreadOf(y, g, l)])))
  }

  /** Every lane of the group gets its new value at once. */
  ghost function Exchanging(y: Team, locals: seq<Regs>, g: nat, v: seq<real>): (r: seq<Regs>)
    requires |locals| == |y.bodies| == |y.cells| * y.lanes && g < |y.cells| && |v| == y.lanes > 0
    ensures |r| == |locals|
  {
    seq(|locals|, t requires 0 <= t < |locals| =>
          if GroupOf(t, y.lanes) == g then WithReduced(y.op, locals[t], v[TidOf(t, y.lanes)]) else locals[t])
  }

  /** A thread may act while in its body, and beyond it once its group has finished exchanging. */
  ghost predicate CanAct(y: Team, m: Warps, t: nat)
    requires StateOk(y, m)
  {
    t < |y.bodies| && m.pcs[t] < |CodeOf(y)[t]|
    && (m.pcs[t] >= |y.bodies[t]| ==> (GroupBelow(t, |y.cells|, y.lanes); m.masks[GroupOf(t, y.lanes)] == 0))
  }

  ghost predicate CanExchange(y: Team, m: Warps, g: nat)
    requires StateOk(y, m)
  {
    g < |y.cells| && m.masks[g] > 0 && Gathered(y, m.pcs, g)
  }

  ghost function AfterAct(y: Team, m: Warps, t: nat): (r: Warps)
    requires StateOk(y, m) && CanAct(y, m, t)
    ensures |r.mem| == |m.mem| && StateOk(y, r)
  {
    TeamInRange(y.op, y.bodies, |m.mem|, y.lanes, y.cells);
    var r := Act(CodeOf(y)[t][m.pcs[t]], m.locals[t], m.mem);
    Warps(r.1, m.locals[t := r.0], m.pcs[t := m.pcs[t] + 1], m.masks)
  }

  ghost function AfterExchange(y: Team, m: Warps, g: nat): (r: Warps)
    requires StateOk(y, m) && CanExchange(y, m, g)
    ensures |r.mem| == |m.mem| && StateOk(y, r)
  {
    m.(locals := Exchanging(y, m.locals, g, Exchange(y.op, Registers(y, m.locals, g), m.masks[g])),
       masks := m.masks[g := m.masks[g] / 2])
  }

  /** A turn that cannot be taken is skipped. */
  ghost function Taken(y: Team, m: Warps, e: Turn): (r: Warps)
    requires StateOk(y, m)
    ensures |r.mem| == |m.mem| && StateOk(y, r)
  {
    match e
    case Lane(t) => if CanAct(y, m, t) then AfterAct(y, m, t) else m
    case Group(g) => if CanExchange(y, m, g) then AfterExchange(y, m, g) else m
  }

  ghost function AllTaken(y: Team, m: Warps, sched: seq<Turn>): (r: Warps)
    requires StateOk(y, m)
    ensures |r.mem| == |m.mem| && StateOk(y, r)
  {
    if sched == [] then m else Taken(y, AllTaken(y, m, sched[..|sched| - 1]), sched[|sched| - 1])
  }

  ghost function Opening(y: Team, start: Regs, mem: seq<real>): (m: Warps)
    requires Fitting(y, |mem|)
    ensures StateOk(y, m)
  {
    Warps(mem, Starts(start, |y.bodies|), seq(|y.bodies|, _ => 0), seq(|y.cells|, _ => y.lanes / 2))
  }

  /** Every thread has reached the barrier. */
  ghost predicate AllDone(y: Team, m: Warps)
    requires StateOk(y, m)
  {
    forall t | 0 <= t < |y.bodies| :: m.pcs[t] == |CodeOf(y)[t]|
  }

  ghost predicate TeamEnds(y: Team, start: Regs, mem: seq<real>, sched: seq<Turn>, after: seq<real>)
    requires Fitting(y, |mem|)
  {
    var m := AllTaken(y, Opening(y, start, mem), sched);
    AllDone(y, m) && m.mem == after
  }

  /** `after` is what some complete schedule of the team leaves. */
  ghost predicate TeamReaches(y: Team, start: Regs, mem: seq<real>, after: seq<real>) {
    Fitting(y, |mem|) && exists sched :: TeamEnds(y, start, mem, sched, after)
  }

  // ---------------------------------------------------------------- what every schedule keeps

  ghost function Least(a: nat, b: nat): nat { if a < b then a else b }

  /** How far a thread is in its body. */
  ghost function InBody(y: Team, m: Warps, t: nat): (k: nat)
    requires StateOk(y, m) && t < |y.bodies|
    ensures k <= |y.bodies[t]|
  {
    Least(m.pcs[t], |y.bodies[t]|)
  }

  ghost predicate BodyIn(y: Team, n: nat, t: nat, k: nat) {
    t < |y.bodies| && k <= |y.bodies[t]| && InRange(y.bodies[t][..k], n)
  }

  lemma BodyFits(y: Team, n: nat, t: nat, k: nat)
    requires Fitting(y, n) && t < |y.bodies| && k <= |y.bodies[t]|
    ensures BodyIn(y, n, t, k) && InRange(y.bodies[t], n)
  {
    PrefixInRange(y.bodies[t], n, k);
  }

  /** The registers of a thread that has run `k` actions of its body by itself. */
  ghost function OwnRegs(y: Team, start: Regs, mem0: seq<real>, t: nat, k: nat): Regs
    requires Fitting(y, |mem0|) && t < |y.bodies| && k <= |y.bodies[t]|
  {
    BodyFits(y, |mem0|, t, k);
    Alone(y.bodies[t][..k], start, mem0).0
  }

  /** Every thread sees its own cells as if it ran alone. */
  ghost predicate SeesOwn(y: Team, start: Regs, mem0: seq<real>, t: nat, k: nat, mem: seq<real>)
    requires Fitting(y, |mem0|) && t < |y.bodies| && k <= |y.bodies[t]|
  {
    SeesItself(y.bodies[t], k, start, mem0, OwnRegs(y, start, mem0, t, k), mem)
  }

  /** What a group's registers are before, during and after its exchanges. */
  ghost predicate GroupKeeps(y: Team, start: Regs, mem0: seq<real>, m: Warps, g: nat)
    requires StateOk(y, m) && |m.mem| == |mem0| && g < |y.cells|
  {
    && (!Gathered(y, m.pcs, g) ==> m.masks[g] == y.lanes / 2 && forall l | 0 <= l < y.lanes :: LaneKeeps(y, start, mem0, m, g, l))
    && (Gathered(y, m.pcs, g) ==> Shuffled(y.op, Registers(y, m.locals, g), m.masks[g]) == GroupValues(y, start, mem0, g))
    && (LeadDone(y, m, g) ==> Gathered(y, m.pcs, g) && m.masks[g] == 0 && m.mem[y.cells[g]] == GroupValues(y, start, mem0, g)[0])
  }

  /** Before the exchange a lane's registers are its own. */
  ghost predicate LaneKeeps(y: Team, start: Regs, mem0: seq<real>, m: Warps, g: nat, l: nat)
    requires StateOk(y, m) && |m.mem| == |mem0| && g < |y.cells| && l < y.lanes
  {
    ThreadOfFits(y, g, l);
    m.locals[ThreadOf(y, g, l)] == OwnRegs(y, start, mem0, ThreadOf(y, g, l), InBody(y, m, ThreadOf(y, g, l)))
  }

  ghost function GroupValues(y: Team, start: Regs, mem0: seq<real>, g: nat): (r: seq<real>)
    requires Fitting(y, |mem0|) && g < |y.cells|
    ensures |r| == y.lanes
  {
    GroupFits(y.bodies, |mem0|, y.lanes, y.cells, g);
    Shuffled(y.op, LaneValues(y.op, y.bodies, start, mem0, y.lanes, g), y.lanes / 2)
  }

  ghost predicate LeadDone(y: Team, m: Warps, g: nat)
    requires StateOk(y, m) && g < |y.cells|
  {
    ThreadOfFits(y, g, 0);
    m.pcs[ThreadOf(y, g, 0)] > |y.bodies[ThreadOf(y, g, 0)]|
  }

  ghost predicate Untaken(y: Team, a: nat) {
    (forall t | 0 <= t < |y.bodies| :: !Writes(y.bodies[t], a)) && a !in y.cells
  }

  ghost predicate TeamKeeps(y: Team, start: Regs, mem0: seq<real>, m: Warps) {
    && StateOk(y, m) && |m.mem| == |mem0|
    && (forall t | 0 <= t < |y.bodies| :: SeesOwn(y, start, mem0, t, InBody(y, m, t), m.mem))
    && (forall g | 0 <= g < |y.cells| :: GroupKeeps(y, start, mem0, m, g))
    && (forall a: nat | a < |mem0| && Untaken(y, a) :: m.mem[a] == mem0[a])
  }

  lemma OpeningKeeps(y: Team, start: Regs, mem: seq<real>)
    requires Fitting(y, |mem|)
    ensures TeamKeeps(y, start, mem, Opening(y, start, mem))
  {
    var m := Opening(y, start, mem);
    hide Fitting, StateOk, SeesOwn, GroupKeeps, Untaken, Shuffled, OwnRegs;
    forall t | 0 <= t < |y.bodies| ensures SeesOwn(y, start, mem, t, InBody(y, m, t), m.mem) {
      OpeningSees(y, start, mem, t);
    }
    forall g | 0 <= g < |y.cells| ensures GroupKeeps(y, start, mem, m, g) {
      OpeningGroup(y, start, mem, g);
    }
  }

  lemma OpeningSees(y: Team, start: Regs, mem: seq<real>, t: nat)
    requires Fitting(y, |mem|) && t < |y.bodies|
    ensures SeesOwn(y, start, mem, t, 0, mem) && OwnRegs(y, start, mem, t, 0) == start
  {
    AloneNothing(y.bodies[t], start, mem);
    assert y.bodies[t][..0] == [];
  }

  lemma OpeningGroup(y: Team, start: Regs, mem: seq<real>, g: nat)
    requires Fitting(y, |mem|) && g < |y.cells|
    ensures GroupKeeps(y, start, mem, Opening(y, start, mem), g)
  {
    hide *;
    var m := Opening(y, start, mem);
    OpeningIs(y, start, mem, g);
    forall l | 0 <= l < y.lanes ensures LaneKeeps(y, start, mem, m, g, l) {
      OpeningLane(y, start, mem, g, l);
    }
    if Gathered(y, m.pcs, g) {
      AllArrived(y, start, mem, m, g);
    }
    UnledGroup(y, start, mem, m, g);
  }

  lemma OpeningIs(y: Team, start: Regs, mem: seq<real>, g: nat)
    requires Fitting(y, |mem|) && g < |y.cells|
    ensures var m := Opening(y, start, mem);
            m.mem == mem && |m.masks| == |y.cells| && m.masks[g] == y.lanes / 2 && !LeadDone(y, m, g)
  {
    ThreadOfFits(y, g, 0);
    hide Fitting;
  }

  lemma OpeningLane(y: Team, start: Regs, mem: seq<real>, g: nat, l: nat)
    requires Fitting(y, |mem|) && g < |y.cells| && l < y.lanes
    ensures LaneKeeps(y, start, mem, Opening(y, start, mem), g, l)
  {
    ThreadOfFits(y, g, l);
    OpeningSees(y, start, mem, ThreadOf(y, g, l));
    hide Fitting, SeesOwn, OwnRegs, ThreadOf;
  }

  /** Before its exchanges a group keeps what its lanes keep. */
  lemma UnledGroup(y: Team, start: Regs, mem0: seq<real>, m: Warps, g: nat)
    requires StateOk(y, m) && |m.mem| == |mem0| && g < |y.cells| && |m.masks| == |y.cells| && m.masks[g] == y.lanes / 2
    requires !LeadDone(y, m, g) && forall l | 0 <= l < y.lanes :: LaneKeeps(y, start, mem0, m, g, l)
    requires Gathered(y, m.pcs, g) ==>
               Digits(g, y.lanes, 0) + y.lanes <= |y.bodies|
               && Registers(y, m.locals, g) == LaneValues(y.op, y.bodies, start, mem0, y.lanes, g)
    ensures GroupKeeps(y, start, mem0, m, g)
  {
    hide StateOk, LeadDone, LaneKeeps, Gathered, Registers, LaneValues, Shuffled, Digits, Fitting;
  }

  /** When the last lane arrives, the registers are those of the bodies run alone. */
  lemma AllArrived(y: Team, start: Regs, mem0: seq<real>, m: Warps, g: nat)
    requires StateOk(y, m) && |m.mem| == |mem0| && Gathered(y, m.pcs, g)
    requires forall l | 0 <= l < y.lanes :: LaneKeeps(y, start, mem0, m, g, l)
    ensures Digits(g, y.lanes, 0) + y.lanes <= |y.bodies|
    ensures Registers(y, m.locals, g) == LaneValues(y.op, y.bodies, start, mem0, y.lanes, g)
  {
    GroupFits(y.bodies, |m.mem|, y.lanes, y.cells, g);
    var r, v := Registers(y, m.locals, g), LaneValues(y.op, y.bodies, start, mem0, y.lanes, g);
    hide InRange, Alone, Reduced;
    forall l | 0 <= l < y.lanes ensures r[l] == v[l] {
      var u := ThreadOf(y, g, l);
      ThreadOfFits(y, g, l);
      assert Arrived(y, m.pcs, g, l) && LaneKeeps(y, start, mem0, m, g, l);
      assert y.bodies[u][..|y.bodies[u]|] == y.bodies[u] && InBody(y, m, u) == |y.bodies[u]|;
      assert Digits(g, y.lanes, 0) + l == u;
    }
  }

  // ---------------------------------------------------------------- one turn

  /** A lane in its body still has its own registers, because its group has not met. */
  lemma BodyRegs(y: Team, start: Regs, mem0: seq<real>, m: Warps, t: nat)
    requires TeamKeeps(y, start, mem0, m) && t < |y.bodies| && m.pcs[t] < |y.bodies[t]|
    ensures var g := GroupOf(t, y.lanes); g < |y.cells| && !Gathered(y, m.pcs, g)
    ensures m.locals[t] == OwnRegs(y, start, mem0, t, m.pcs[t]) && InBody(y, m, t) == m.pcs[t]
  {
    var g, l := GroupOf(t, y.lanes), TidOf(t, y.lanes);
    GroupBelow(t, |y.cells|, y.lanes);
    ThreadDigits(t, y.lanes);
    ThreadOfFits(y, g, l);
    assert ThreadOf(y, g, l) == t && !Arrived(y, m.pcs, g, l);
    assert GroupKeeps(y, start, mem0, m, g) && LaneKeeps(y, start, mem0, m, g, l);
  }

  /** What an action of a body does to its own thread. */
  lemma BodyAct(y: Team, start: Regs, mem0: seq<real>, m: Warps, t: nat)
    requires TeamKeeps(y, start, mem0, m) && t < |y.bodies| && m.pcs[t] < |y.bodies[t]|
    ensures CanAct(y, m, t) && Fits(y.bodies[t][m.pcs[t]], |m.mem|)
    ensures var k, r := m.pcs[t], Act(y.bodies[t][m.pcs[t]], m.locals[t], m.mem);
            && AfterAct(y, m, t) == Warps(r.1, m.locals[t := r.0], m.pcs[t := k + 1], m.masks)
            && r.0 == OwnRegs(y, start, mem0, t, k + 1) && SeesOwn(y, start, mem0, t, k + 1, r.1)
  {
    var k := m.pcs[t];
    BodyRegs(y, start, mem0, m, t);
    BodyFits(y, |mem0|, t, k);
    BodyFits(y, |mem0|, t, k + 1);
    assert CodeOf(y)[t][k] == y.bodies[t][k];
    assert SeesOwn(y, start, mem0, t, InBody(y, m, t), m.mem);
    hide Act, Alone, InRange, Fits, GroupKeeps, TeamCode;
    SeesOwnAction(y.bodies[t], k, start, mem0, m.locals[t], m.mem);
  }

  /** And to the others: nothing they can see. */
  lemma OthersSee(y: Team, start: Regs, mem0: seq<real>, u: nat, k: nat, mem: seq<real>, a: nat, v: real)
    requires Fitting(y, |mem0|) && u < |y.bodies| && k <= |y.bodies[u]| && SeesOwn(y, start, mem0, u, k, mem)
    requires a < |mem| && !Touches(y.bodies[u], a)
    ensures SeesOwn(y, start, mem0, u, k, mem[a := v])
  {
    hide SeesItself;
    SeesOtherAction(y.bodies[u], k, start, mem0, OwnRegs(y, start, mem0, u, k), mem, a, v);
  }

  lemma NoTouch(y: Team, t: nat, i: nat, u: nat)
    requires RaceFree(y.bodies) && t < |y.bodies| && i < |y.bodies[t]| && y.bodies[t][i].dst.Some? && u < |y.bodies| && u != t
    ensures !Touches(y.bodies[u], y.bodies[t][i].dst.value)
  {
  }

  lemma TakesOwnCell(y: Team, t: nat, i: nat)
    requires t < |y.bodies| && i < |y.bodies[t]| && y.bodies[t][i].dst.Some?
    ensures Writes(y.bodies[t], y.bodies[t][i].dst.value) && Touches(y.bodies[t], y.bodies[t][i].dst.value)
  {
    assert !Clear(y.bodies[t][i].dst.value, y.bodies[t][i]);
  }

  /** A group none of whose lanes moved keeps what it kept, unless its lead's cell changed. */
  lemma OtherGroup(y: Team, start: Regs, mem0: seq<real>, m: Warps, n: Warps, g: nat)
    requires StateOk(y, m) && StateOk(y, n) && |m.mem| == |n.mem| == |mem0| && g < |y.cells|
    requires forall l | 0 <= l < y.lanes :: SameLane(y, m, n, ThreadOf(y, g, l))
    requires n.masks[g] == m.masks[g] && n.mem[y.cells[g]] == m.mem[y.cells[g]] && GroupKeeps(y, start, mem0, m, g)
    ensures GroupKeeps(y, start, mem0, n, g)
  {
    hide Fitting, Shuffled, CodeOf;
    TeamSizes(y, |mem0|);
    forall l | 0 <= l < y.lanes
      ensures Arrived(y, m.pcs, g, l) == Arrived(y, n.pcs, g, l) && LaneKeeps(y, start, mem0, m, g, l) == LaneKeeps(y, start, mem0, n, g, l)
      ensures Registers(y, m.locals, g)[l] == Registers(y, n.locals, g)[l]
    {
      ThreadOfFits(y, g, l);
      assert SameLane(y, m, n, ThreadOf(y, g, l));
    }
    assert Registers(y, m.locals, g) == Registers(y, n.locals, g);
    assert LeadDone(y, m, g) == LeadDone(y, n, g) by {
      ThreadOfFits(y, g, 0);
      assert SameLane(y, m, n, ThreadOf(y, g, 0));
    }
  }

  lemma TeamSizes(y: Team, n: nat)
    requires Fitting(y, n)
    ensures y.lanes > 0 && |y.bodies| == |y.cells| * y.lanes && forall g | 0 <= g < |y.cells| :: y.cells[g] < n
  {
  }

  ghost predicate SameLane(y: Team, m: Warps, n: Warps, t: nat) {
    t < |m.pcs| && t < |n.pcs| && t < |m.locals| && t < |n.locals| && m.pcs[t] == n.pcs[t] && m.locals[t] == n.locals[t]
  }

  /** Lanes of other groups are other threads. */
  lemma OtherThreads(y: Team, t: nat, g: nat, l: nat)
    requires y.lanes > 0 && |y.bodies| == |y.cells| * y.lanes && g < |y.cells| && l < y.lanes && GroupOf(t, y.lanes) != g
    ensures ThreadOf(y, g, l) != t && ThreadOf(y, g, l) < |y.bodies|
  {
    ThreadOfFits(y, g, l);
  }

  /** An action within a body keeps everything. */
  lemma BodyKeeps(y: Team, start: Regs, mem0: seq<real>, m: Warps, t: nat)
    requires TeamKeeps(y, start, mem0, m) && RaceFree(y.bodies) && CellsFree(y.bodies, y.cells)
    requires t < |y.bodies| && m.pcs[t] < |y.bodies[t]|
    ensures CanAct(y, m, t) && TeamKeeps(y, start, mem0, AfterAct(y, m, t))
  {
    hide Fitting, SeesOwn, GroupKeeps, CodeOf, RaceFree, CellsFree, Act, OwnRegs, Alone, Touches, Writes, AfterAct, Fits;
    TeamSizes(y, |mem0|);
    BodyAct(y, start, mem0, m, t);
    var n, i := AfterAct(y, m, t), m.pcs[t];
    ActMem(y.bodies[t][i], m.locals[t], m.mem);
    forall u | 0 <= u < |y.bodies| ensures SeesOwn(y, start, mem0, u, InBody(y, n, u), n.mem) {
      if u == t {
        assert InBody(y, n, t) == i + 1;
      } else {
        assert InBody(y, n, u) == InBody(y, m, u) && SeesOwn(y, start, mem0, u, InBody(y, m, u), m.mem);
        if y.bodies[t][i].dst.Some? {
          NoTouch(y, t, i, u);
          OthersSee(y, start, mem0, u, InBody(y, m, u), m.mem, y.bodies[t][i].dst.value, n.mem[y.bodies[t][i].dst.value]);
        }
      }
    }
    forall g | 0 <= g < |y.cells| ensures GroupKeeps(y, start, mem0, n, g) {
      CellKept(y, t, i, g);
      if g == GroupOf(t, y.lanes) {
        OwnGroup(y, start, mem0, m, n, t);
      } else {
        forall l | 0 <= l < y.lanes ensures SameLane(y, m, n, ThreadOf(y, g, l)) {
          OtherThreads(y, t, g, l);
        }
        OtherGroup(y, start, mem0, m, n, g);
      }
    }
    forall a: nat | a < |mem0| && Untaken(y, a) ensures n.mem[a] == mem0[a] {
      if y.bodies[t][i].dst.Some? {
        TakesOwnCell(y, t, i);
      }
    }
  }

  /** An action changes at most the cell it writes. */
  lemma ActMem(a: Action<real, Regs>, l: Regs, mem: seq<real>)
    requires Fits(a, |mem|)
    ensures var r := Act(a, l, mem);
            && |r.1| == |mem|
            && (a.dst.None? ==> r.1 == mem)
            && (a.dst.Some? ==> a.dst.value < |mem| && r.1 == mem[a.dst.value := r.1[a.dst.value]])
  {
  }

  lemma CellKept(y: Team, t: nat, i: nat, g: nat)
    requires CellsFree(y.bodies, y.cells) && t < |y.bodies| && i < |y.bodies[t]| && g < |y.cells|
    ensures y.bodies[t][i].dst != Some(y.cells[g])
  {
    assert !Touches(y.bodies[t], y.cells[g]);
    assert Clear(y.cells[g], y.bodies[t][i]);
  }

  /** The group of the thread that acted. */
  lemma OwnGroup(y: Team, start: Regs, mem0: seq<real>, m: Warps, n: Warps, t: nat)
    requires TeamKeeps(y, start, mem0, m) && StateOk(y, n) && |n.mem| == |mem0| && t < |y.bodies| && m.pcs[t] < |y.bodies[t]|
    requires n.pcs == m.pcs[t := m.pcs[t] + 1] && n.masks == m.masks
    requires n.locals == m.locals[t := OwnRegs(y, start, mem0, t, m.pcs[t] + 1)]
    ensures GroupOf(t, y.lanes) < |y.cells| && GroupKeeps(y, start, mem0, n, GroupOf(t, y.lanes))
  {
    var g := GroupOf(t, y.lanes);
    BodyRegs(y, start, mem0, m, t);
    TeamSizes(y, |mem0|);
    assert GroupKeeps(y, start, mem0, m, g);
    hide Fitting, SeesOwn, CodeOf, OwnRegs, Shuffled, GroupValues, TeamKeeps;
    forall l | 0 <= l < y.lanes ensures LaneKeeps(y, start, mem0, n, g, l) {
      ThreadOfFits(y, g, l);
      assert LaneKeeps(y, start, mem0, m, g, l);
    }
    NotLead(y, m, n, t);
    if Gathered(y, n.pcs, g) {
      AllArrived(y, start, mem0, n, g);
      GroupValuesAre(y, start, mem0, g);
    }
  }

  lemma GroupValuesAre(y: Team, start: Regs, mem0: seq<real>, g: nat)
    requires Fitting(y, |mem0|) && g < |y.cells|
    ensures Digits(g, y.lanes, 0) + y.lanes <= |y.bodies|
    ensures GroupValues(y, start, mem0, g) == Shuffled(y.op, LaneValues(y.op, y.bodies, start, mem0, y.lanes, g), y.lanes / 2)
  {
    GroupFits(y.bodies, |mem0|, y.lanes, y.cells, g);
  }

  /** A lead that is in its body, or has just left it, has not written. */
  lemma NotLead(y: Team, m: Warps, n: Warps, t: nat)
    requires StateOk(y, m) && StateOk(y, n) && t < |y.bodies| && m.pcs[t] < |y.bodies[t]| && n.pcs == m.pcs[t := m.pcs[t] + 1]
    requires GroupOf(t, y.lanes) < |y.cells| && !LeadDone(y, m, GroupOf(t, y.lanes))
    ensures !LeadDone(y, n, GroupOf(t, y.lanes))
  {
    hide Fitting, CodeOf;
  }

  /** Only leads have an action beyond their body, and only when their group has finished exchanging. */
  lemma LeadIs(y: Team, start: Regs, mem0: seq<real>, m: Warps, t: nat)
    requires TeamKeeps(y, start, mem0, m) && CanAct(y, m, t) && m.pcs[t] >= |y.bodies[t]|
    ensures var g := GroupOf(t, y.lanes);
            && g < |y.cells| && TidOf(t, y.lanes) == 0 && t == ThreadOf(y, g, 0) && m.pcs[t] == |y.bodies[t]|
            && CodeOf(y)[t][m.pcs[t]] == LeadAct(y.op, y.cells[g]) && y.cells[g] < |m.mem|
            && m.masks[g] == 0 && Gathered(y, m.pcs, g)
  {
    var g := GroupOf(t, y.lanes);
    GroupBelow(t, |y.cells|, y.lanes);
    assert CodeOf(y)[t] == y.bodies[t] + LeadWrite(y.op, y.lanes, y.cells, t);
    LeadOf(y.op, y.lanes, y.cells, t);
    ThreadDigits(t, y.lanes);
    assert GroupKeeps(y, start, mem0, m, g);
    if !Gathered(y, m.pcs, g) {
      OnlyLane(y, m, t);
    }
  }

  /** With one lane there is nothing to wait for. */
  lemma OnlyLane(y: Team, m: Warps, t: nat)
    requires StateOk(y, m) && t < |y.bodies| && m.pcs[t] >= |y.bodies[t]| && GroupOf(t, y.lanes) < |y.cells| && y.lanes / 2 == 0
    ensures Gathered(y, m.pcs, GroupOf(t, y.lanes))
  {
    ThreadDigits(t, y.lanes);
  }

  /** The lead's write keeps everything: its register is what the exchange left. */
  lemma LeadKeeps(y: Team, start: Regs, mem0: seq<real>, m: Warps, t: nat)
    requires TeamKeeps(y, start, mem0, m) && CellsFree(y.bodies, y.cells) && CanAct(y, m, t) && m.pcs[t] >= |y.bodies[t]|
    ensures TeamKeeps(y, start, mem0, AfterAct(y, m, t))
  {
    LeadIs(y, start, mem0, m, t);
    var n, g := AfterAct(y, m, t), GroupOf(t, y.lanes);
    LeadActs(y.op, y.cells[g], m.locals[t], m.mem);
    assert n == Warps(m.mem[y.cells[g] := Reduced(y.op, m.locals[t])], m.locals, m.pcs[t := m.pcs[t] + 1], m.masks);
    TeamSizes(y, |mem0|);
    hide Fitting, SeesOwn, GroupKeeps, CodeOf, CellsFree, Act, Touches, Writes, AfterAct, LeadAct, CanAct;
    forall u | 0 <= u < |y.bodies| ensures SeesOwn(y, start, mem0, u, InBody(y, n, u), n.mem) {
      assert InBody(y, n, u) == InBody(y, m, u) && SeesOwn(y, start, mem0, u, InBody(y, m, u), m.mem);
      CellUntouched(y, u, g);
      OthersSee(y, start, mem0, u, InBody(y, m, u), m.mem, y.cells[g], n.mem[y.cells[g]]);
    }
    forall h | 0 <= h < |y.cells| ensures GroupKeeps(y, start, mem0, n, h) {
      if h == g {
        LeadGroup(y, start, mem0, m, n, g);
      } else {
        forall l | 0 <= l < y.lanes ensures SameLane(y, m, n, ThreadOf(y, h, l)) {
          OtherThreads(y, t, h, l);
        }
        DistinctCells(y, g, h);
        OtherGroup(y, start, mem0, m, n, h);
      }
    }
    assert y.cells[g] in y.cells;
  }

  lemma CellUntouched(y: Team, u: nat, g: nat)
    requires CellsFree(y.bodies, y.cells) && u < |y.bodies| && g < |y.cells|
    ensures !Touches(y.bodies[u], y.cells[g])
  {
  }

  lemma DistinctCells(y: Team, g: nat, h: nat)
    requires CellsFree(y.bodies, y.cells) && g < |y.cells| && h < |y.cells| && g != h
    ensures y.cells[g] != y.cells[h]
  {
    if h < g {
      assert y.cells[h] != y.cells[g];
    }
  }

  lemma LeadGroup(y: Team, start: Regs, mem0: seq<real>, m: Warps, n: Warps, g: nat)
    requires StateOk(y, m) && StateOk(y, n) && |m.mem| == |n.mem| == |mem0| && g < |y.cells| && GroupKeeps(y, start, mem0, m, g)
    requires m.masks[g] == 0 && Gathered(y, m.pcs, g) && ThreadOf(y, g, 0) < |y.bodies| && y.lanes > 0
    requires var t := ThreadOf(y, g, 0);
             && n.locals == m.locals && n.masks == m.masks && n.pcs == m.pcs[t := m.pcs[t] + 1]
             && n.mem == m.mem[y.cells[g] := Reduced(y.op, m.locals[t])]
    ensures GroupKeeps(y, start, mem0, n, g)
  {
    var t := ThreadOf(y, g, 0);
    hide Fitting, CodeOf, LaneKeeps, GroupValues;
    forall l | 0 <= l < y.lanes ensures Arrived(y, n.pcs, g, l) {
      ThreadOfFits(y, g, l);
      assert Arrived(y, m.pcs, g, l);
    }
    assert Registers(y, n.locals, g) == Registers(y, m.locals, g) == GroupValues(y, start, mem0, g);
    assert Registers(y, m.locals, g)[0] == Reduced(y.op, m.locals[t]);
  }

  /** An exchange keeps everything: what is still to be exchanged gives the same values. */
  lemma ExchangeKeeps(y: Team, start: Regs, mem0: seq<real>, m: Warps, g: nat)
    requires TeamKeeps(y, start, mem0, m) && CanExchange(y, m, g)
    ensures TeamKeeps(y, start, mem0, AfterExchange(y, m, g))
  {
    var n := AfterExchange(y, m, g);
    TeamSizes(y, |mem0|);
    hide Fitting, SeesOwn, GroupKeeps, CodeOf;
    forall u | 0 <= u < |y.bodies| ensures SeesOwn(y, start, mem0, u, InBody(y, n, u), n.mem) {
      assert InBody(y, n, u) == InBody(y, m, u) && SeesOwn(y, start, mem0, u, InBody(y, m, u), m.mem);
    }
    forall h | 0 <= h < |y.cells| ensures GroupKeeps(y, start, mem0, n, h) {
      if h == g {
        ExchangeGroup(y, start, mem0, m, g);
      } else {
        forall l | 0 <= l < y.lanes ensures SameLane(y, m, n, ThreadOf(y, h, l)) {
          ThreadOfFits(y, h, l);
        }
        OtherGroup(y, start, mem0, m, n, h);
      }
    }
  }

  lemma ExchangeGroup(y: Team, start: Regs, mem0: seq<real>, m: Warps, g: nat)
    requires StateOk(y, m) && |m.mem| == |mem0| && CanExchange(y, m, g) && GroupKeeps(y, start, mem0, m, g)
    ensures GroupKeeps(y, start, mem0, AfterExchange(y, m, g), g)
  {
    var n, mask := AfterExchange(y, m, g), m.masks[g];
    TeamSizes(y, |mem0|);
    hide Fitting, CodeOf, LaneKeeps, GroupValues, Exchange, WithReduced, Reduced;
    var v := Exchange(y.op, Registers(y, m.locals, g), mask);
    forall l | 0 <= l < y.lanes ensures Arrived(y, n.pcs, g, l) && Registers(y, n.locals, g)[l] == v[l] {
      ThreadOfFits(y, g, l);
      assert Arrived(y, m.pcs, g, l);
    }
    assert Registers(y, n.locals, g) == v;
    assert LeadDone(y, n, g) == LeadDone(y, m, g);
  }

  // ---------------------------------------------------------------- every schedule

  lemma TakenKeeps(y: Team, start: Regs, mem0: seq<real>, m: Warps, e: Turn)
    requires TeamKeeps(y, start, mem0, m) && RaceFree(y.bodies) && CellsFree(y.bodies, y.cells)
    ensures TeamKeeps(y, start, mem0, Taken(y, m, e))
  {
    hide TeamKeeps, RaceFree, CellsFree, AfterAct, AfterExchange;
    KeepsState(y, start, mem0, m);
    match e
    case Lane(t) =>
      if CanAct(y, m, t) {
        if m.pcs[t] < |y.bodies[t]| {
          BodyKeeps(y, start, mem0, m, t);
        } else {
          LeadKeeps(y, start, mem0, m, t);
        }
      }
    case Group(g) =>
      if CanExchange(y, m, g) {
        ExchangeKeeps(y, start, mem0, m, g);
      }
  }

  lemma KeepsState(y: Team, start: Regs, mem0: seq<real>, m: Warps)
    requires TeamKeeps(y, start, mem0, m)
    ensures StateOk(y, m) && |m.mem| == |mem0| && Fitting(y, |mem0|)
  {
  }

  lemma {:induction false} AllTakenKeeps(y: Team, start: Regs, mem: seq<real>, sched: seq<Turn>)
    requires Fitting(y, |mem|) && RaceFree(y.bodies) && CellsFree(y.bodies, y.cells)
    ensures TeamKeeps(y, start, mem, AllTaken(y, Opening(y, start, mem), sched))
    decreases |sched|
  {
    hide TeamKeeps, RaceFree, CellsFree, Taken, Fitting, Opening;
    if sched == [] {
      OpeningKeeps(y, start, mem);
    } else {
      AllTakenKeeps(y, start, mem, sched[..|sched| - 1]);
      TakenKeeps(y, start, mem, AllTaken(y, Opening(y, start, mem), sched[..|sched| - 1]), sched[|sched| - 1]);
    }
  }

  /**
    Whatever the interleaving, a cell that a body writes ends as that thread alone would leave it, each
    lead's cell holds what the exchange makes of its lanes' registers, and every other cell is as it was.
   */
  lemma TeamResult(y: Team, start: Regs, mem: seq<real>, after: seq<real>)
    requires TeamReaches(y, start, mem, after) && RaceFree(y.bodies) && CellsFree(y.bodies, y.cells)
    ensures TeamOk(y.bodies, |mem|, y.lanes, y.cells) && |after| == |mem|
    ensures forall t, a: nat | 0 <= t < |y.bodies| && a < |mem| && Writes(y.bodies[t], a) :: after[a] == Alone(y.bodies[t], start, mem).1[a]
    ensures forall g | 0 <= g < |y.cells| :: after[y.cells[g]] == GroupFold(y.op, y.bodies, start, mem, y.lanes, y.cells, g)
    ensures forall a: nat | a < |mem| && (forall t | 0 <= t < |y.bodies| :: !Writes(y.bodies[t], a)) && a !in y.cells :: after[a] == mem[a]
  {
    var sched :| TeamEnds(y, start, mem, sched, after);
    var m := AllTaken(y, Opening(y, start, mem), sched);
    AllTakenKeeps(y, start, mem, sched);
    TeamSizes(y, |mem|);
    hide SeesOwn, GroupKeeps, Writes, Touches, RaceFree, CellsFree, Fitting, GroupFold, AllTaken, Opening, Alone;
    forall t, a: nat | 0 <= t < |y.bodies| && a < |mem| && Writes(y.bodies[t], a) ensures after[a] == Alone(y.bodies[t], start, mem).1[a] {
      DoneBody(y, start, mem, m, t, a);
    }
    forall g | 0 <= g < |y.cells| ensures after[y.cells[g]] == GroupFold(y.op, y.bodies, start, mem, y.lanes, y.cells, g) {
      DoneGroup(y, start, mem, m, g);
    }
    forall a: nat | a < |mem| && (forall t | 0 <= t < |y.bodies| :: !Writes(y.bodies[t], a)) && a !in y.cells ensures after[a] == mem[a] {
      assert Untaken(y, a);
    }
  }

  lemma DoneBody(y: Team, start: Regs, mem0: seq<real>, m: Warps, t: nat, a: nat)
    requires TeamKeeps(y, start, mem0, m) && AllDone(y, m) && t < |y.bodies| && a < |mem0| && Writes(y.bodies[t], a)
    ensures InRange(y.bodies[t], |mem0|) && m.mem[a] == Alone(y.bodies[t], start, mem0).1[a]
  {
    var p := y.bodies[t];
    BodyFits(y, |mem0|, t, |p|);
    assert CodeOf(y)[t] == p + LeadWrite(y.op, y.lanes, y.cells, t);
    assert m.pcs[t] >= |p| && InBody(y, m, t) == |p| && p[..|p|] == p;
    assert SeesOwn(y, start, mem0, t, InBody(y, m, t), m.mem);
    var i :| 0 <= i < |p| && p[i].dst == Some(a);
    assert !Clear(a, p[i]);
    assert Touches(p, a);
  }

  lemma DoneGroup(y: Team, start: Regs, mem0: seq<real>, m: Warps, g: nat)
    requires TeamKeeps(y, start, mem0, m) && AllDone(y, m) && g < |y.cells|
    ensures TeamOk(y.bodies, |mem0|, y.lanes, y.cells) && y.cells[g] < |mem0|
    ensures m.mem[y.cells[g]] == GroupFold(y.op, y.bodies, start, mem0, y.lanes, y.cells, g)
  {
    var t := ThreadOf(y, g, 0);
    ThreadOfFits(y, g, 0);
    assert CodeOf(y)[t] == y.bodies[t] + LeadWrite(y.op, y.lanes, y.cells, t);
    assert m.pcs[t] == |y.bodies[t]| + 1;
    assert GroupKeeps(y, start, mem0, m, g);
    hide TeamCode, LeadAct, Shuffled, LaneValues;
  }

  // ---------------------------------------------------------------- progress

  ghost function Total(s: seq<nat>): nat {
    if s == [] then 0 else Total(s[..|s| - 1]) + s[|s| - 1]
  }

  lemma {:induction false} TotalLess(s: seq<nat>, i: nat, v: nat)
    requires i < |s| && v < s[i]
    ensures Total(s[i := v]) < Total(s)
  {
    var n := |s| - 1;
    if i == n {
      assert s[i := v][..n] == s[..n];
    } else {
      TotalLess(s[..n], i, v);
      assert s[i := v][..n] == s[..n][i := v];
    }
  }

  /** Actions still to be taken. */
  ghost function Pending(y: Team, m: Warps): (r: seq<nat>)
    requires StateOk(y, m)
    ensures |r| == |y.bodies|
  {
    seq(|y.bodies|, t requires 0 <= t < |y.bodies| => |CodeOf(y)[t]| - m.pcs[t])
  }

  ghost function Work(y: Team, m: Warps): nat
    requires StateOk(y, m)
  {
    Total(Pending(y, m)) + Total(m.masks)
  }

  lemma ActWorks(y: Team, m: Warps, t: nat)
    requires StateOk(y, m) && CanAct(y, m, t)
    ensures Work(y, Taken(y, m, Lane(t))) < Work(y, m)
  {
    var n, p := AfterAct(y, m, t), Pending(y, m);
    hide Act, CodeOf, Total;
    TotalLess(p, t, p[t] - 1);
    assert Pending(y, n) == p[t := p[t] - 1];
  }

  lemma ExchangeWorks(y: Team, m: Warps, g: nat)
    requires StateOk(y, m) && CanExchange(y, m, g)
    ensures Work(y, Taken(y, m, Group(g))) < Work(y, m)
  {
    hide Exchanging, Exchange, Registers, CodeOf, Total;
    TotalLess(m.masks, g, m.masks[g] / 2);
    assert Pending(y, AfterExchange(y, m, g)) == Pending(y, m);
  }

  /** Until all threads are done, some turn can be taken. */
  lemma SomeTurn(y: Team, m: Warps) returns (e: Turn)
    requires StateOk(y, m) && !AllDone(y, m)
    ensures Work(y, Taken(y, m, e)) < Work(y, m)
  {
    var t :| 0 <= t < |y.bodies| && m.pcs[t] != |CodeOf(y)[t]|;
    var g := GroupOf(t, y.lanes);
    GroupBelow(t, |y.cells|, y.lanes);
    hide Work, Taken;
    if m.pcs[t] < |y.bodies[t]| || m.masks[g] == 0 {
      ActWorks(y, m, t);
      e := Lane(t);
    } else if Gathered(y, m.pcs, g) {
      ExchangeWorks(y, m, g);
      e := Group(g);
    } else {
      var l :| 0 <= l < y.lanes && !Arrived(y, m.pcs, g, l);
      var u := ThreadOf(y, g, l);
      ThreadOfFits(y, g, l);
      assert CodeOf(y)[u] == y.bodies[u] + LeadWrite(y.op, y.lanes, y.cells, u);
      ActWorks(y, m, u);
      e := Lane(u);
    }
  }

  lemma {:induction false} TakenFirst(y: Team, m: Warps, e: Turn, rest: seq<Turn>)
    requires StateOk(y, m)
    ensures AllTaken(y, m, [e] + rest) == AllTaken(y, Taken(y, m, e), rest)
    decreases |rest|
  {
    hide Taken, StateOk;
    var s := [e] + rest;
    if rest == [] {
      assert s == [e] && [e][..0] == [];
    } else {
      TakenFirst(y, m, e, rest[..|rest| - 1]);
      assert s[..|s| - 1] == [e] + rest[..|rest| - 1] && s[|s| - 1] == rest[|rest| - 1];
    }
  }

  lemma {:induction false} CanFinish(y: Team, m: Warps) returns (sched: seq<Turn>)
    requires StateOk(y, m)
    ensures AllDone(y, AllTaken(y, m, sched))
    decreases Work(y, m)
  {
    hide Taken, StateOk, Work;
    if AllDone(y, m) {
      sched := [];
    } else {
      var e := SomeTurn(y, m);
      var rest := CanFinish(y, Taken(y, m, e));
      TakenFirst(y, m, e, rest);
      sched := [e] + rest;
    }
  }

  /** No group waits for ever, so every start can be run to the barrier. */
  lemma TeamCanReach(y: Team, start: Regs, mem: seq<real>) returns (after: seq<real>)
    requires Fitting(y, |mem|)
    ensures TeamReaches(y, start, mem, after) && |after| == |mem|
  {
    var sched := CanFinish(y, Opening(y, start, mem));
    after := AllTaken(y, Opening(y, start, mem), sched).mem;
    assert TeamEnds(y, start, mem, sched, after);
  }
}
