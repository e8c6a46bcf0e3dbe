/**
  Groups of lanes that exchange registers: each thread runs a body, then the lanes of a group exchange a
  register, and the first lane of each group writes its own.
 */
module WarpGroups {
  import opened Results
  import opened Schedules
  import opened Strides
  import opened Reductions

  /** A thread's running maximum, its running sum, and the value it writes next. */
  datatype Regs = Regs(max: real, sum: real, val: real)

  type Code = Program<real, Regs>

  ghost function Write(dst: nat, v: real): (a: Action<real, Regs>)
    ensures a.srcs == [] && a.dst == Some(dst)
  {
    Action([], (l: Regs, vs: seq<real>) => l, Some(dst), (l: Regs) => v)
  }

  lemma WriteActs(dst: nat, v: real, l: Regs, mem: seq<real>)
    requires dst < |mem|
    ensures Act(Write(dst, v), l, mem) == (l, mem[dst := v]) && Write(dst, v).out(l) == v
  {
  }

  /** The register that is reduced. */
  ghost function Reduced(op: Op, l: Regs): real {
    if op.Max? then l.max else l.sum
  }

  /** That register with another value. */
  ghost function WithReduced(op: Op, l: Regs, v: real): (r: Regs)
    ensures Reduced(op, r) == v
  {
    if op.Max? then l.(max := v) else l.(sum := v)
  }

  /** The registers of group `g` after the bodies. */
  ghost function LaneValues(op: Op, bodies: seq<Code>, start: Regs, mem: seq<real>, lanes: nat, g: nat): (r: seq<real>)
    requires Digits(g, lanes, 0) + lanes <= |bodies| && forall t | 0 <= t < |bodies| :: InRange(bodies[t], |mem|)
    ensures |r| == lanes
  {
    seq(lanes, l requires 0 <= l < lanes => Reduced(op, Alone(bodies[Digits(g, lanes, 0) + l], start, mem).0))
  }

  lemma LaneValue(op: Op, bodies: seq<Code>, start: Regs, mem: seq<real>, lanes: nat, g: nat, l: nat)
    requires Digits(g, lanes, 0) + lanes <= |bodies| && l < lanes && forall t | 0 <= t < |bodies| :: InRange(bodies[t], |mem|)
    ensures LaneValues(op, bodies, start, mem, lanes, g)[l]
         == Reduced(op, Alone(bodies[Digits(g, lanes, 0) + l], start, mem).0)
  {
    hide InRange, Alone, Reduced;
  }

  /** `groups` groups of `lanes` threads, and the cell that the first lane of each group writes. */
  ghost predicate TeamOk(bodies: seq<Code>, n: nat, lanes: nat, cells: seq<nat>) {
    && lanes > 0 && |bodies| == |cells| * lanes
    && (forall t | 0 <= t < |bodies| :: InRange(bodies[t], n))
    && (forall g | 0 <= g < |cells| :: cells[g] < n)
  }

  lemma GroupFits(bodies: seq<Code>, n: nat, lanes: nat, cells: seq<nat>, g: nat)
    requires TeamOk(bodies, n, lanes, cells) && g < |cells|
    ensures Digits(g, lanes, 0) + lanes <= |bodies|
  {
    MulMonotone(g + 1, |cells|, lanes);
    assert (g + 1) * lanes == g * lanes + lanes;
  }

  /** What the exchange leaves in the first lane of group `g`, when every lane has run its body by itself. */
  ghost function GroupFold(op: Op, bodies: seq<Code>, start: Regs, mem: seq<real>, lanes: nat, cells: seq<nat>, g: nat): real
    requires TeamOk(bodies, |mem|, lanes, cells) && g < |cells|
  {
    GroupFits(bodies, |mem|, lanes, cells, g);
    Shuffled(op, LaneValues(op, bodies, start, mem, lanes, g), lanes / 2)[0]
  }

  /** With a power of two of lanes, it is the fold of their registers. */
  lemma GroupFolds(op: Op, bodies: seq<Code>, start: Regs, mem: seq<real>, lanes: nat, cells: seq<nat>, g: nat)
    requires TeamOk(bodies, |mem|, lanes, cells) && g < |cells| && PowerOfTwo(lanes)
    ensures Digits(g, lanes, 0) + lanes <= |bodies|
    ensures AllFit(op, LaneValues(op, bodies, start, mem, lanes, g)) ==>
              GroupFold(op, bodies, start, mem, lanes, cells, g) == Fold(op, LaneValues(op, bodies, start, mem, lanes, g))
  {
    GroupFits(bodies, |mem|, lanes, cells, g);
    if AllFit(op, LaneValues(op, bodies, start, mem, lanes, g)) {
      ShuffledFolds(op, LaneValues(op, bodies, start, mem, lanes, g));
    }
  }

  /** A lane's register, by its thread. */
  lemma LaneOfGroup(op: Op, bodies: seq<Code>, start: Regs, mem: seq<real>, lanes: nat, cells: seq<nat>, g: nat, l: nat, u: nat, body: Code)
    requires TeamOk(bodies, |mem|, lanes, cells) && g < |cells| && l < lanes && u == Digits(g, lanes, l)
    requires u < |bodies| && bodies[u] == body
    ensures Digits(g, lanes, 0) + lanes <= |bodies| && InRange(body, |mem|)
    ensures LaneValues(op, bodies, start, mem, lanes, g)[l] == Reduced(op, Alone(body, start, mem).0)
  {
    GroupFits(bodies, |mem|, lanes, cells, g);
    assert Digits(g, lanes, 0) + l == u;
    hide InRange, Digits, Alone, Reduced, LaneValues;
    LaneValue(op, bodies, start, mem, lanes, g, l);
  }

  /** The lead lane writes its own register. */
  ghost function LeadAct(op: Op, cell: nat): (a: Action<real, Regs>)
    ensures a.srcs == [] && a.dst == Some(cell)
  {
    Action([], (l: Regs, vs: seq<real>) => l, Some(cell), (l: Regs) => Reduced(op, l))
  }

  lemma LeadActs(op: Op, cell: nat, l: Regs, mem: seq<real>)
    requires cell < |mem|
    ensures Act(LeadAct(op, cell), l, mem) == (l, mem[cell := Reduced(op, l)])
  {
  }

  ghost function LeadWrite(op: Op, lanes: nat, cells: seq<nat>, t: nat): (p: Code)
    requires lanes > 0 && t < |cells| * lanes
  {
    if TidOf(t, lanes) == 0 then
      GroupBelow(t, |cells|, lanes);
      [LeadAct(op, cells[GroupOf(t, lanes)])]
    else []
  }

  /** Each thread's body, followed by the lead lane's write. */
  ghost function TeamCode(op: Op, bodies: seq<Code>, lanes: nat, cells: seq<nat>): (r: seq<Code>)
    requires lanes > 0 && |bodies| == |cells| * lanes
    ensures |r| == |bodies|
    ensures forall t | 0 <= t < |r| :: r[t] == bodies[t] + LeadWrite(op, lanes, cells, t)
  {
    seq(|bodies|, t requires 0 <= t < |bodies| => bodies[t] + LeadWrite(op, lanes, cells, t))
  }

  /** The leads' cells are their own. */
  ghost predicate CellsFree(bodies: seq<Code>, cells: seq<nat>) {
    && (forall g, h | 0 <= g < h < |cells| :: cells[g] != cells[h])
    && (forall g, t | 0 <= g < |cells| && 0 <= t < |bodies| :: !Touches(bodies[t], cells[g]))
  }

  lemma LeadOf(op: Op, lanes: nat, cells: seq<nat>, t: nat)
    requires lanes > 0 && t < |cells| * lanes && LeadWrite(op, lanes, cells, t) != []
    ensures TidOf(t, lanes) == 0 && GroupOf(t, lanes) < |cells|
    ensures LeadWrite(op, lanes, cells, t) == [LeadAct(op, cells[GroupOf(t, lanes)])]
  {
    GroupBelow(t, |cells|, lanes);
  }

  lemma TeamInRange(op: Op, bodies: seq<Code>, n: nat, lanes: nat, cells: seq<nat>)
    requires TeamOk(bodies, n, lanes, cells)
    ensures forall t | 0 <= t < |bodies| :: InRange(TeamCode(op, bodies, lanes, cells)[t], n)
  {
    forall t | 0 <= t < |bodies| ensures InRange(TeamCode(op, bodies, lanes, cells)[t], n) {
      if LeadWrite(op, lanes, cells, t) != [] {
        LeadOf(op, lanes, cells, t);
      }
      InRangeBoth(bodies[t], LeadWrite(op, lanes, cells, t), n);
    }
  }

  lemma InRangeBoth(p: Code, q: Code, n: nat)
    requires InRange(p, n) && InRange(q, n)
    ensures InRange(p + q, n)
  {
    forall i | 0 <= i < |p + q| ensures Fits((p + q)[i], n) {
      if i < |p| {
        assert (p + q)[i] == p[i];
      } else {
        assert (p + q)[i] == q[i - |p|];
      }
    }
  }

  /** An action of a team is one of its body or the lead write. */
  lemma TeamClear(op: Op, bodies: seq<Code>, lanes: nat, cells: seq<nat>, t: nat, u: nat, i: nat, j: nat)
    requires lanes > 0 && |bodies| == |cells| * lanes && RaceFree(bodies) && CellsFree(bodies, cells)
    requires t < |bodies| && u < |bodies| && t != u
    requires var r := TeamCode(op, bodies, lanes, cells); i < |r[t]| && j < |r[u]| && r[t][i].dst.Some?
    ensures var r := TeamCode(op, bodies, lanes, cells); Clear(r[t][i].dst.value, r[u][j])
  {
    hide RaceFree;
    var r: seq<Code> := TeamCode(op, bodies, lanes, cells);
    assert r[t] == bodies[t] + LeadWrite(op, lanes, cells, t);
    assert r[u] == bodies[u] + LeadWrite(op, lanes, cells, u);
    if i < |bodies[t]| && j < |bodies[u]| {
      RacePair(bodies, t, u, i, j);
    } else if i < |bodies[t]| {
      LeadOf(op, lanes, cells, u);
      var g := GroupOf(u, lanes);
      assert !Touches(bodies[t], cells[g]);
      assert Clear(cells[g], bodies[t][i]);
    } else {
      LeadOf(op, lanes, cells, t);
      var g := GroupOf(t, lanes);
      if j < |bodies[u]| {
        assert !Touches(bodies[u], cells[g]);
        assert Clear(cells[g], bodies[u][j]);
      } else {
        LeadOf(op, lanes, cells, u);
        if GroupOf(u, lanes) == g {
          SameThread(t, u, lanes);
        }
      }
    }
  }

  lemma RacePair(progs: seq<Code>, t: nat, u: nat, i: nat, j: nat)
    requires RaceFree(progs) && t < |progs| && u < |progs| && t != u && i < |progs[t]| && j < |progs[u]| && progs[t][i].dst.Some?
    ensures Clear(progs[t][i].dst.value, progs[u][j])
  {
  }

  lemma TeamRaceFree(op: Op, bodies: seq<Code>, lanes: nat, cells: seq<nat>)
    requires lanes > 0 && |bodies| == |cells| * lanes && RaceFree(bodies) && CellsFree(bodies, cells)
    ensures RaceFree(TeamCode(op, bodies, lanes, cells))
  {
    var r: seq<Code> := TeamCode(op, bodies, lanes, cells);
    hide CellsFree, TeamCode, Clear;
    forall t, u, i, j | 0 <= t < |r| && 0 <= u < |r| && t != u && 0 <= i < |r[t]| && 0 <= j < |r[u]| && r[t][i].dst.Some?
      ensures Clear(r[t][i].dst.value, r[u][j])
    {
      TeamClear(op, bodies, lanes, cells, t, u, i, j);
    }
  }

  lemma AloneNothing(p: Code, l: Regs, mem: seq<real>)
    ensures InRange(p[..0], |mem|) && Alone(p[..0], l, mem) == (l, mem)
  {
    assert p[..0] == [];
  }

  lemma ThreadDigits(u: nat, lanes: nat)
    requires lanes > 0
    ensures Digits(GroupOf(u, lanes), lanes, TidOf(u, lanes)) == u
  {
    DivMod(u, lanes);
  }

  ghost function Starts(start: Regs, n: nat): (r: seq<Regs>)
    ensures |r| == n && forall t | 0 <= t < n :: r[t] == start
  {
    seq(n, _ => start)
  }

  // ---------------------------------------------------------------- ownership

  /** Every cell a thread writes is its own, and it reads only its own cells and cells nobody owns. */
  ghost predicate Owned(progs: seq<Code>, owner: nat -> nat) {
    forall t, i | 0 <= t < |progs| && 0 <= i < |progs[t]| :: KeepsTo(progs[t][i], owner, t, |progs|)
  }

  ghost predicate KeepsTo(a: Action<real, Regs>, owner: nat -> nat, t: nat, n: nat) {
    && (a.dst.Some? ==> owner(a.dst.value) == t)
    && (forall k | 0 <= k < |a.srcs| :: owner(a.srcs[k]) == t || owner(a.srcs[k]) >= n)
  }

  lemma OwnedRaceFree(progs: seq<Code>, owner: nat -> nat)
    requires Owned(progs, owner)
    ensures RaceFree(progs)
  {
    forall t, u, i, j | 0 <= t < |progs| && 0 <= u < |progs| && t != u && 0 <= i < |progs[t]| && 0 <= j < |progs[u]| && progs[t][i].dst.Some?
      ensures Clear(progs[t][i].dst.value, progs[u][j])
    {
      var a := progs[t][i].dst.value;
      assert KeepsTo(progs[t][i], owner, t, |progs|) && KeepsTo(progs[u][j], owner, u, |progs|);
      forall k | 0 <= k < |progs[u][j].srcs| ensures progs[u][j].srcs[k] != a {
        assert owner(progs[u][j].srcs[k]) != t;
      }
    }
  }

  /** If every write to a cell writes the same value, that value is in it at the end. */
  lemma {:induction false} SameWrites(p: Code, l: Regs, mem: seq<real>, a: nat, v: real)
    requires InRange(p, |mem|) && a < |mem| && Writes(p, a)
    requires forall k, r: Regs | 0 <= k < |p| && p[k].dst == Some(a) :: p[k].out(r) == v
    ensures Alone(p, l, mem).1[a] == v
    decreases |p|
  {
    var n := |p| - 1;
    if p[n].dst != Some(a) {
      var k :| 0 <= k < |p| && p[k].dst == Some(a);
      assert p[..n][k].dst == Some(a);
      SameWrites(p[..n], l, mem, a, v);
    }
  }

  lemma ReachedWrite(progs: seq<Code>, mem: seq<real>, start: Regs, after: seq<real>, t: nat, a: nat)
    requires Reaches(progs, mem, Starts(start, |progs|), after) && RaceFree(progs) && t < |progs| && a < |mem| && Writes(progs[t], a)
    ensures |after| == |mem| && after[a] == Alone(progs[t], start, mem).1[a]
  {
    var i :| 0 <= i < |progs[t]| && progs[t][i].dst == Some(a);
    assert !Clear(a, progs[t][i]);
    ReachedCell(progs, mem, Starts(start, |progs|), after, t, a);
  }

  /** With owners, a cell ends as its owner alone would leave it. */
  lemma OwnedCell(progs: seq<Code>, mem: seq<real>, start: Regs, after: seq<real>, owner: nat -> nat, u: nat, a: nat)
    requires Reaches(progs, mem, Starts(start, |progs|), after) && Owned(progs, owner) && u < |progs| && a < |mem| && owner(a) == u
    ensures InRange(progs[u], |mem|) && |after| == |mem| && after[a] == Alone(progs[u], start, mem).1[a]
  {
    OwnedRaceFree(progs, owner);
    hide RaceFree, Reaches;
    Reachable(progs, mem, start, after, u);
    if Writes(progs[u], a) {
      ReachedWrite(progs, mem, start, after, u, a);
    } else {
      NotYetWritten(progs[u], start, mem, a);
      forall v | 0 <= v < |progs| ensures !Writes(progs[v], a) {
        OwnerWrites(progs, owner, v, a);
      }
      ReachedOther(progs, mem, Starts(start, |progs|), after, a);
    }
  }

  lemma Reachable(progs: seq<Code>, mem: seq<real>, start: Regs, after: seq<real>, u: nat)
    requires Reaches(progs, mem, Starts(start, |progs|), after) && u < |progs|
    ensures InRange(progs[u], |mem|) && |after| == |mem|
  {
  }

  lemma OwnerWrites(progs: seq<Code>, owner: nat -> nat, v: nat, a: nat)
    requires Owned(progs, owner) && v < |progs|
    ensures Writes(progs[v], a) ==> owner(a) == v
  {
    if i :| 0 <= i < |progs[v]| && progs[v][i].dst == Some(a) {
      assert KeepsTo(progs[v][i], owner, v, |progs|);
    }
  }

  /** And a cell without an owner keeps its value. */
  lemma UnownedCell(progs: seq<Code>, mem: seq<real>, start: Regs, after: seq<real>, owner: nat -> nat, a: nat)
    requires Reaches(progs, mem, Starts(start, |progs|), after) && Owned(progs, owner) && a < |mem| && owner(a) >= |progs|
    ensures |after| == |mem| && after[a] == mem[a]
  {
    OwnedRaceFree(progs, owner);
    hide RaceFree, Reaches;
    forall v | 0 <= v < |progs| ensures !Writes(progs[v], a) {
      OwnerWrites(progs, owner, v, a);
    }
    ReachedOther(progs, mem, Starts(start, |progs|), after, a);
  }
}
