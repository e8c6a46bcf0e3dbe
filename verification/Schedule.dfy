/**
  Threads between two barriers: each has its own registers and a program of actions on one
  shared memory, and a schedule interleaves them action by action.
 */
module Schedules {
  import opened Results

  /** Reads some cells, updates the registers, and possibly writes one cell. */
  datatype Action<!V, !L> = Action(srcs: seq<nat>, act: (L, seq<V>) -> L, dst: Option<nat>, out: L -> V)

  type Program<!V, !L> = seq<Action<V, L>>

  ghost predicate InRange<V, L>(p: Program<V, L>, n: nat) {
    && (forall i | 0 <= i < |p| && p[i].dst.Some? :: p[i].dst.value < n)
    && (forall i, k | 0 <= i < |p| && 0 <= k < |p[i].srcs| :: p[i].srcs[k] < n)
  }

  ghost function ReadAll<V>(mem: seq<V>, addrs: seq<nat>): (r: seq<V>)
    requires forall k | 0 <= k < |addrs| :: addrs[k] < |mem|
    ensures |r| == |addrs|
  {
    seq(|addrs|, k requires 0 <= k < |addrs| => mem[addrs[k]])
  }

  ghost predicate Fits<V, L>(a: Action<V, L>, n: nat) {
    && (a.dst.Some? ==> a.dst.value < n)
    && (forall k | 0 <= k < |a.srcs| :: a.srcs[k] < n)
  }

  /** One action of a thread with registers `l`. */
  ghost function Act<V, L>(a: Action<V, L>, l: L, mem: seq<V>): (r: (L, seq<V>))
    requires Fits(a, |mem|)
    ensures |r.1| == |mem|
  {
    var k := a.act(l, ReadAll(mem, a.srcs));
    (k, if a.dst.Some? then mem[a.dst.value := a.out(k)] else mem)
  }

  /** A whole program, run by itself. */
  ghost function Alone<V, L>(p: Program<V, L>, l: L, mem: seq<V>): (r: (L, seq<V>))
    requires InRange(p, |mem|)
    ensures |r.1| == |mem|
  {
    if p == [] then (l, mem)
    else
      var n := |p| - 1;
      var r := Alone(p[..n], l, mem);
      Act(p[n], r.0, r.1)
  }

  /** The last write to a cell is what stays in it. */
  lemma {:induction false} LastWrite<V, L>(p: Program<V, L>, l: L, mem: seq<V>, k: nat)
    requires InRange(p, |mem|) && k < |p| && p[k].dst.Some? && forall j | k < j < |p| :: p[j].dst != p[k].dst
    ensures InRange(p[..k + 1], |mem|)
    ensures Alone(p, l, mem).1[p[k].dst.value] == p[k].out(Alone(p[..k + 1], l, mem).0)
  {
    var n := |p| - 1;
    if k < n {
      assert p[..n][..k + 1] == p[..k + 1];
      LastWrite(p[..n], l, mem, k);
    } else {
      assert p[..k + 1] == p;
    }
  }

  // ---------------------------------------------------------------- interleavings

  datatype Machine<V, L> = Machine(mem: seq<V>, locals: seq<L>, pcs: seq<nat>)

  ghost predicate Consistent<V, L>(progs: seq<Program<V, L>>, m: Machine<V, L>) {
    && |progs| == |m.locals| == |m.pcs|
    && (forall t | 0 <= t < |progs| :: m.pcs[t] <= |progs[t]| && InRange(progs[t], |m.mem|))
  }

  /** Thread `t` takes its next action, if it has one. */
  ghost function Tick<V, L>(progs: seq<Program<V, L>>, m: Machine<V, L>, t: nat): (r: Machine<V, L>)
    requires Consistent(progs, m)
    ensures Consistent(progs, r) && |r.mem| == |m.mem|
  {
    if t < |progs| && m.pcs[t] < |progs[t]| then
      var r := Act(progs[t][m.pcs[t]], m.locals[t], m.mem);
      Machine(r.1, m.locals[t := r.0], m.pcs[t := m.pcs[t] + 1])
    else m
  }

  ghost function Scheduled<V, L>(progs: seq<Program<V, L>>, m: Machine<V, L>, sched: seq<nat>): (r: Machine<V, L>)
    requires Consistent(progs, m)
    ensures Consistent(progs, r) && |r.mem| == |m.mem|
  {
    if sched == [] then m
    else Tick(progs, Scheduled(progs, m, sched[..|sched| - 1]), sched[|sched| - 1])
  }

  /** The start of an interval between barriers. */
  ghost function Begin<V, L>(progs: seq<Program<V, L>>, mem: seq<V>, locals: seq<L>): (m: Machine<V, L>)
    requires |locals| == |progs| && forall t | 0 <= t < |progs| :: InRange(progs[t], |mem|)
    ensures Consistent(progs, m)
  {
    Machine(mem, locals, seq(|progs|, _ => 0))
  }

  /** Every thread has reached the barrier. */
  ghost predicate Complete<V, L>(progs: seq<Program<V, L>>, m: Machine<V, L>)
    requires Consistent(progs, m)
  {
    forall t | 0 <= t < |progs| :: m.pcs[t] == |progs[t]|
  }

  ghost predicate Clear<V, L>(a: nat, b: Action<V, L>) {
    a !in b.srcs && b.dst != Some(a)
  }

  /** No cell that one thread writes is read or written by another. */
  ghost predicate RaceFree<V, L>(progs: seq<Program<V, L>>) {
    forall t, u, i, j | 0 <= t < |progs| && 0 <= u < |progs| && t != u && 0 <= i < |progs[t]| && 0 <= j < |progs[u]|
                        && progs[t][i].dst.Some? ::
      Clear(progs[t][i].dst.value, progs[u][j])
  }

  ghost predicate Writes<V, L>(p: Program<V, L>, a: nat) {
    exists i :: 0 <= i < |p| && p[i].dst == Some(a)
  }

  /** Some action of the program reads or writes the cell. */
  ghost predicate Touches<V, L>(p: Program<V, L>, a: nat) {
    exists i :: 0 <= i < |p| && !Clear(a, p[i])
  }

  /** What a thread sees is what it would see alone: its registers, and the cells it touches. */
  ghost predicate SeesItself<V, L>(p: Program<V, L>, pc: nat, l0: L, mem0: seq<V>, l: L, mem: seq<V>) {
    && pc <= |p| && InRange(p, |mem0|) && |mem| == |mem0| && InRange(p[..pc], |mem0|)
    && l == Alone(p[..pc], l0, mem0).0
    && (forall a: nat | a < |mem| && Touches(p, a) :: mem[a] == Alone(p[..pc], l0, mem0).1[a])
  }

  lemma SeesOwnAction<V, L>(p: Program<V, L>, pc: nat, l0: L, mem0: seq<V>, l: L, mem: seq<V>)
    requires SeesItself(p, pc, l0, mem0, l, mem) && pc < |p|
    ensures Fits(p[pc], |mem|)
    ensures var r := Act(p[pc], l, mem); SeesItself(p, pc + 1, l0, mem0, r.0, r.1)
  {
    var alone := Alone(p[..pc], l0, mem0);
    assert p[..pc + 1][..pc] == p[..pc] && p[..pc + 1][pc] == p[pc];
    assert ReadAll(mem, p[pc].srcs) == ReadAll(alone.1, p[pc].srcs) by {
      forall k | 0 <= k < |p[pc].srcs| ensures mem[p[pc].srcs[k]] == alone.1[p[pc].srcs[k]] {
        var a := p[pc].srcs[k];
        assert !Clear(a, p[pc]);
        assert Touches(p, a);
      }
    }
  }

  lemma SeesOtherAction<V, L>(p: Program<V, L>, pc: nat, l0: L, mem0: seq<V>, l: L, mem: seq<V>, a: nat, v: V)
    requires SeesItself(p, pc, l0, mem0, l, mem) && a < |mem| && !Touches(p, a)
    ensures SeesItself(p, pc, l0, mem0, l, mem[a := v])
  {
  }

  ghost predicate AllSee<V, L>(progs: seq<Program<V, L>>, mem0: seq<V>, l0: seq<L>, m: Machine<V, L>)
    requires |l0| == |progs| && Consistent(progs, m)
  {
    forall t | 0 <= t < |progs| :: SeesItself(progs[t], m.pcs[t], l0[t], mem0, m.locals[t], m.mem)
  }

  lemma TickSees<V, L>(progs: seq<Program<V, L>>, mem0: seq<V>, l0: seq<L>, m: Machine<V, L>, t: nat)
    requires |l0| == |progs| && Consistent(progs, m) && RaceFree(progs) && AllSee(progs, mem0, l0, m)
    ensures AllSee(progs, mem0, l0, Tick(progs, m, t))
  {
    if t < |progs| && m.pcs[t] < |progs[t]| {
      hide SeesItself;
      var i := m.pcs[t];
      var n := Tick(progs, m, t);
      forall u | 0 <= u < |progs| ensures SeesItself(progs[u], n.pcs[u], l0[u], mem0, n.locals[u], n.mem) {
        if u == t {
          SeesOwnAction(progs[t], i, l0[t], mem0, m.locals[t], m.mem);
        } else if progs[t][i].dst.Some? {
          assert !Touches(progs[u], progs[t][i].dst.value);
          SeesOtherAction(progs[u], m.pcs[u], l0[u], mem0, m.locals[u], m.mem, progs[t][i].dst.value, n.mem[progs[t][i].dst.value]);
        }
      }
    }
  }

  lemma {:induction false} ScheduledSees<V, L>(progs: seq<Program<V, L>>, mem: seq<V>, locals: seq<L>, sched: seq<nat>)
    requires |locals| == |progs| && RaceFree(progs) && forall t | 0 <= t < |progs| :: InRange(progs[t], |mem|)
    ensures AllSee(progs, mem, locals, Scheduled(progs, Begin(progs, mem, locals), sched))
    decreases |sched|
  {
    if sched == [] {
      assert forall t | 0 <= t < |progs| :: progs[t][..0] == [];
    } else {
      ScheduledSees(progs, mem, locals, sched[..|sched| - 1]);
      TickSees(progs, mem, locals, Scheduled(progs, Begin(progs, mem, locals), sched[..|sched| - 1]), sched[|sched| - 1]);
    }
  }

  lemma {:induction false} UnwrittenKept<V, L>(progs: seq<Program<V, L>>, m: Machine<V, L>, sched: seq<nat>, a: nat)
    requires Consistent(progs, m) && a < |m.mem| && forall t | 0 <= t < |progs| :: !Writes(progs[t], a)
    ensures Scheduled(progs, m, sched).mem[a] == m.mem[a]
    decreases |sched|
  {
    if sched != [] {
      UnwrittenKept(progs, m, sched[..|sched| - 1], a);
      var n, t := Scheduled(progs, m, sched[..|sched| - 1]), sched[|sched| - 1];
      if t < |progs| && n.pcs[t] < |progs[t]| {
        assert !Writes(progs[t], a);
      }
    }
  }

  /**
    Without races, every complete schedule leaves each thread's registers and every cell it touches
    as if the thread had run alone, and leaves every other cell as it was.
   */
  lemma AnySchedule<V, L>(progs: seq<Program<V, L>>, mem: seq<V>, locals: seq<L>, sched: seq<nat>)
    requires |locals| == |progs| && RaceFree(progs) && forall t | 0 <= t < |progs| :: InRange(progs[t], |mem|)
    requires Complete(progs, Scheduled(progs, Begin(progs, mem, locals), sched))
    ensures var m := Scheduled(progs, Begin(progs, mem, locals), sched);
            && |m.mem| == |mem| && |m.locals| == |progs|
            && (forall t | 0 <= t < |progs| :: m.locals[t] == Alone(progs[t], locals[t], mem).0)
            && (forall t, a: nat | 0 <= t < |progs| && a < |mem| && Touches(progs[t], a) ::
                  m.mem[a] == Alone(progs[t], locals[t], mem).1[a])
            && (forall a: nat | a < |mem| && (forall t | 0 <= t < |progs| :: !Writes(progs[t], a)) :: m.mem[a] == mem[a])
  {
    var m := Scheduled(progs, Begin(progs, mem, locals), sched);
    ScheduledSees(progs, mem, locals, sched);
    forall t | 0 <= t < |progs| ensures SeesItself(progs[t], |progs[t]|, locals[t], mem, m.locals[t], m.mem) && progs[t][..|progs[t]|] == progs[t] {
      assert m.pcs[t] == |progs[t]|;
    }
    forall a: nat | a < |mem| && (forall t | 0 <= t < |progs| :: !Writes(progs[t], a)) ensures m.mem[a] == mem[a] {
      UnwrittenKept(progs, Begin(progs, mem, locals), sched, a);
    }
  }

  /** The last write of a thread to a cell is what any complete schedule leaves there. */
  lemma FinalWrite<V, L>(progs: seq<Program<V, L>>, mem: seq<V>, locals: seq<L>, sched: seq<nat>, t: nat, k: nat)
    requires |locals| == |progs| && RaceFree(progs) && forall u | 0 <= u < |progs| :: InRange(progs[u], |mem|)
    requires Complete(progs, Scheduled(progs, Begin(progs, mem, locals), sched))
    requires t < |progs| && k < |progs[t]| && progs[t][k].dst.Some?
    requires forall j | k < j < |progs[t]| :: progs[t][j].dst != progs[t][k].dst
    ensures InRange(progs[t][..k + 1], |mem|) && progs[t][k].dst.value < |mem|
    ensures Scheduled(progs, Begin(progs, mem, locals), sched).mem[progs[t][k].dst.value]
         == progs[t][k].out(Alone(progs[t][..k + 1], locals[t], mem).0)
  {
    LastWrite(progs[t], locals[t], mem, k);
    assert !Clear(progs[t][k].dst.value, progs[t][k]);
    assert Touches(progs[t], progs[t][k].dst.value);
    AnySchedule(progs, mem, locals, sched);
  }

  /** Any two complete schedules end in the same memory. */
  lemma ScheduleIndependent<V, L>(progs: seq<Program<V, L>>, mem: seq<V>, locals: seq<L>, s1: seq<nat>, s2: seq<nat>)
    requires |locals| == |progs| && RaceFree(progs) && forall t | 0 <= t < |progs| :: InRange(progs[t], |mem|)
    requires Complete(progs, Scheduled(progs, Begin(progs, mem, locals), s1))
    requires Complete(progs, Scheduled(progs, Begin(progs, mem, locals), s2))
    ensures Scheduled(progs, Begin(progs, mem, locals), s1) == Scheduled(progs, Begin(progs, mem, locals), s2)
  {
    var m, n := Scheduled(progs, Begin(progs, mem, locals), s1), Scheduled(progs, Begin(progs, mem, locals), s2);
    AnySchedule(progs, mem, locals, s1);
    AnySchedule(progs, mem, locals, s2);
    forall a: nat | a < |mem| ensures m.mem[a] == n.mem[a] {
      if t :| 0 <= t < |progs| && Writes(progs[t], a) {
        var i :| 0 <= i < |progs[t]| && progs[t][i].dst == Some(a);
        assert !Clear(a, progs[t][i]);
        assert Touches(progs[t], a);
      }
    }
    assert m.mem == n.mem && m.locals == n.locals && m.pcs == n.pcs;
  }

  /** Writing a value that is already at hand. */
  function Put<V>(dst: nat, v: V): (a: Action<V, ()>)
    ensures a.srcs == [] && a.dst == Some(dst) && a.out(()) == v
  {
    Action([], (l, _) => l, Some(dst), _ => v)
  }

  lemma {:induction false} NotYetWritten<V, L>(p: Program<V, L>, l: L, mem: seq<V>, a: nat)
    requires InRange(p, |mem|) && a < |mem| && !Writes(p, a)
    ensures Alone(p, l, mem).1[a] == mem[a]
  {
    if p != [] {
      var n := |p| - 1;
      assert !Writes(p[..n], a) && p[n].dst != Some(a);
      NotYetWritten(p[..n], l, mem, a);
    }
  }

  /** One program after another. */
  lemma {:induction false} AloneBoth<V, L>(p: Program<V, L>, q: Program<V, L>, l: L, mem: seq<V>)
    requires InRange(p, |mem|) && InRange(q, |mem|)
    ensures InRange(p + q, |mem|)
    ensures var r := Alone(p, l, mem); Alone(p + q, l, mem) == Alone(q, r.0, r.1)
    decreases |q|
  {
    if q == [] {
      assert p + q == p;
    } else {
      var n := |q| - 1;
      AloneBoth(p, q[..n], l, mem);
      assert (p + q)[..|p + q| - 1] == p + q[..n];
    }
  }

  /** `after` is what some complete schedule leaves. */
  ghost predicate Reaches<V(!new), L(!new)>(progs: seq<Program<V, L>>, mem: seq<V>, locals: seq<L>, after: seq<V>) {
    && |locals| == |progs| && (forall t | 0 <= t < |progs| :: InRange(progs[t], |mem|))
    && exists sched: seq<nat> :: Ends(progs, mem, locals, sched, after)
  }

  ghost predicate Ends<V, L>(progs: seq<Program<V, L>>, mem: seq<V>, locals: seq<L>, sched: seq<nat>, after: seq<V>)
    requires |locals| == |progs| && forall t | 0 <= t < |progs| :: InRange(progs[t], |mem|)
  {
    var m := Scheduled(progs, Begin(progs, mem, locals), sched);
    Complete(progs, m) && m.mem == after
  }

  /** What every complete schedule of race-free programs leaves in a cell that a thread touches. */
  lemma ReachedCell<V(!new), L(!new)>(progs: seq<Program<V, L>>, mem: seq<V>, locals: seq<L>, after: seq<V>, t: nat, a: nat)
    requires Reaches(progs, mem, locals, after) && RaceFree(progs) && t < |progs| && a < |mem| && Touches(progs[t], a)
    ensures |after| == |mem| && after[a] == Alone(progs[t], locals[t], mem).1[a]
  {
    var sched :| Ends(progs, mem, locals, sched, after);
    AnySchedule(progs, mem, locals, sched);
  }

  /** And in a cell that no thread writes. */
  lemma ReachedOther<V(!new), L(!new)>(progs: seq<Program<V, L>>, mem: seq<V>, locals: seq<L>, after: seq<V>, a: nat)
    requires Reaches(progs, mem, locals, after) && RaceFree(progs) && a < |mem| && forall t | 0 <= t < |progs| :: !Writes(progs[t], a)
    ensures |after| == |mem| && after[a] == mem[a]
  {
    var sched :| Ends(progs, mem, locals, sched, after);
    AnySchedule(progs, mem, locals, sched);
  }

  lemma ReachesSize<V(!new), L(!new)>(progs: seq<Program<V, L>>, mem: seq<V>, locals: seq<L>, after: seq<V>)
    requires Reaches(progs, mem, locals, after)
    ensures |after| == |mem|
  {
  }

  lemma {:induction false} PrefixInRange<V, L>(p: Program<V, L>, n: nat, k: nat)
    requires InRange(p, n) && k <= |p|
    ensures InRange(p[..k], n)
  {
  }

  /** One more action of a program run by itself. */
  lemma AloneStep<V, L>(p: Program<V, L>, l: L, mem: seq<V>, k: nat)
    requires InRange(p, |mem|) && k < |p|
    ensures InRange(p[..k], |mem|) && InRange(p[..k + 1], |mem|) && Fits(p[k], |mem|)
    ensures var r := Alone(p[..k], l, mem); Alone(p[..k + 1], l, mem) == Act(p[k], r.0, r.1)
  {
    assert p[..k + 1][..k] == p[..k] && p[..k + 1][k] == p[k];
  }

  lemma PutStep<V>(p: Program<V, ()>, mem: seq<V>, k: nat)
    requires InRange(p, |mem|) && k < |p| && p[k].dst.Some?
    ensures InRange(p[..k], |mem|) && InRange(p[..k + 1], |mem|) && p[k].dst.value < |mem|
    ensures Alone(p[..k + 1], (), mem).1 == Alone(p[..k], (), mem).1[p[k].dst.value := p[k].out(())]
  {
    AloneStep(p, (), mem, k);
    OneUnit(Alone(p[..k + 1], (), mem).0);
  }

  lemma OneUnit(x: ())
    ensures x == ()
  {
  }

  // ---------------------------------------------------------------- progress

  lemma {:induction false} ScheduledTwice<V, L>(progs: seq<Program<V, L>>, m: Machine<V, L>, a: seq<nat>, b: seq<nat>)
    requires Consistent(progs, m)
    ensures Scheduled(progs, Scheduled(progs, m, a), b) == Scheduled(progs, m, a + b)
    decreases |b|
  {
    if b == [] {
      assert a + b == a;
    } else {
      ScheduledTwice(progs, m, a, b[..|b| - 1]);
      assert (a + b)[..|a + b| - 1] == a + b[..|b| - 1];
    }
  }

  /** Running one thread to its end leaves the other threads where they are. */
  lemma {:induction false} FinishThread<V, L>(progs: seq<Program<V, L>>, m: Machine<V, L>, t: nat) returns (sched: seq<nat>)
    requires Consistent(progs, m) && t < |progs|
    ensures var n := Scheduled(progs, m, sched);
            && n.pcs == m.pcs[t := |progs[t]|]
            && (forall u | 0 <= u < |progs| && u != t :: n.locals[u] == m.locals[u])
            && (forall a: nat | a < |m.mem| && NoneLeft(progs[t], m.pcs[t], a) :: n.mem[a] == m.mem[a])
    decreases |progs[t]| - m.pcs[t]
  {
    if m.pcs[t] == |progs[t]| {
      sched := [];
    } else {
      var k := Tick(progs, m, t);
      var rest := FinishThread(progs, k, t);
      assert [t][..0] == [] && Scheduled(progs, m, [t]) == k;
      ScheduledTwice(progs, m, [t], rest);
      sched := [t] + rest;
      var n := Scheduled(progs, m, sched);
      forall a: nat | a < |m.mem| && NoneLeft(progs[t], m.pcs[t], a) ensures n.mem[a] == m.mem[a] {
        assert NoneLeft(progs[t], k.pcs[t], a);
      }
    }
  }

  /** No action from the `k`-th on writes the cell. */
  ghost predicate NoneLeft<V, L>(p: Program<V, L>, k: nat, a: nat) {
    forall i | k <= i < |p| :: p[i].dst != Some(a)
  }

  /** Running all threads but two to their ends leaves those two where they are. */
  lemma {:induction false} FinishOthers<V, L>(progs: seq<Program<V, L>>, m: Machine<V, L>, n: nat, p: nat, q: nat) returns (sched: seq<nat>)
    requires Consistent(progs, m) && n <= |progs| && p < |progs| && q < |progs|
    ensures var k := Scheduled(progs, m, sched);
            && (forall t | 0 <= t < n && t != p && t != q :: k.pcs[t] == |progs[t]|)
            && k.pcs[p] == m.pcs[p] && k.pcs[q] == m.pcs[q] && k.locals[p] == m.locals[p] && k.locals[q] == m.locals[q]
    decreases n
  {
    sched := [];
    if n > 0 {
      sched := FinishOthers(progs, m, n - 1, p, q);
      if n - 1 != p && n - 1 != q {
        var last := FinishThread(progs, Scheduled(progs, m, sched), n - 1);
        ScheduledTwice(progs, m, sched, last);
        sched := sched + last;
      }
    }
  }

  /** Threads never wait for each other, so every state can run on to the barrier. */
  lemma {:induction false} CanComplete<V, L>(progs: seq<Program<V, L>>, m: Machine<V, L>, n: nat) returns (sched: seq<nat>)
    requires Consistent(progs, m) && n <= |progs|
    ensures forall t | 0 <= t < n :: Scheduled(progs, m, sched).pcs[t] == |progs[t]|
    ensures n == |progs| ==> Complete(progs, Scheduled(progs, m, sched))
    decreases n
  {
    sched := [];
    if n > 0 {
      var before := CanComplete(progs, m, n - 1);
      var last := FinishThread(progs, Scheduled(progs, m, before), n - 1);
      ScheduledTwice(progs, m, before, last);
      sched := before + last;
    }
  }

  /** So there is always some complete schedule. */
  lemma CanReach<V(!new), L(!new)>(progs: seq<Program<V, L>>, mem: seq<V>, locals: seq<L>) returns (after: seq<V>)
    requires |locals| == |progs| && forall t | 0 <= t < |progs| :: InRange(progs[t], |mem|)
    ensures Reaches(progs, mem, locals, after) && |after| == |mem|
  {
    var sched := CanComplete(progs, Begin(progs, mem, locals), |progs|);
    after := Scheduled(progs, Begin(progs, mem, locals), sched).mem;
    assert Ends(progs, mem, locals, sched, after);
  }
}
