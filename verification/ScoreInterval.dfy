/** From the first barrier to the second: every token is scored, and each warp leaves the maximum of its scores. */
module ScoreInterval {
  import opened Results
  import opened Schedules
  import opened Strides
  import opened Reductions
  import opened WarpGroups
  import opened WarpTeams
  import opened Attention
  import opened KernelLayout

  /** Scores token `i` and raises the running maximum. */
  ghost function ScoreAct(t: Task, i: nat): (a: Action<real, Regs>)
    requires TaskOk(t) && i < |t.keys|
    ensures a.srcs == [] && a.dst == Some(i)
  {
    var s := TaskScores(t)[i];
    Action([], (l: Regs, vs: seq<real>) => l.(max := Combine(Max(t.a.low), l.max, s)), Some(i), (l: Regs) => s)
  }

  lemma ScoreActs(t: Task, i: nat, l: Regs, mem: seq<real>)
    requires TaskOk(t) && i < |t.keys| <= |mem|
    ensures Act(ScoreAct(t, i), l, mem)
         == (l.(max := Combine(Max(t.a.low), l.max, TaskScores(t)[i])), mem[i := TaskScores(t)[i]])
    ensures forall r: Regs :: ScoreAct(t, i).out(r) == TaskScores(t)[i]
  {
  }

  ghost function ThreadTokens(t: Task, u: nat): seq<nat>
    requires TaskOk(t)
  {
    TokensFrom(t.k, |t.keys|, GroupOf(u, t.k.lanes), TidOf(u, t.k.lanes))
  }

  lemma ThreadToken(t: Task, u: nat, j: nat)
    requires TaskOk(t) && u < Threads(t.k) && j < |ThreadTokens(t, u)|
    ensures var x := ThreadTokens(t, u)[j];
            x < |t.keys| && WarpOf(t.k, x) == GroupOf(u, t.k.lanes) && LaneOf(t.k, x) == TidOf(u, t.k.lanes)
  {
    GroupBelow(u, t.k.warps, t.k.lanes);
    TokensAre(t.k, |t.keys|, GroupOf(u, t.k.lanes), TidOf(u, t.k.lanes), j);
    SmallResidue(GroupOf(u, t.k.lanes), t.k.warps);
  }

  ghost function ScoreBody(t: Task, u: nat): (p: Code)
    requires TaskOk(t) && u < Threads(t.k)
    ensures |p| == |ThreadTokens(t, u)|
    ensures forall j | 0 <= j < |p| :: ThreadTokens(t, u)[j] < |t.keys| && p[j] == ScoreAct(t, ThreadTokens(t, u)[j])
  {
    var toks := ThreadTokens(t, u);
    assert forall j | 0 <= j < |toks| :: toks[j] < |t.keys| by {
      forall j | 0 <= j < |toks| ensures toks[j] < |t.keys| {
        ThreadToken(t, u, j);
      }
    }
    seq(|toks|, j requires 0 <= j < |toks| => ScoreAct(t, toks[j]))
  }

  ghost function ScoreBodies(t: Task): (r: seq<Code>)
    requires TaskOk(t)
    ensures |r| == Threads(t.k) && forall u | 0 <= u < |r| :: r[u] == ScoreBody(t, u)
  {
    seq(Threads(t.k), u requires 0 <= u < Threads(t.k) => ScoreBody(t, u))
  }

  lemma BodyAt(t: Task, u: nat)
    requires TaskOk(t) && u < Threads(t.k)
    ensures ScoreBodies(t)[u] == ScoreBody(t, u)
  {
  }

  /** The reduction cell of each warp. */
  ghost function WarpCells(k: Kernel): (r: seq<nat>)
    ensures |r| == k.warps && forall w | 0 <= w < |r| :: r[w] == RedCell(k, w)
  {
    seq(k.warps, w requires 0 <= w < k.warps => RedCell(k, w))
  }

  ghost function Fresh(t: Task): Regs { Regs(t.a.low, 0.0, 0.0) }

  lemma ScoreInRange(t: Task, u: nat, n: nat)
    requires TaskOk(t) && u < Threads(t.k) && |t.keys| <= n
    ensures InRange(ScoreBody(t, u), n)
  {
  }

  lemma ScoreTeamOk(t: Task, n: nat)
    requires TaskOk(t) && n >= SharedCells(t.k)
    ensures TeamOk(ScoreBodies(t), n, t.k.lanes, WarpCells(t.k))
  {
    var bodies, cells := ScoreBodies(t), WarpCells(t.k);
    TaskFits(t);
    assert |bodies| == |cells| * t.k.lanes;
    hide TaskOk, KernelOk, ScoreBody, ScoreBodies, InRange, Threads, Cells, SharedCells, WarpCells, RedCell;
    forall u | 0 <= u < |bodies| ensures InRange(bodies[u], n) {
      BodyAt(t, u);
      ScoreInRange(t, u, n);
    }
    forall w | 0 <= w < |cells| ensures cells[w] < n {
      RedFits(t.k, w);
    }
  }

  /** The thread that scores a token, and so owns its cell; nobody owns the other cells. */
  ghost function ScoringThread(k: Kernel, c: nat, a: nat): nat {
    if KernelOk(k) && a < c then Digits(WarpOf(k, a), k.lanes, LaneOf(k, a)) else Threads(k)
  }

  ghost function ScoreOwner(t: Task): nat -> nat {
    (a: nat) => ScoringThread(t.k, |t.keys|, a)
  }

  /** No token is scored by two threads. */
  lemma ScoreRaceFree(t: Task)
    requires TaskOk(t)
    ensures RaceFree(ScoreBodies(t))
  {
    var bodies, owner := ScoreBodies(t), ScoreOwner(t);
    assert KernelOk(t.k);
    hide TaskOk, KernelOk, ScoreBody, ScoreAct, WarpOf, LaneOf, Threads, GroupOf, TidOf;
    forall u, j | 0 <= u < |bodies| && 0 <= j < |bodies[u]| ensures KeepsTo(bodies[u][j], owner, u, |bodies|) {
      ThreadToken(t, u, j);
      ThreadDigits(u, t.k.lanes);
    }
    OwnedRaceFree(bodies, owner);
  }

  lemma ScoreCellsFree(t: Task)
    requires TaskOk(t)
    ensures CellsFree(ScoreBodies(t), WarpCells(t.k))
  {
    var bodies := ScoreBodies(t);
    forall w, u | 0 <= w < t.k.warps && 0 <= u < |bodies| ensures !Touches(bodies[u], RedCell(t.k, w)) {
      forall j | 0 <= j < |bodies[u]| ensures Clear(RedCell(t.k, w), bodies[u][j]) {
        assert bodies[u][j] == ScoreAct(t, ThreadTokens(t, u)[j]);
      }
    }
  }

  // ---------------------------------------------------------------- registers

  ghost function ScoresAt(t: Task, toks: seq<nat>): (r: seq<real>)
    requires TaskOk(t) && forall j | 0 <= j < |toks| :: toks[j] < |t.keys|
    ensures |r| == |toks|
  {
    seq(|toks|, j requires 0 <= j < |toks| => TaskScores(t)[toks[j]])
  }

  lemma ScoresFit(t: Task, toks: seq<nat>)
    requires TaskOk(t) && forall j | 0 <= j < |toks| :: toks[j] < |t.keys|
    ensures AllFit(Max(t.a.low), ScoresAt(t, toks)) && AllFit(Max(t.a.low), TaskScores(t))
  {
    forall x | 0 <= x < |t.keys| ensures t.a.low < TaskScores(t)[x] {
      assert t.a.low < Scores(t.a, t.keys)[x];
    }
    forall j | 0 <= j < |toks| ensures Admits(Max(t.a.low), ScoresAt(t, toks)[j]) {
      var x := toks[j];
      assert t.a.low < TaskScores(t)[x];
    }
  }

  lemma ScoresNext(t: Task, toks: seq<nat>, n: nat)
    requires TaskOk(t) && n < |toks| && forall j | 0 <= j < |toks| :: toks[j] < |t.keys|
    ensures Fold(Max(t.a.low), ScoresAt(t, toks[..n + 1]))
         == Combine(Max(t.a.low), Fold(Max(t.a.low), ScoresAt(t, toks[..n])), TaskScores(t)[toks[n]])
  {
    ScoresFit(t, toks[..n]);
    ScoresFit(t, []);
    var x := toks[n];
    FoldAppend(Max(t.a.low), ScoresAt(t, toks[..n]), TaskScores(t)[x]);
    assert ScoresAt(t, toks[..n + 1]) == ScoresAt(t, toks[..n]) + [TaskScores(t)[x]];
  }

  lemma NoScores(t: Task, p: Code, mem: seq<real>)
    requires TaskOk(t)
    ensures InRange(p[..0], |mem|) && Alone(p[..0], Fresh(t), mem).0.max == Fold(Max(t.a.low), ScoresAt(t, []))
  {
    assert p[..0] == [];
  }

  /** A thread's register ends as the maximum of the scores it computed. */
  lemma {:induction false} ScoreRegs(t: Task, u: nat, mem: seq<real>, n: nat)
    requires TaskOk(t) && u < Threads(t.k) && |t.keys| <= |mem| && n <= |ThreadTokens(t, u)|
    ensures InRange(ScoreBody(t, u)[..n], |mem|) && forall j | 0 <= j < n :: ThreadTokens(t, u)[..n][j] < |t.keys|
    ensures Alone(ScoreBody(t, u)[..n], Fresh(t), mem).0.max == Fold(Max(t.a.low), ScoresAt(t, ThreadTokens(t, u)[..n]))
    decreases n
  {
    hide TaskOk, KernelOk, Threads, ScoreBody, ThreadTokens, ScoreAct, InRange, Alone, Act, Fold, ScoresAt, TaskScores, Combine;
    var p, toks := ScoreBody(t, u), ThreadTokens(t, u);
    ScoreInRange(t, u, |mem|);
    assert forall j | 0 <= j < |toks| :: toks[j] < |t.keys| && p[j] == ScoreAct(t, toks[j]);
    PrefixInRange(p, |mem|, n);
    if n == 0 {
      NoScores(t, p, mem);
      assert toks[..0] == [] && p[..0] == [];
    } else {
      ScoreRegs(t, u, mem, n - 1);
      AloneStep(p, Fresh(t), mem, n - 1);
      var r := Alone(p[..n - 1], Fresh(t), mem);
      ScoreActs(t, toks[n - 1], r.0, r.1);
      ScoresNext(t, toks, n - 1);
    }
  }

  lemma ThreadMax(t: Task, u: nat, mem: seq<real>)
    requires TaskOk(t) && u < Threads(t.k) && |t.keys| <= |mem|
    ensures InRange(ScoreBody(t, u), |mem|)
    ensures var m := Alone(ScoreBody(t, u), Fresh(t), mem).0.max;
            && t.a.low <= m && (m == t.a.low || exists x :: 0 <= x < |t.keys| && TaskScores(t)[x] == m)
            && (forall x | 0 <= x < |t.keys| && WarpOf(t.k, x) == GroupOf(u, t.k.lanes) && LaneOf(t.k, x) == TidOf(u, t.k.lanes) ::
                  TaskScores(t)[x] <= m)
  {
    hide TaskOk, KernelOk, ScoreBody, Alone, InRange, Fold, ScoresAt, TaskScores, WarpOf, LaneOf, GroupOf, TidOf, Threads, TokensFrom;
    TaskFits(t);
    var p, toks := ScoreBody(t, u), ThreadTokens(t, u);
    ScoreInRange(t, u, |mem|);
    ScoreRegs(t, u, mem, |toks|);
    assert p[..|toks|] == p && toks[..|toks|] == toks;
    var v := ScoresAt(t, toks);
    var m := Alone(p, Fresh(t), mem).0.max;
    ScoresFit(t, toks);
    FoldIsMax(t.a.low, v);
    ScoresAtIs(t, toks);
    if m != t.a.low {
      var j :| 0 <= j < |v| && v[j] == m;
      assert TaskScores(t)[toks[j]] == m;
    }
    forall x | 0 <= x < |t.keys| && WarpOf(t.k, x) == GroupOf(u, t.k.lanes) && LaneOf(t.k, x) == TidOf(u, t.k.lanes)
      ensures TaskScores(t)[x] <= m
    {
      var j := TokenIn(t.k, |t.keys|, x);
      assert toks[j] == x && v[j] == TaskScores(t)[x];
    }
  }

  lemma ScoresAtIs(t: Task, toks: seq<nat>)
    requires TaskOk(t) && forall j | 0 <= j < |toks| :: toks[j] < |t.keys|
    ensures forall j | 0 <= j < |toks| :: ScoresAt(t, toks)[j] == TaskScores(t)[toks[j]]
  {
  }

  // ---------------------------------------------------------------- the result

  ghost function ScoreTeam(t: Task): Team
    requires TaskOk(t)
  {
    Team(Max(t.a.low), ScoreBodies(t), t.k.lanes, WarpCells(t.k))
  }

  ghost function RedValues(k: Kernel, mem: seq<real>): (r: seq<real>)
    requires KernelOk(k) && |mem| == Cells(k)
    ensures |r| == k.warps
  {
    seq(k.warps, w requires 0 <= w < k.warps => (RedFits(k, w); mem[RedCell(k, w)]))
  }

  lemma RedFits(k: Kernel, i: nat)
    requires i < 128
    ensures k.maxSeq <= RedCell(k, i) < SharedCells(k) <= Cells(k)
  {
  }

  /** A lane's register is below its warp's maximum, which is the lower limit or one of the scores. */
  lemma WarpMax(t: Task, mem: seq<real>, w: nat)
    requires TaskOk(t) && |mem| == Cells(t.k) && w < t.k.warps && TeamOk(ScoreBodies(t), |mem|, t.k.lanes, WarpCells(t.k))
    ensures var m := GroupFold(Max(t.a.low), ScoreBodies(t), Fresh(t), mem, t.k.lanes, WarpCells(t.k), w);
            && t.a.low <= m && (m == t.a.low || exists x :: 0 <= x < |t.keys| && TaskScores(t)[x] == m)
            && (forall x | 0 <= x < |t.keys| && WarpOf(t.k, x) == w :: TaskScores(t)[x] <= m)
  {
    var op, bodies, lanes := Max(t.a.low), ScoreBodies(t), t.k.lanes;
    GroupFits(bodies, |mem|, lanes, WarpCells(t.k), w);
    var v := LaneValues(op, bodies, Fresh(t), mem, lanes, w);
    GroupFolds(op, bodies, Fresh(t), mem, lanes, WarpCells(t.k), w);
    assert KernelOk(t.k);
    hide TeamOk, ScoreBodies, ScoreBody, WarpOf, LaneOf, KernelOk, TaskOk, TaskScores, GroupFold, LaneValues, Digits, Fold;
    forall l | 0 <= l < lanes
      ensures t.a.low <= v[l] && (v[l] == t.a.low || exists x :: 0 <= x < |t.keys| && TaskScores(t)[x] == v[l])
      ensures forall x | 0 <= x < |t.keys| && WarpOf(t.k, x) == w && LaneOf(t.k, x) == l :: TaskScores(t)[x] <= v[l]
    {
      LaneMax(t, mem, w, l);
    }
    FoldIsMax(t.a.low, v);
    forall x | 0 <= x < |t.keys| && WarpOf(t.k, x) == w ensures TaskScores(t)[x] <= Fold(op, v) {
      var j := TokenIn(t.k, |t.keys|, x);
      assert v[LaneOf(t.k, x)] <= Fold(op, v);
    }
  }

  lemma LaneMax(t: Task, mem: seq<real>, w: nat, l: nat)
    requires TaskOk(t) && |mem| == Cells(t.k) && w < t.k.warps && l < t.k.lanes
    requires TeamOk(ScoreBodies(t), |mem|, t.k.lanes, WarpCells(t.k)) && Digits(w, t.k.lanes, 0) + t.k.lanes <= |ScoreBodies(t)|
    ensures var m := LaneValues(Max(t.a.low), ScoreBodies(t), Fresh(t), mem, t.k.lanes, w)[l];
            && t.a.low <= m && (m == t.a.low || exists x :: 0 <= x < |t.keys| && TaskScores(t)[x] == m)
            && (forall x | 0 <= x < |t.keys| && WarpOf(t.k, x) == w && LaneOf(t.k, x) == l :: TaskScores(t)[x] <= m)
  {
    hide TaskOk, KernelOk, TeamOk, ScoreBody, WarpOf, LaneOf, Digits, GroupOf, TidOf, Alone, TaskScores, InRange, ScoreBodies, LaneValues,
         Threads, Cells;
    TaskFits(t);
    var u := Digits(w, t.k.lanes, l);
    WarpThread(t.k, w, l);
    BodyAt(t, u);
    ThreadMax(t, u, mem);
    LaneOfGroup(Max(t.a.low), ScoreBodies(t), Fresh(t), mem, t.k.lanes, WarpCells(t.k), w, l, u, ScoreBody(t, u));
  }

  /** After the interval: scores in place, and warp maxima whose maximum is that of all scores. */
  ghost predicate Scored(t: Task, mem: seq<real>, after: seq<real>)
    requires TaskOk(t)
  {
    && |after| == |mem| == Cells(t.k)
    && (forall x | 0 <= x < |t.keys| :: after[x] == TaskScores(t)[x])
    && AllFit(Max(t.a.low), RedValues(t.k, after))
    && Fold(Max(t.a.low), RedValues(t.k, after)) == Fold(Max(t.a.low), TaskScores(t))
    && (forall a: nat | t.k.maxSeq + 128 <= a < |mem| :: after[a] == mem[a])
  }

  /** Whatever the schedule, the interval does this. */
  lemma ScoresAnySchedule(t: Task, mem: seq<real>, after: seq<real>)
    requires TaskOk(t) && |mem| == Cells(t.k)
    requires TeamReaches(ScoreTeam(t), Fresh(t), mem, after)
    ensures Scored(t, mem, after)
  {
    hide TaskOk, KernelOk, Threads, Cells, ScoreBody, ScoreBodies, TeamOk, CellsFree, RaceFree, TeamReaches, GroupFold, Alone, InRange, Fold,
         WarpCells, RedCell, AllFit, Writes, Digits, RedValues, TaskScores;
    var op, bodies, cells := Max(t.a.low), ScoreBodies(t), WarpCells(t.k);
    TaskFits(t);
    ScoreRaceFree(t);
    ScoreCellsFree(t);
    TeamResult(ScoreTeam(t), Fresh(t), mem, after);
    forall x | 0 <= x < |t.keys| ensures after[x] == TaskScores(t)[x] {
      var u := ScoreCell(t, mem, x);
      BodyAt(t, u);
    }
    forall w | 0 <= w < t.k.warps ensures RedCell(t.k, w) < |after| && cells[w] == RedCell(t.k, w) {
      RedFits(t.k, w);
    }
    RedsAreMax(t, mem, after);
    forall a: nat | t.k.maxSeq + 128 <= a < |mem| ensures after[a] == mem[a] {
      NotWarpCell(t.k, a);
      forall u | 0 <= u < |bodies| ensures !Writes(bodies[u], a) {
        BodyAt(t, u);
        ScoreKeeps(t, u, a);
      }
    }
  }

  lemma NotWarpCell(k: Kernel, a: nat)
    requires k.warps <= 126 && k.maxSeq + 128 <= a
    ensures a !in WarpCells(k)
  {
  }

  lemma ScoreKeeps(t: Task, u: nat, a: nat)
    requires TaskOk(t) && u < Threads(t.k) && t.k.maxSeq <= a
    ensures !Writes(ScoreBody(t, u), a)
  {
  }

  /** The thread that scores token `x` leaves its score in its cell. */
  lemma ScoreCell(t: Task, mem: seq<real>, x: nat) returns (u: nat)
    requires TaskOk(t) && |mem| == Cells(t.k) && x < |t.keys|
    ensures u < Threads(t.k) && InRange(ScoreBody(t, u), |mem|) && Writes(ScoreBody(t, u), x)
    ensures Alone(ScoreBody(t, u), Fresh(t), mem).1[x] == TaskScores(t)[x]
  {
    hide TaskOk, KernelOk, WarpOf, LaneOf, GroupOf, TidOf, Digits, Threads, ScoreAct, TaskScores, Cells, TokensFrom;
    TaskFits(t);
    var j := TokenIn(t.k, |t.keys|, x);
    u := Digits(WarpOf(t.k, x), t.k.lanes, LaneOf(t.k, x));
    WarpThread(t.k, WarpOf(t.k, x), LaneOf(t.k, x));
    assert ThreadTokens(t, u)[j] == x;
    hide ThreadTokens;
    var p := ScoreBody(t, u);
    ScoreInRange(t, u, |mem|);
    assert p[j] == ScoreAct(t, x);
    assert Writes(p, x);
    forall i, r: Regs | 0 <= i < |p| && p[i].dst == Some(x) ensures p[i].out(r) == TaskScores(t)[x] {
      assert p[i] == ScoreAct(t, ThreadTokens(t, u)[i]);
      ScoreActs(t, x, r, mem);
    }
    SameWrites(p, Fresh(t), mem, x, TaskScores(t)[x]);
  }

  lemma RedsAreMax(t: Task, mem: seq<real>, after: seq<real>)
    requires TaskOk(t) && |mem| == |after| == Cells(t.k) && TeamOk(ScoreBodies(t), |mem|, t.k.lanes, WarpCells(t.k))
    requires forall w | 0 <= w < t.k.warps ::
               RedCell(t.k, w) < |after| && after[RedCell(t.k, w)]
                 == GroupFold(Max(t.a.low), ScoreBodies(t), Fresh(t), mem, t.k.lanes, WarpCells(t.k), w)
    ensures AllFit(Max(t.a.low), RedValues(t.k, after))
    ensures Fold(Max(t.a.low), RedValues(t.k, after)) == Fold(Max(t.a.low), TaskScores(t))
  {
    var low, v, scores := t.a.low, RedValues(t.k, after), TaskScores(t);
    assert KernelOk(t.k);
    hide GroupFold, TeamOk, ScoreBodies, KernelOk, WarpOf, LaneOf;
    forall w | 0 <= w < |v|
      ensures low <= v[w] && (v[w] == low || exists x :: 0 <= x < |scores| && scores[x] == v[w])
      ensures forall x | 0 <= x < |scores| && WarpOf(t.k, x) == w :: scores[x] <= v[w]
    {
      WarpMax(t, mem, w);
    }
    ScoresFit(t, []);
    MaxFrom(low, v, 0);
    StrideFits(Max(low), v, 0, 1);
    var m := Fold(Max(low), v);
    forall x | 0 <= x < |scores| ensures scores[x] <= m {
      var j := TokenIn(t.k, |t.keys|, x);
      assert v[WarpOf(t.k, x)] <= m;
    }
    MaxIs(low, scores, m);
  }
}
