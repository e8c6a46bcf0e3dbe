/** Short runs from an empty pool: one frees a live slot, one loses a slot for good, one gets it back. */
module RunnerWitnesses {
  import opened PrefixMap
  import opened Results
  import opened KVPool
  import opened Transformer
  import opened RadixEvict
  import opened RunnerSpec
  import opened RunnerSafety
  import opened RunnerRuns
  import opened RunnerSlots

  // ---------------------------------------------------------------- steps on one-token prompts

  lemma PlanMissing<R>(s: State<R>, t: Token, free: seq<Slot>, x: Slot)
    requires [t] !in s.entries && s.free == free + [x]
    ensures CanPrefill(s, [t]) && PlanPrefill(s, [t]) == Plan([], [x], free)
  {
    assert [t][..1] == [t];
    assert LongestMatch(s.entries, [t]) == 0;
    assert s.free[|s.free| - 1..] == [x] && s.free[..|s.free| - 1] == free;
  }

  lemma PlanHit<R>(s: State<R>, t: Token)
    requires [t] in s.entries
    ensures CanPrefill(s, [t]) && PlanPrefill(s, [t]) == Plan([], [s.entries[[t]]], s.free)
  {
    assert [t][..1] == [t];
    assert LongestMatch(s.entries, [t]) == 1;
    assert SlotsOf(s.entries, [t], 1) == [s.entries[[t]]];
  }

  lemma InsertOne(e: Entries, t: Token, x: Slot)
    ensures InsertAll(e, [t], [x]) == if [t] in e then e else e[[t] := x]
  {
    forall p | p in Prefixes([t]) ensures p == [t] {
    }
    assert [t] in Prefixes([t]);
  }

  lemma InsertTwo(e: Entries, t: Token, u: Token, x: Slot, y: Slot)
    requires [t] in e
    ensures InsertAll(e, [t, u], [x, y]) == if [t, u] in e then e else e[[t, u] := y]
  {
    forall p | p in Prefixes([t, u]) ensures p == [t] || p == [t, u] {
      assert p == [t, u][..|p|];
    }
    assert [t, u] in Prefixes([t, u]);
  }

  /** A prefill of an uncached token takes the last free slot. */
  lemma PrefillMissing<R>(m: Model, s: State<R>, r: R, t: Token, free: seq<Slot>, x: Slot) returns (step: Step<R>)
    requires RunnerInv(m, s) && r !in s.live && [t] !in s.entries && s.free == free + [x]
    ensures Next(m, s, step) && RunnerInv(m, step.after) && step.event == Prefill(r, [t])
    ensures step.after.free == free && step.after.entries == s.entries[[t] := x]
    ensures step.after.live == s.live[r := Req([t], [], [x])] && step.after.holds == s.holds[x := [t]]
    ensures step.after.guarded == s.guarded && step.after.size == s.size
  {
    hide *;
    InvBase(m, s);
    PlanMissing(s, t, free, x);
    assert [] + [x] == [x];
    PrefillTakesOne(m, s, r, t, free, x);
    PrefillStep(m, s, r, [t]);
    step := Step(Prefill(r, [t]), AfterPrefill(m, s, r, [t]), Some(PrefillLogits(m, s, [t])));
  }

  lemma PrefillTakesOne<R>(m: Model, s: State<R>, r: R, t: Token, free: seq<Slot>, x: Slot)
    requires Base(m, s) && CanPrefill(s, [t]) && PlanPrefill(s, [t]) == Plan([], [x], free)
    ensures var u := AfterPrefill(m, s, r, [t]);
            && u.free == free && u.entries == (if [t] in s.entries then s.entries else s.entries[[t] := x])
            && u.live == s.live[r := Req([t], [], [x])] && u.holds == s.holds[x := [t]]
            && u.guarded == s.guarded && u.size == s.size && u.rows == PrefillRows(m, s, [t])
  {
    hide *;
    var p := PlanPrefill(s, [t]);
    assert p.prefix + p.news == [x] && p.news == [x] && |p.prefix| == 0;
    HoldingOne(s.holds, x, [t], 0);
    InsertOne(s.entries, t, x);
    AfterPrefillIs(m, s, r, [t]);
  }

  /** A prefill of a cached token takes no slot. */
  lemma PrefillCached<R>(m: Model, s: State<R>, r: R, t: Token) returns (step: Step<R>)
    requires RunnerInv(m, s) && r !in s.live && [t] in s.entries
    ensures Next(m, s, step) && RunnerInv(m, step.after) && step.event == Prefill(r, [t])
    ensures step.after.free == s.free && step.after.entries == s.entries
    ensures var x := s.entries[[t]];
            step.after.live == s.live[r := Req([t], [], [x])] && step.after.holds == s.holds[x := [t]]
    ensures step.after.guarded == s.guarded && step.after.size == s.size
  {
    hide *;
    InvBase(m, s);
    PlanHit(s, t);
    PrefillTakesOne(m, s, r, t, s.free, s.entries[[t]]);
    PrefillStep(m, s, r, [t]);
    step := Step(Prefill(r, [t]), AfterPrefill(m, s, r, [t]), Some(PrefillLogits(m, s, [t])));
  }

  /** The first decode after a one-token prompt takes the last free slot, cached key or not. */
  lemma DecodeFirst<R>(m: Model, s: State<R>, r: R, t: Token, u: Token, free: seq<Slot>, x: Slot, y: Slot)
    returns (step: Step<R>)
    requires RunnerInv(m, s) && r in s.live && s.live[r] == Req([t], [], [x]) && [t] in s.entries && s.free == free + [y]
    ensures Next(m, s, step) && RunnerInv(m, step.after) && step.event == Decode(r, u)
    ensures step.after.free == free
    ensures step.after.entries == if [t, u] in s.entries then s.entries else s.entries[[t, u] := y]
    ensures step.after.live == s.live[r := Req([t], [u], [x, y])] && step.after.holds == s.holds[y := [t, u]]
    ensures step.after.guarded == s.guarded && step.after.size == s.size
  {
    hide *;
    InvBase(m, s);
    InsertTwo(s.entries, t, u, x, y);
    AfterDecodeIs(m, s, r, u, free, y);
    step := Step(Decode(r, u), AfterDecode(m, s, r, u), Some(DecodeLogits(m, s, r, u)));
    DecodeStep(m, s, r, u);
    assert [t] + ([] + [u]) == [t, u] && [x] + [y] == [x, y] && [] + [u] == [u];
  }

  // ---------------------------------------------------------------- a live slot is freed

  /** After one prefill and one decode, the generated token's slot is in the tree and on no prompt. */
  lemma Exposed<R>(m: Model, rows: seq<Row>, r: R) returns (run: seq<Step<R>>)
    requires |rows| == |m.layers| && forall l | 0 <= l < |rows| :: |rows[l]| == 4
    ensures IsRun(m, EmptyPool(m, 3, rows), run)
    ensures var s := Last(EmptyPool(m, 3, rows), run);
            && RunnerInv(m, s) && s.guarded && s.size == 3 && s.free == [3] && s.entries == map[[1] := 1, [1, 2] := 2]
            && s.live == map[r := Req([1], [2], [1, 2])] && s.holds == map[1 := [1], 2 := [1, 2]]
  {
    hide RunnerInv, Next;
    var start := EmptyPool<R>(m, 3, rows);
    EmptyPoolInv<R>(m, 3, rows);
    assert start.free == [3, 2, 1];
    assert [3, 2, 1] == [3, 2] + [1] && [3, 2] == [3] + [2];
    var a := PrefillMissing(m, start, r, 1, [3, 2], 1);
    var b := DecodeFirst(m, a.after, r, 1, 2, [3], 1, 2);
    run := [] + [a] + [b];
    Extend(m, start, [], a);
    Extend(m, start, [a], b);
  }

  lemma RemoveGenerated(e: Entries, h: map<Slot, Path>)
    requires e == map[[1] := 1, [1, 2] := 2]
    ensures Removed(e, map[[1] := 1], [[1, 2]], [2]) && PrefixClosed(map[[1] := 1]) && h - (set x | x in [2]) == h - {2}
  {
    assert |[1, 2]| != |[1]|;
    assert (set p | p in [[1, 2]]) == {[1, 2]};
    assert (set x | x in [2]) == {2};
  }

  lemma ReadsGenerated<R>(s: State<R>, r: R)
    requires s.entries == map[[1] := 1, [1, 2] := 2] && s.live == map[r := Req([1], [2], [1, 2])]
    ensures !SparesLive(s, [2]) && !Sheltered(s) && forall j | 0 < j <= |[1]| :: [1][..j] == [1]
  {
    assert 2 in [1, 2] && 2 in [2];
    assert [1] + [2] == [1, 2] == [1, 2][..1 + 1];
    assert ReadsCached(s, r, 1);
    assert |[1, 2]| > |[1]|;
    assert !Protected(s, Tokens(s.live[r])[..1 + 1]);
  }

  /** What an eviction of the generated token leaves, while its request is live. */
  lemma EvictGenerated<R>(s: State<R>, r: R)
    requires s.guarded && s.free == [3] && s.entries == map[[1] := 1, [1, 2] := 2]
    requires s.live == map[r := Req([1], [2], [1, 2])] && s.holds == map[1 := [1], 2 := [1, 2]]
    ensures var u := AfterEvict(s, map[[1] := 1], [2]);
            && IsEviction(s, u, [[1, 2]], [2]) && !u.guarded && !Sheltered(s)
            && u.free == [3, 2] && u.entries == map[[1] := 1] && u.live == s.live
            && u.rows == s.rows && u.holds == map[1 := [1]]
  {
    RemoveGenerated(s.entries, s.holds);
    ReadsGenerated(s, r);
    hide Removed, PrefixClosed, SparesLive, Sheltered;
    assert s.holds - {2} == map[1 := [1]];
  }

  /**
    A reachable harm: after prefill, decode, evict and a second prefill, two live requests read
    slot 2, which in every layer stores the pair of the second request's token only.
   */
  lemma LiveSlotReused<R>(m: Model, rows: seq<Row>, r: R, q: R) returns (run: seq<Step<R>>)
    requires |rows| == |m.layers| && (forall l | 0 <= l < |rows| :: |rows[l]| == 4) && r != q
    ensures IsRun(m, EmptyPool(m, 3, rows), run)
    ensures var s := Last(EmptyPool(m, 3, rows), run);
            && s.live == map[r := Req([1], [2], [1, 2]), q := Req([3], [], [2])]
            && |s.rows| == |m.layers| && forall l | 0 <= l < |s.rows| :: Stores(m, s.rows, 2, l, [3])
  {
    hide RunnerInv, Next, IsEviction, Stores, Sheltered;
    var start := EmptyPool<R>(m, 3, rows);
    var before := Exposed(m, rows, r);
    var s := Last(start, before);
    var u := AfterEvict(s, map[[1] := 1], [2]);
    EvictGenerated(s, r);
    var c := Step(Evict([[1, 2]], [2]), u, None);
    EvictStep(m, s, u, [[1, 2]], [2]);
    assert [3, 2] == [3] + [2];
    var d := PrefillMissing(m, u, q, 3, [3], 2);
    Extend(m, start, before, c);
    Extend(m, start, before + [c], d);
    run := before + [c] + [d];
    KVKept(m, s, u);
    StoresAlone(m, u, d, q, 3, [3], 2);
  }

  /** An eviction leaves what the remaining slots in use store. */
  lemma KVKept<R>(m: Model, s: State<R>, u: State<R>)
    requires RunnerInv(m, s) && s.guarded && u.rows == s.rows && forall x | x in u.holds :: x in s.holds && u.holds[x] == s.holds[x]
    ensures |u.rows| == |m.layers| && KVHeld(m, u.rows, u.holds)
  {
    hide KVHeld, Stores;
    KVHeldLess(m, s.rows, s.holds, u.holds);
  }

  /** A prefill of one token stores its pair in every layer. */
  lemma StoresAlone<R>(m: Model, s: State<R>, step: Step<R>, r: R, t: Token, free: seq<Slot>, x: Slot)
    requires |s.rows| == |m.layers| && KVHeld(m, s.rows, s.holds) && x !in s.holds && 1 <= x <= s.size
    requires [t] !in s.entries && s.free == free + [x] && Next(m, s, step) && step.event == Prefill(r, [t])
    ensures var rows := step.after.rows; |rows| == |m.layers| && forall l | 0 <= l < |rows| :: Stores(m, rows, x, l, [t])
  {
    NextPrefill(m, s, step, r, [t]);
    hide *;
    PlanMissing(s, t, free, x);
    PrefillTakesOne(m, s, r, t, free, x);
    StoresPlanned(m, s, t, free, x);
  }

  lemma NextPrefill<R>(m: Model, s: State<R>, step: Step<R>, r: R, prompt: Path)
    requires Next(m, s, step) && step.event == Prefill(r, prompt)
    ensures Base(m, s) && prompt != [] && CanPrefill(s, prompt) && step.after == AfterPrefill(m, s, r, prompt)
  {
    hide Base, CanPrefill, AfterPrefill, PrefillLogits;
  }

  lemma StoresPlanned<R>(m: Model, s: State<R>, t: Token, free: seq<Slot>, x: Slot)
    requires Base(m, s) && KVHeld(m, s.rows, s.holds) && x !in s.holds && 1 <= x <= s.size
    requires CanPrefill(s, [t]) && PlanPrefill(s, [t]) == Plan([], [x], free)
    ensures var rows := PrefillRows(m, s, [t]); |rows| == |m.layers| && forall l | 0 <= l < |rows| :: Stores(m, rows, x, l, [t])
  {
    hide PassFor, PlanPrefill, KVHeld, CanPrefill, FullPass, PairOf, Holds;
    var rows := PrefillRows(m, s, [t]);
    BaseIs(m, s);
    assert Ready(s, [t], [], [x]);
    ReadyPass(m, s, [t], [], [x]);
    forall l | 0 <= l < |rows| ensures Stores(m, rows, x, l, [t]) {
      StoredRow(m, s.rows, rows, [], [x], [t], l);
      StoredPair(m, l, rows[l], [], [x], [t], 0);
      assert [t][..1] == [t];
    }
  }

  // ---------------------------------------------------------------- a slot is lost

  /** Two requests with the same prompt that decode the same token leave a duplicate. */
  lemma Doubled<R>(m: Model, rows: seq<Row>, r: R, q: R) returns (run: seq<Step<R>>)
    requires |rows| == |m.layers| && (forall l | 0 <= l < |rows| :: |rows[l]| == 4) && r != q
    ensures IsRun(m, EmptyPool(m, 3, rows), run)
    ensures var s := Last(EmptyPool(m, 3, rows), run);
            && RunnerInv(m, s) && s.guarded && s.size == 3 && s.free == [] && Duplicates(s) == {3}
            && s.live == map[r := Req([1], [2], [1, 2]), q := Req([1], [2], [1, 3])]
            && s.entries == map[[1] := 1, [1, 2] := 2] && s.holds == map[1 := [1], 2 := [1, 2], 3 := [1, 2]]
  {
    hide RunnerInv, Next;
    var start := EmptyPool<R>(m, 3, rows);
    var before := Exposed(m, rows, r);
    var s := Last(start, before);
    var c := PrefillCached(m, s, q, 1);
    assert [3] == [] + [3];
    var d := DecodeFirst(m, c.after, q, 1, 2, [], 1, 3);
    Extend(m, start, before, c);
    Extend(m, start, before + [c], d);
    run := before + [c] + [d];
    var u := d.after;
    assert u.holds == map[1 := [1], 2 := [1, 2], 3 := [1, 2]];
    assert u.entries == map[[1] := 1, [1, 2] := 2];
    assert [1] != [1, 2];
  }

  /** Finishing the last request and evicting everything leaves all slots free but the duplicates. */
  lemma Drain<R>(m: Model, start: State<R>, before: seq<Step<R>>, q: R) returns (run: seq<Step<R>>)
    requires IsRun(m, start, before) && RunnerInv(m, Last(start, before)) && Last(start, before).guarded
    requires Last(start, before).live.Keys == {q}
    ensures IsRun(m, start, run)
    ensures before <= run
    ensures var s, u := Last(start, before), Last(start, run);
            u.guarded && u.live == map[] && u.entries == map[] && |u.free| == s.size - |Duplicates(s)|
  {
    var s := Last(start, before);
    hide RunnerInv, Next, Duplicates, IsEviction, OnlyPrompts, Base, Owned, IsRun, Last;
    var t := AfterFinish(s, q);
    FinishStep(m, s, q);
    FinishDuplicates(s, q);
    InvBase(m, t);
    InvOwned(m, t);
    assert t.live == map[];
    var u, removed, freed := FullEviction(m, t);
    EvictStep(m, t, u, removed, freed);
    EvictDuplicates(m, t, u, removed, freed);
    EvictedNone(t, u, removed, freed);
    var a, b := Step(Finish(q), t, None), Step(Evict(removed, freed), u, None);
    Extend(m, start, before, a);
    Extend(m, start, before + [a], b);
    run := before + [a] + [b];
    InvOwned(m, u);
    SlotsConserved(m, u);
    NothingCached(u);
  }

  lemma InvOwned<R>(m: Model, s: State<R>)
    requires RunnerInv(m, s) && s.guarded
    ensures Owned(m, s)
  {
  }

  lemma EvictedNone<R>(s: State<R>, u: State<R>, removed: seq<Path>, freed: seq<Slot>)
    requires IsEviction(s, u, removed, freed) && s.live == map[] && s.guarded
    ensures u.guarded && u.live == map[] && u.size == s.size
  {
  }

  /** A reachable loss: every request has finished, everything is evicted, and one of three slots is gone. */
  lemma SlotLost<R>(m: Model, rows: seq<Row>, r: R, q: R) returns (run: seq<Step<R>>)
    requires |rows| == |m.layers| && (forall l | 0 <= l < |rows| :: |rows[l]| == 4) && r != q
    ensures IsRun(m, EmptyPool(m, 3, rows), run)
    ensures var s := Last(EmptyPool(m, 3, rows), run);
            s.guarded && s.live == map[] && s.entries == map[] && |s.free| == 2
  {
    hide RunnerInv, Next, Duplicates;
    var start := EmptyPool<R>(m, 3, rows);
    var before := Doubled(m, rows, r, q);
    var s := Last(start, before);
    FinishStep(m, s, r);
    FinishDuplicates(s, r);
    var a := Step(Finish(r), AfterFinish(s, r), None);
    Extend(m, start, before, a);
    run := Drain(m, start, before + [a], q);
  }

  // ---------------------------------------------------------------- a slot comes back

  lemma InsertThree(e: Entries, t: Token, u: Token, w: Token, value: seq<Slot>)
    requires [t] in e && [t, u] !in e && [t, u, w] !in e && |value| == 3
    ensures InsertAll(e, [t, u, w], value) == e[[t, u] := value[1]][[t, u, w] := value[2]]
  {
    forall p | p in Prefixes([t, u, w]) ensures p == [t] || p == [t, u] || p == [t, u, w] {
      assert p == [t, u, w][..|p|];
    }
    assert [t, u] == [t, u, w][..2];
    assert [t, u] in Prefixes([t, u, w]) && [t, u, w] in Prefixes([t, u, w]);
  }

  /** A decode after the tokens before it were evicted enters them again, with the request's own slots. */
  lemma DecodeEvicted<R>(m: Model, s: State<R>, r: R, t: Token, u: Token, w: Token, free: seq<Slot>, x: Slot, y: Slot, z: Slot)
    returns (step: Step<R>)
    requires RunnerInv(m, s) && r in s.live && s.live[r] == Req([t], [u], [x, y]) && s.free == free + [z]
    requires [t] in s.entries && [t, u] !in s.entries && [t, u, w] !in s.entries
    ensures Next(m, s, step) && RunnerInv(m, step.after) && step.event == Decode(r, w)
    ensures step.after.free == free && step.after.entries == s.entries[[t, u] := y][[t, u, w] := z]
    ensures step.after.live == s.live[r := Req([t], [u, w], [x, y, z])] && step.after.holds == s.holds[z := [t, u, w]]
    ensures step.after.guarded == s.guarded && step.after.size == s.size
  {
    hide *;
    InvBase(m, s);
    InsertThree(s.entries, t, u, w, [x, y, z]);
    AfterDecodeIs(m, s, r, w, free, z);
    step := Step(Decode(r, w), AfterDecode(m, s, r, w), Some(DecodeLogits(m, s, r, w)));
    DecodeStep(m, s, r, w);
    assert [t] + ([u] + [w]) == [t, u, w] && [x, y] + [z] == [x, y, z] && [u] + [w] == [u, w];
  }

  /** Once the first request has finished, its generated token can go without harm to the second. */
  lemma EvictOther<R>(s: State<R>, q: R)
    requires s.guarded && s.free == [] && s.entries == map[[1] := 1, [1, 2] := 2]
    requires s.live == map[q := Req([1], [2], [1, 3])] && s.holds == map[1 := [1], 2 := [1, 2], 3 := [1, 2]]
    ensures var u := AfterEvict(s, map[[1] := 1], [2]);
            && IsEviction(s, u, [[1, 2]], [2]) && u.guarded && u.free == [2] && u.entries == map[[1] := 1]
            && u.live == s.live && u.holds == map[1 := [1], 3 := [1, 2]] && u.size == s.size
  {
    RemoveGenerated(s.entries, s.holds);
    assert SparesLive(s, [2]) by {
      assert s.live[q].slots == [1, 3];
    }
    assert [1][..1] == [1];
    hide Removed, PrefixClosed, SparesLive;
    assert s.holds - {2} == map[1 := [1], 3 := [1, 2]];
  }

  lemma NoneDoubled<R>(s: State<R>)
    requires s.entries == map[[1] := 1, [1, 2] := 3, [1, 2, 5] := 2] && s.holds == map[1 := [1], 2 := [1, 2, 5], 3 := [1, 2]]
    ensures Duplicates(s) == {}
  {
    assert |[1, 2]| != |[1, 2, 5]| && |[1]| != |[1, 2]|;
  }

  /**
    A duplicate that comes back: the first request has finished, its generated token is evicted, and the second
    request's next decode enters that prefix again with the duplicate; in the end all slots are free.
   */
  lemma SlotRecovered<R>(m: Model, rows: seq<Row>, r: R, q: R) returns (doubled: seq<Step<R>>, run: seq<Step<R>>)
    requires |rows| == |m.layers| && (forall l | 0 <= l < |rows| :: |rows[l]| == 4) && r != q
    ensures IsRun(m, EmptyPool(m, 3, rows), run) && doubled <= run
    ensures Duplicates(Last(EmptyPool(m, 3, rows), doubled)) == {3}
    ensures var s := Last(EmptyPool(m, 3, rows), run);
            s.guarded && s.live == map[] && s.entries == map[] && |s.free| == 3
  {
    hide RunnerInv, Next, Duplicates, IsEviction;
    var start := EmptyPool<R>(m, 3, rows);
    doubled := Doubled(m, rows, r, q);
    var s := Last(start, doubled);
    FinishStep(m, s, r);
    var t := AfterFinish(s, r);
    var u := AfterEvict(t, map[[1] := 1], [2]);
    EvictOther(t, q);
    EvictStep(m, t, u, [[1, 2]], [2]);
    assert [2] == [] + [2] && |[1, 2]| != |[1]| && |[1, 2, 5]| != |[1]|;
    var c := DecodeEvicted(m, u, q, 1, 2, 5, [], 1, 3, 2);
    var a, b := Step(Finish(r), t, None), Step(Evict([[1, 2]], [2]), u, None);
    Extend(m, start, doubled, a);
    Extend(m, start, doubled + [a], b);
    Extend(m, start, doubled + [a] + [b], c);
    assert c.after.holds == map[1 := [1], 2 := [1, 2, 5], 3 := [1, 2]];
    assert c.after.entries == map[[1] := 1, [1, 2] := 3, [1, 2, 5] := 2];
    NoneDoubled(c.after);
    run := Drain(m, start, doubled + [a] + [b] + [c], q);
  }
}
