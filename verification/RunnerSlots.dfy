/** Slots along a run: what every step does to the number of duplicates, and what a drained pool has lost. */
module RunnerSlots {
  import opened PrefixMap
  import opened Sequences
  import opened KVPool
  import opened Transformer
  import opened RunnerSpec
  import opened RunnerSafety
  import opened RunnerRuns

  // ---------------------------------------------------------------- counting

  ghost function Range(n: nat): (r: set<int>)
    ensures forall x :: x in r <==> 1 <= x <= n
    ensures |r| == n
  {
    if n == 0 then {} else Range(n - 1) + {n}
  }

  lemma {:induction false} DistinctSize<T>(s: seq<T>)
    requires Distinct(s)
    ensures |set x | x in s| == |s|
  {
    if s != [] {
      var n := |s| - 1;
      DistinctSize(s[..n]);
      assert (set x | x in s) == (set x | x in s[..n]) + {s[n]};
    }
  }

  /** A map that never repeats a value is as large as the set of its values. */
  lemma {:induction false} InjectiveSize(keys: set<Path>, e: Entries, values: set<Slot>)
    requires keys <= e.Keys
    requires forall p, q | p in keys && q in keys && e[p] == e[q] :: p == q
    requires forall p | p in keys :: e[p] in values
    requires forall x | x in values :: exists p :: p in keys && e[p] == x
    ensures |keys| == |values|
    decreases |keys|
  {
    if keys == {} {
      assert forall x :: x !in values;
      assert values == {};
    } else {
      var p :| p in keys;
      forall y | y in values - {e[p]} ensures exists q :: q in keys - {p} && e[q] == y {
        var q :| q in keys && e[q] == y;
        assert q in keys - {p};
      }
      InjectiveSize(keys - {p}, e, values - {e[p]});
    }
  }

  lemma UnionSize<T>(a: set<T>, b: set<T>, all: set<T>)
    requires a !! b && a <= all && b <= all && forall x | x in all :: x in a || x in b
    ensures |a| + |b| == |all|
  {
    assert all == a + b;
  }

  lemma PartitionSize(size: nat, free: seq<Slot>, holds: map<Slot, Path>)
    requires Partition(size, free, holds)
    ensures |free| + |holds.Keys| == size
  {
    DistinctSize(free);
    hide Distinct;
    var all := set x | x in free;
    forall x | x in Range(size) ensures x in all || x in holds.Keys {
      assert x in free || x in holds;
    }
    forall x | x in free ensures x in Range(size) && x !in holds.Keys {
      assert 1 <= x <= size;
    }
    forall x | x in holds.Keys ensures x in Range(size) {
      assert x in holds;
    }
    UnionSize(all, holds.Keys, Range(size));
  }

  /** Cached prefixes and the slots in use that are no duplicates correspond one to one. */
  lemma CachedSize<R>(s: State<R>)
    requires EntriesOwn(s.entries, s.holds)
    ensures |s.holds.Keys| == |s.entries.Keys| + |Duplicates(s)|
  {
    var e, cached := s.entries, s.holds.Keys - Duplicates(s);
    forall x | x in cached ensures exists p :: p in e.Keys && e[p] == x {
      assert s.holds[x] in e.Keys && e[s.holds[x]] == x;
    }
    forall p | p in e.Keys ensures e[p] in cached {
      assert p in e && e[p] in s.holds;
    }
    InjectiveSize(e.Keys, e, cached);
    assert s.holds.Keys == cached + Duplicates(s);
  }

  /** Free slots, cached prefixes and duplicates add up to the pool. */
  lemma SlotsConserved<R>(m: Model, s: State<R>)
    requires Owned(m, s)
    ensures |s.free| + |s.entries| + |Duplicates(s)| == s.size
  {
    PartitionSize(s.size, s.free, s.holds);
    CachedSize(s);
    assert |s.entries| == |s.entries.Keys|;
  }

  /** After a complete eviction exactly the beginnings of live prompts are cached. */
  lemma PromptsOnly<R>(m: Model, s: State<R>, p: Path)
    requires Base(m, s) && OnlyPrompts(s)
    ensures p in s.entries <==> p != [] && Protected(s, p)
  {
    if p != [] && Protected(s, p) {
      var r :| r in s.live && p <= s.live[r].prompt;
      assert Pinned(s.entries, s.live[r]) && p == s.live[r].prompt[..|p|];
    }
  }

  /** With no request left, a complete eviction leaves nothing. */
  lemma NothingCached<R>(s: State<R>)
    requires s.live == map[] && OnlyPrompts(s)
    ensures s.entries == map[]
  {
    NoneProtected(s);
    hide Protected;
    assert forall p :: p !in s.entries;
  }

  lemma NoneProtected<R>(s: State<R>)
    requires s.live == map[]
    ensures forall p :: !Protected(s, p)
  {
  }

  // ---------------------------------------------------------------- one step

  /**
    A decode takes one slot and enters every prefix of its key that is not cached, which may be several after an
    eviction. Only if the whole key is cached is there a duplicate more; a later decode may enter it yet.
   */
  lemma DecodeLeaks<R>(m: Model, s: State<R>, r: R, token: Token)
    requires Base(m, s) && Owned(m, s) && r in s.live && s.free != []
    ensures var u := AfterDecode(m, s, r, token); var key := Tokens(s.live[r]) + [token];
            && |u.free| == |s.free| - 1
            && |Duplicates(u)| == |Duplicates(s)| + 1 - (|key| - LongestMatch(s.entries, key))
            && (|Duplicates(u)| == |Duplicates(s)| + 1 <==> key in s.entries)
  {
    hide KVHeld, EntriesOwn, ReqOwns, Partition, InsertAll, CachedPass, Base, Duplicates, LongestMatch;
    var key := Tokens(s.live[r]) + [token];
    DecodeOwned(m, s, r, token);
    SlotsConserved(m, s);
    SlotsConserved(m, AfterDecode(m, s, r, token));
    BaseIs(m, s);
    DecodeKey(m, s, r, token);
    InsertSize(s.entries, key, s.live[r].slots + [s.free[|s.free| - 1]]);
    LongestMatchWhole(s.entries, key);
  }

  lemma DecodeKey<R>(m: Model, s: State<R>, r: R, token: Token)
    requires Base(m, s) && r in s.live && s.free != []
    ensures |Tokens(s.live[r]) + [token]| == |s.live[r].slots + [s.free[|s.free| - 1]]|
  {
    assert Pinned(s.entries, s.live[r]);
  }

  /** A prefill enters as many prefixes as it takes slots. */
  lemma PrefillDuplicates<R>(m: Model, s: State<R>, r: R, prompt: Path)
    requires Base(m, s) && Owned(m, s) && prompt != [] && CanPrefill(s, prompt)
    ensures |Duplicates(AfterPrefill(m, s, r, prompt))| == |Duplicates(s)|
  {
    hide *;
    var u, p := AfterPrefill(m, s, r, prompt), PlanPrefill(s, prompt);
    PrefillOwned(m, s, r, prompt);
    SlotsConserved(m, s);
    SlotsConserved(m, u);
    AfterPrefillIs(m, s, r, prompt);
    SlotsLeft(s, prompt);
    BaseIs(m, s);
    InsertSize(s.entries, prompt, p.prefix + p.news);
  }

  /** An eviction frees cached slots only, and uncaches no others. */
  lemma EvictDuplicates<R>(m: Model, s: State<R>, u: State<R>, removed: seq<Path>, freed: seq<Slot>)
    requires Owned(m, s) && IsEviction(s, u, removed, freed)
    ensures Duplicates(u) == Duplicates(s)
  {
    hide Base, KVHeld, Partition, PrefixClosed, ReqOwns, SparesLive;
    EvictMaps(s.entries, s.holds, u.entries, removed, freed);
    forall x | x in Duplicates(s) ensures x !in freed {
      forall i | 0 <= i < |freed| ensures freed[i] != x {
        assert removed[i] in s.entries && s.entries[removed[i]] == freed[i] && s.holds[freed[i]] == removed[i];
      }
    }
    assert forall x :: x in Duplicates(u) <==> x in Duplicates(s);
  }

  lemma FinishDuplicates<R>(s: State<R>, r: R)
    ensures Duplicates(AfterFinish(s, r)) == Duplicates(s)
  {
  }

  /** By how much a step raises the number of duplicates; negative when a decode enters slots again. */
  ghost function Lost<R>(s: State<R>, t: Step<R>): int {
    match t.event
    case Decode(r, token) =>
      if r in s.live then
        var key := Tokens(s.live[r]) + [token];
        1 - (|key| - LongestMatch(s.entries, key))
      else 0
    case _ => 0
  }

  lemma StepDuplicates<R>(m: Model, s: State<R>, t: Step<R>)
    requires RunnerInv(m, s) && s.guarded && Next(m, s, t)
    ensures |Duplicates(t.after)| == |Duplicates(s)| + Lost(s, t)
  {
    hide Base, Owned, Duplicates, AfterPrefill, AfterDecode, PrefillLogits, DecodeLogits, LongestMatch, IsEviction, CanPrefill;
    match t.event {
      case Prefill(r, prompt) => PrefillDuplicates(m, s, r, prompt);
      case Decode(r, token) => DecodeLeaks(m, s, r, token);
      case Finish(r) => FinishDuplicates(s, r);
      case Evict(removed, freed) => EvictDuplicates(m, s, t.after, removed, freed);
      case Refused =>
    }
  }

  // ---------------------------------------------------------------- whole runs

  /** The sum over a run: one for each of its decodes, less the prefixes these entered. */
  ghost function TotalLost<R>(s: State<R>, run: seq<Step<R>>): int {
    if run == [] then 0
    else TotalLost(s, run[..|run| - 1]) + Lost(Last(s, run[..|run| - 1]), run[|run| - 1])
  }

  lemma GuardedBefore<R>(m: Model, s: State<R>, run: seq<Step<R>>)
    requires IsRun(m, s, run) && run != [] && Last(s, run).guarded
    ensures Last(s, run[..|run| - 1]).guarded
  {
    StepGuards(m, Last(s, run[..|run| - 1]), run[|run| - 1]);
  }

  /** Duplicates are what the decodes of a run leave over, no matter how prefills, finishes and evictions come between. */
  lemma {:induction false} RunDuplicates<R>(m: Model, s: State<R>, run: seq<Step<R>>)
    requires RunnerInv(m, s) && IsRun(m, s, run) && Last(s, run).guarded
    ensures |Duplicates(Last(s, run))| == |Duplicates(s)| + TotalLost(s, run)
    decreases |run|
  {
    hide RunnerInv, Next, Duplicates, Lost;
    if run != [] {
      var n := |run| - 1;
      GuardedBefore(m, s, run);
      RunDuplicates(m, s, run[..n]);
      RunExact(m, s, run[..n]);
      StepDuplicates(m, Last(s, run[..n]), run[n]);
    }
  }

  /** At any time in a guarded run from an empty pool: what is free, what is cached, and what the decodes left over. */
  lemma RunConserves<R>(m: Model, size: nat, rows: seq<Row>, run: seq<Step<R>>)
    requires |rows| == |m.layers| && forall l | 0 <= l < |rows| :: |rows[l]| == size + 1
    requires IsRun(m, EmptyPool(m, size, rows), run) && Last(EmptyPool(m, size, rows), run).guarded
    ensures var start := EmptyPool(m, size, rows); var s := Last(start, run);
            s.size == size && |s.free| + |s.entries| + TotalLost(start, run) == size
  {
    hide Base, Owned, Duplicates, Next, TotalLost;
    var start := EmptyPool<R>(m, size, rows);
    EmptyPoolInv<R>(m, size, rows);
    RunExact(m, start, run);
    RunSize(m, start, run);
    RunDuplicates(m, start, run);
    SlotsConserved(m, Last(start, run));
    NoDuplicates<R>(m, size, rows);
  }

  lemma NoDuplicates<R>(m: Model, size: nat, rows: seq<Row>)
    ensures Duplicates(EmptyPool<R>(m, size, rows)) == {}
  {
  }

  /** With every request finished and everything evicted, the pool is short of exactly what the run's decodes left over. */
  lemma DrainedRun<R>(m: Model, size: nat, rows: seq<Row>, run: seq<Step<R>>)
    requires |rows| == |m.layers| && forall l | 0 <= l < |rows| :: |rows[l]| == size + 1
    requires IsRun(m, EmptyPool(m, size, rows), run)
    ensures var start := EmptyPool(m, size, rows); var s := Last(start, run);
            s.guarded && s.live == map[] && OnlyPrompts(s) ==> s.entries == map[] && |s.free| == size - TotalLost(start, run)
  {
    hide OnlyPrompts, TotalLost, IsRun, EmptyPool;
    var s := Last(EmptyPool(m, size, rows), run);
    if s.guarded && s.live == map[] && OnlyPrompts(s) {
      RunConserves(m, size, rows, run);
      NothingCached(s);
    }
  }

  lemma {:induction false} RunSize<R>(m: Model, s: State<R>, run: seq<Step<R>>)
    requires IsRun(m, s, run)
    ensures Last(s, run).size == s.size
    decreases |run|
  {
    if run != [] {
      var n := |run| - 1;
      RunSize(m, s, run[..n]);
      StepGuards(m, Last(s, run[..n]), run[n]);
    }
  }

  // ---------------------------------------------------------------- lost for good

  /** A duplicate that no live request reads. */
  ghost predicate Orphan<R>(s: State<R>, x: Slot) {
    x in Duplicates(s) && forall r | r in s.live :: x !in s.live[r].slots
  }

  /** A duplicate is in use, and no cached prefix has it. */
  lemma OrphanIs<R>(m: Model, s: State<R>, x: Slot)
    requires Owned(m, s) && x in Duplicates(s)
    ensures x in s.holds && x !in s.free && forall p | p in s.entries :: s.entries[p] != x
  {
    hide KVHeld, ReqOwns;
    assert x in s.holds;
    forall p | p in s.entries ensures s.entries[p] != x {
      assert s.holds[s.entries[p]] == p;
    }
  }

  /** A prefill uses free slots and cached ones only. */
  lemma PlanSpares<R>(s: State<R>, prompt: Path, x: Slot)
    requires prompt != [] && CanPrefill(s, prompt) && x !in s.free && forall p | p in s.entries :: s.entries[p] != x
    ensures var p := PlanPrefill(s, prompt); x !in p.prefix + p.news
  {
    hide LongestMatch, SlotsOf, PlanPrefill, CanPrefill;
    var p, n := PlanPrefill(s, prompt), LongestMatch(s.entries, prompt);
    var slots := p.prefix + p.news;
    PlanSlots(s, prompt);
    forall i | 0 <= i < |slots| ensures slots[i] != x {
      if i < n {
        CachedSlot(s.entries, prompt, i + 1);
        assert slots[i] == slots[..n][i];
      } else {
        assert slots[i] == p.news[i - n] && p.news[i - n] in s.free;
      }
    }
  }

  /** A step that enters other slots, for a request of these slots only. */
  lemma OrphanInsert<R>(s: State<R>, u: State<R>, x: Slot, key: Path, value: seq<Slot>, r: R, q: Req)
    requires Orphan(s, x) && x !in value && |key| == |value| && u.entries == InsertAll(s.entries, key, value)
    requires x in s.holds && x in u.holds && u.holds[x] == s.holds[x] && u.live == s.live[r := q] && q.slots == value
    ensures Orphan(u, x)
  {
    var p := s.holds[x];
    if p in u.entries && p !in s.entries {
      assert p in Prefixes(key) && u.entries[p] == value[|p| - 1] && value[|p| - 1] in value;
    }
  }

  lemma OrphanPrefill<R>(m: Model, s: State<R>, r: R, prompt: Path, x: Slot)
    requires Base(m, s) && Owned(m, s) && prompt != [] && CanPrefill(s, prompt) && Orphan(s, x)
    ensures Orphan(AfterPrefill(m, s, r, prompt), x)
  {
    OrphanIs(m, s, x);
    hide Base, Owned, CanPrefill, PlanPrefill, AfterPrefill, InsertAll, Holding, Ready, PrefillRows, Duplicates;
    var u, p := AfterPrefill(m, s, r, prompt), PlanPrefill(s, prompt);
    AfterPrefillIs(m, s, r, prompt);
    PrefillReady(m, s, prompt);
    HoldingExtends(s, prompt, p.prefix, p.news);
    PlanSpares(s, prompt, x);
    hide Orphan;
    OrphanInsert(s, u, x, prompt, p.prefix + p.news, r, Req(prompt, [], p.prefix + p.news));
  }

  lemma OrphanTaken<R>(m: Model, s: State<R>, x: Slot, r: R, y: Slot)
    requires Owned(m, s) && Orphan(s, x) && r in s.live && y in s.free
    ensures x in s.holds && x != y && x !in s.live[r].slots + [y]
  {
    OrphanIs(m, s, x);
    hide Owned, Duplicates;
  }

  lemma OrphanDecode<R>(m: Model, s: State<R>, r: R, token: Token, x: Slot)
    requires Base(m, s) && Owned(m, s) && r in s.live && s.free != [] && Orphan(s, x)
    ensures Orphan(AfterDecode(m, s, r, token), x)
  {
    hide *;
    var u, q, y := AfterDecode(m, s, r, token), s.live[r], s.free[|s.free| - 1];
    OrphanTaken(m, s, x, r, y);
    assert s.free == s.free[..|s.free| - 1] + [y];
    AfterDecodeIs(m, s, r, token, s.free[..|s.free| - 1], y);
    OrphanInsert(s, u, x, q.prompt + (q.out + [token]), q.slots + [y], r, Req(q.prompt, q.out + [token], q.slots + [y]));
  }

  lemma OrphanEvict<R>(m: Model, s: State<R>, u: State<R>, removed: seq<Path>, freed: seq<Slot>, x: Slot)
    requires Owned(m, s) && IsEviction(s, u, removed, freed) && Orphan(s, x)
    ensures Orphan(u, x)
  {
    EvictDuplicates(m, s, u, removed, freed);
    EvictedLive(s, u, removed, freed);
    hide Owned, IsEviction, Duplicates;
  }

  lemma OrphanStep<R>(m: Model, s: State<R>, t: Step<R>, x: Slot)
    requires RunnerInv(m, s) && s.guarded && Next(m, s, t) && Orphan(s, x)
    ensures Orphan(t.after, x)
  {
    hide Base, Owned, AfterPrefill, AfterDecode, PrefillLogits, DecodeLogits, IsEviction, CanPrefill, Duplicates;
    match t.event {
      case Prefill(r, prompt) => OrphanPrefill(m, s, r, prompt, x);
      case Decode(r, token) => OrphanDecode(m, s, r, token, x);
      case Finish(r) => FinishDuplicates(s, r);
      case Evict(removed, freed) => OrphanEvict(m, s, t.after, removed, freed, x);
      case Refused =>
    }
  }

  /** A duplicate that no live request reads is lost for good: no guarded run frees it, caches it or hands it out again. */
  lemma {:induction false} LostForGood<R>(m: Model, s: State<R>, run: seq<Step<R>>, x: Slot)
    requires RunnerInv(m, s) && IsRun(m, s, run) && Last(s, run).guarded && Orphan(s, x)
    ensures var u := Last(s, run); Orphan(u, x) && x !in u.free && forall p | p in u.entries :: u.entries[p] != x
    decreases |run|
  {
    hide RunnerInv, Next, Orphan, Duplicates, Owned;
    RunExact(m, s, run);
    if run != [] {
      var n := |run| - 1;
      GuardedBefore(m, s, run);
      LostForGood(m, s, run[..n], x);
      RunExact(m, s, run[..n]);
      OrphanStep(m, Last(s, run[..n]), run[n], x);
    }
    OrphanUnused(m, Last(s, run), x);
  }

  lemma OrphanUnused<R>(m: Model, s: State<R>, x: Slot)
    requires RunnerInv(m, s) && s.guarded && Orphan(s, x)
    ensures x !in s.free && forall p | p in s.entries :: s.entries[p] != x
  {
    hide Base, Owned, Duplicates;
    OrphanIs(m, s, x);
  }

  // ---------------------------------------------------------------- when nothing comes back

  /** Everything a live request has processed begins a live prompt. */
  ghost predicate Covered<R>(s: State<R>) {
    forall r | r in s.live :: Protected(s, Tokens(s.live[r]))
  }

  lemma FreshCovered<R>(s: State<R>)
    requires AllFresh(s)
    ensures Covered(s)
  {
    forall r | r in s.live ensures Protected(s, Tokens(s.live[r])) {
      assert Tokens(s.live[r]) == s.live[r].prompt;
    }
  }

  lemma CoveredSheltered<R>(s: State<R>)
    requires Covered(s)
    ensures Sheltered(s)
  {
    hide Protected, Tokens;
    forall r, i: nat | r in s.live && ReadsCached(s, r, i) ensures Protected(s, Tokens(s.live[r])[..i + 1]) {
      ProtectedPrefix(s, Tokens(s.live[r]), i + 1);
    }
  }

  lemma ProtectedPrefix<R>(s: State<R>, p: Path, n: nat)
    requires Protected(s, p) && n <= |p|
    ensures Protected(s, p[..n])
  {
    var q :| q in s.live && p <= s.live[q].prompt;
    assert p[..n] <= s.live[q].prompt;
  }

  /** A run that evicts only while everything live requests have processed begins live prompts. */
  ghost predicate EvictsCovered<R>(s: State<R>, run: seq<Step<R>>) {
    forall i | 0 <= i < |run| && run[i].event.Evict? :: Covered(Last(s, run[..i]))
  }

  /** All that live requests have processed is cached. */
  ghost predicate AllCached<R>(s: State<R>) {
    forall r | r in s.live :: Tokens(s.live[r]) in s.entries
  }

  lemma InsertedWhole(e: Entries, key: Path, value: seq<Slot>)
    requires |key| == |value| && key != []
    ensures key in InsertAll(e, key, value) && forall p | p in e :: p in InsertAll(e, key, value)
  {
    assert key in Prefixes(key);
  }

  lemma InsertCaches<R>(s: State<R>, u: State<R>, r: R, q: Req, value: seq<Slot>)
    requires AllCached(s) && |value| == |Tokens(q)| > 0
    requires u.entries == InsertAll(s.entries, Tokens(q), value) && u.live == s.live[r := q]
    ensures AllCached(u)
  {
    hide InsertAll, Tokens;
    InsertedWhole(s.entries, Tokens(q), value);
  }

  lemma PrefillCaches<R>(m: Model, s: State<R>, r: R, prompt: Path)
    requires Base(m, s) && prompt != [] && CanPrefill(s, prompt) && AllCached(s)
    ensures AllCached(AfterPrefill(m, s, r, prompt))
  {
    hide CanPrefill, Base, InsertAll, AfterPrefill, PlanPrefill, AllCached, PrefillRows;
    var u, p := AfterPrefill(m, s, r, prompt), PlanPrefill(s, prompt);
    AfterPrefillIs(m, s, r, prompt);
    assert prompt + [] == prompt;
    InsertCaches(s, u, r, Req(prompt, [], p.prefix + p.news), p.prefix + p.news);
  }

  lemma DecodeCaches<R>(m: Model, s: State<R>, r: R, token: Token)
    requires Base(m, s) && r in s.live && s.free != [] && AllCached(s)
    ensures AllCached(AfterDecode(m, s, r, token))
  {
    hide Base, InsertAll, AfterDecode, AllCached, DecodeRows;
    var u, q, x := AfterDecode(m, s, r, token), s.live[r], s.free[|s.free| - 1];
    AfterDecodeIs(m, s, r, token, s.free[..|s.free| - 1], x);
    InsertCaches(s, u, r, Req(q.prompt, q.out + [token], q.slots + [x]), q.slots + [x]);
  }

  lemma EvictedLive<R>(s: State<R>, u: State<R>, removed: seq<Path>, freed: seq<Slot>)
    requires IsEviction(s, u, removed, freed)
    ensures u.live == s.live
  {
  }

  lemma EvictCaches<R>(m: Model, s: State<R>, u: State<R>, removed: seq<Path>, freed: seq<Slot>)
    requires Base(m, s) && IsEviction(s, u, removed, freed) && Covered(s)
    ensures AllCached(u)
  {
    hide IsEviction, Protected, InPool, PrefixClosed;
    EvictedLive(s, u, removed, freed);
    forall r | r in u.live ensures Tokens(u.live[r]) in u.entries {
      assert Pinned(s.entries, s.live[r]);
      ProtectedStays(s, u, removed, freed, Tokens(s.live[r]));
    }
  }

  lemma StepCaches<R>(m: Model, s: State<R>, t: Step<R>)
    requires RunnerInv(m, s) && Next(m, s, t) && AllCached(s) && (t.event.Evict? ==> Covered(s))
    ensures AllCached(t.after)
  {
    hide Base, Owned, AfterPrefill, AfterDecode, PrefillLogits, DecodeLogits, IsEviction, CanPrefill, Covered;
    match t.event {
      case Prefill(r, prompt) => PrefillCaches(m, s, r, prompt);
      case Decode(r, token) => DecodeCaches(m, s, r, token);
      case Finish(r) =>
      case Evict(removed, freed) =>
        InvBase(m, s);
        EvictCaches(m, s, t.after, removed, freed);
      case Refused =>
    }
  }

  /** A decode whose whole key is cached already. */
  ghost predicate Repeats<R>(s: State<R>, t: Step<R>) {
    t.event.Decode? && t.event.r in s.live && Tokens(s.live[t.event.r]) + [t.event.token] in s.entries
  }

  /** How many decodes of a run do that. */
  ghost function Repeated<R>(s: State<R>, run: seq<Step<R>>): nat {
    if run == [] then 0
    else Repeated(s, run[..|run| - 1]) + if Repeats(Last(s, run[..|run| - 1]), run[|run| - 1]) then 1 else 0
  }

  /** A decode enters at most one prefix if all before it are cached. */
  lemma LostOne<R>(s: State<R>, t: Step<R>)
    requires PrefixClosed(s.entries) && AllCached(s)
    requires t.event.Decode? ==> t.event.r in s.live && Tokens(s.live[t.event.r]) != []
    ensures Lost(s, t) == if Repeats(s, t) then 1 else 0
  {
    if t.event.Decode? {
      var p := Tokens(s.live[t.event.r]);
      var key := p + [t.event.token];
      hide LongestMatch;
      assert key[..|p|] == p;
      if LongestMatch(s.entries, key) < |p| {
        LongestMatchIsMaximal(s.entries, key, |p|);
      }
      LongestMatchWhole(s.entries, key);
    }
  }

  /** Without an eviction of generated tokens, each repeated decode leaves one slot over, and nothing enters it again. */
  lemma {:induction false} CoveredRun<R>(m: Model, s: State<R>, run: seq<Step<R>>)
    requires RunnerInv(m, s) && s.guarded && AllCached(s) && IsRun(m, s, run) && EvictsCovered(s, run)
    ensures AllCached(Last(s, run)) && Last(s, run).guarded && TotalLost(s, run) == Repeated(s, run)
    decreases |run|
  {
    hide RunnerInv, Next, Covered, AllCached, Lost, Repeats;
    if run != [] {
      var n := |run| - 1;
      var u := Last(s, run[..n]);
      CoveredBefore(s, run);
      CoveredRun(m, s, run[..n]);
      RunExact(m, s, run[..n]);
      CoveredStep(m, u, run[n]);
    }
  }

  lemma CoveredBefore<R>(s: State<R>, run: seq<Step<R>>)
    requires run != [] && EvictsCovered(s, run)
    ensures EvictsCovered(s, run[..|run| - 1])
    ensures run[|run| - 1].event.Evict? ==> Covered(Last(s, run[..|run| - 1]))
  {
    hide Covered;
    var n := |run| - 1;
    forall i | 0 <= i < n && run[..n][i].event.Evict? ensures Covered(Last(s, run[..n][..i])) {
      assert run[..n][..i] == run[..i] && run[..n][i] == run[i];
    }
  }

  lemma CoveredStep<R>(m: Model, s: State<R>, t: Step<R>)
    requires RunnerInv(m, s) && s.guarded && AllCached(s) && Next(m, s, t) && (t.event.Evict? ==> Covered(s))
    ensures AllCached(t.after) && t.after.guarded && Lost(s, t) == if Repeats(s, t) then 1 else 0
  {
    StepCaches(m, s, t);
    InvBase(m, s);
    BaseIs(m, s);
    DecodesSome(m, s, t);
    hide AllCached, Covered, Next, RunnerInv, Lost, Repeats, PrefixClosed, Base;
    if t.event.Evict? {
      CoveredSheltered(s);
    }
    ShelteredStep(m, s, t);
    LostOne(s, t);
  }

  lemma DecodesSome<R>(m: Model, s: State<R>, t: Step<R>)
    requires Base(m, s) && Next(m, s, t)
    ensures t.event.Decode? ==> t.event.r in s.live && Tokens(s.live[t.event.r]) != []
  {
    hide AfterDecode, AfterPrefill, DecodeLogits, PrefillLogits, IsEviction, CanPrefill;
    if t.event.Decode? {
      assert Pinned(s.entries, s.live[t.event.r]);
    }
  }

  /** In every run, whatever is evicted when, at most one slot is left over for each repeated decode. */
  lemma {:induction false} LostAtMost<R>(m: Model, s: State<R>, run: seq<Step<R>>)
    requires RunnerInv(m, s) && IsRun(m, s, run)
    ensures TotalLost(s, run) <= Repeated(s, run)
    decreases |run|
  {
    hide RunnerInv, Next, Lost, Repeats;
    if run != [] {
      var n := |run| - 1;
      LostAtMost(m, s, run[..n]);
      RunExact(m, s, run[..n]);
      LostBelow(m, Last(s, run[..n]), run[n]);
    }
  }

  lemma LostBelow<R>(m: Model, s: State<R>, t: Step<R>)
    requires RunnerInv(m, s)
    ensures Lost(s, t) <= if Repeats(s, t) then 1 else 0
  {
    InvBase(m, s);
    BaseIs(m, s);
    hide LongestMatch, RunnerInv, PrefixClosed;
    if t.event.Decode? && t.event.r in s.live {
      LongestMatchWhole(s.entries, Tokens(s.live[t.event.r]) + [t.event.token]);
    }
  }

  /**
    If evictions happen only while everything live requests have processed begins live prompts, a drained pool is short
    of exactly one slot for each decode whose whole key was cached: nothing is lost if and only if there was none.
   */
  lemma LostIff<R>(m: Model, size: nat, rows: seq<Row>, run: seq<Step<R>>)
    requires |rows| == |m.layers| && forall l | 0 <= l < |rows| :: |rows[l]| == size + 1
    requires IsRun(m, EmptyPool(m, size, rows), run) && EvictsCovered(EmptyPool(m, size, rows), run)
    ensures var start := EmptyPool(m, size, rows); var s := Last(start, run);
            s.live == map[] && OnlyPrompts(s) ==>
              && |s.free| == size - Repeated(start, run)
              && (|s.free| == size <==> forall i | 0 <= i < |run| :: !Repeats(Last(start, run[..i]), run[i]))
  {
    var start := EmptyPool<R>(m, size, rows);
    EmptyPoolInv<R>(m, size, rows);
    hide OnlyPrompts, TotalLost, IsRun, EvictsCovered, RunnerInv, Repeats;
    assert AllCached(start);
    CoveredRun(m, start, run);
    DrainedRun(m, size, rows, run);
    NoneRepeated(start, run);
  }

  lemma {:induction false} NoneRepeated<R>(s: State<R>, run: seq<Step<R>>)
    ensures Repeated(s, run) == 0 <==> forall i | 0 <= i < |run| :: !Repeats(Last(s, run[..i]), run[i])
    decreases |run|
  {
    hide Repeats;
    if run != [] {
      var n := |run| - 1;
      NoneRepeated(s, run[..n]);
      assert forall i | 0 <= i < n :: run[..n][..i] == run[..i] && run[..n][i] == run[i];
    }
  }
}
