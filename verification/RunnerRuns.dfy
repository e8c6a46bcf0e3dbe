/** Whole runs of interleaved requests, and their exactness. */
module RunnerRuns {
  import opened Results
  import opened PrefixMap
  import opened TokenPool
  import opened KVPool
  import opened Transformer
  import opened RunnerSpec
  import opened RunnerSafety

  /** `Refused` is a prefill or decode that the allocator had no slots for. */
  datatype Event<R> = Prefill(r: R, prompt: Path) | Decode(r: R, token: Token) | Finish(r: R)
                    | Evict(removed: seq<Path>, freed: seq<Slot>) | Refused

  datatype Step<R(==)> = Step(event: Event<R>, after: State<R>, logits: Option<Logits>)

  ghost predicate Next<R>(m: Model, s: State<R>, t: Step<R>) {
    match t.event
    case Prefill(r, prompt) =>
      && Base(m, s) && prompt != [] && r !in s.live && CanPrefill(s, prompt)
      && t.after == AfterPrefill(m, s, r, prompt) && t.logits == Some(PrefillLogits(m, s, prompt))
    case Decode(r, token) =>
      && Base(m, s) && r in s.live && s.free != []
      && t.after == AfterDecode(m, s, r, token) && t.logits == Some(DecodeLogits(m, s, r, token))
    case Finish(r) => r in s.live && t.after == AfterFinish(s, r) && t.logits == None
    case Evict(removed, freed) => IsEviction(s, t.after, removed, freed) && t.logits == None
    case Refused => t.after == s && t.logits == None
  }

  /** The state a run of steps starting in `s` ends in. */
  ghost function Last<R>(s: State<R>, run: seq<Step<R>>): State<R> {
    if run == [] then s else run[|run| - 1].after
  }

  ghost predicate IsRun<R>(m: Model, s: State<R>, run: seq<Step<R>>) {
    run == [] || (IsRun(m, s, run[..|run| - 1]) && Next(m, Last(s, run[..|run| - 1]), run[|run| - 1]))
  }

  lemma Extend<R>(m: Model, s: State<R>, run: seq<Step<R>>, t: Step<R>)
    requires IsRun(m, s, run) && Next(m, Last(s, run), t)
    ensures IsRun(m, s, run + [t]) && Last(s, run + [t]) == t.after
  {
    assert (run + [t])[..|run + [t]| - 1] == run;
  }

  /** An empty pool: every slot free, nothing cached, no request. */
  ghost function EmptyPool<R>(m: Model, size: nat, rows: seq<Row>): State<R> {
    State(size, Descending(size), map[], rows, map[], map[], true)
  }

  lemma EmptyPoolInv<R>(m: Model, size: nat, rows: seq<Row>)
    requires |rows| == |m.layers| && forall l | 0 <= l < |rows| :: |rows[l]| == size + 1
    ensures RunnerInv<R>(m, EmptyPool(m, size, rows))
  {
  }

  /** The logits of a step are those of an uncached pass over all the request has processed. */
  ghost predicate Exact<R>(m: Model, s: State<R>, t: Step<R>) {
    match t.event
    case Prefill(_, prompt) => prompt != [] && t.logits == Some(FullLogits(m, prompt))
    case Decode(r, token) => r in s.live && t.logits == Some(FullLogits(m, Tokens(s.live[r]) + [token]))
    case _ => t.logits == None
  }

  lemma StepKeeps<R>(m: Model, s: State<R>, t: Step<R>)
    requires RunnerInv(m, s) && Next(m, s, t)
    ensures RunnerInv(m, t.after) && (t.after.guarded ==> s.guarded && Exact(m, s, t))
  {
    hide Base, Owned, AfterPrefill, AfterDecode, PrefillLogits, DecodeLogits, FullLogits;
    match t.event {
      case Prefill(r, prompt) =>
        PrefillBase(m, s, r, prompt);
        StepGuards(m, s, t);
        if s.guarded {
          PrefillExact(m, s, r, prompt);
        }
      case Decode(r, token) =>
        DecodeBase(m, s, r, token);
        StepGuards(m, s, t);
        if s.guarded {
          DecodeExact(m, s, r, token);
        }
      case Finish(r) => FinishKeeps(m, s, r);
      case Evict(removed, freed) =>
        EvictBase(m, s, t.after, removed, freed);
        if t.after.guarded {
          EvictOwned(m, s, t.after, removed, freed);
        }
      case Refused =>
    }
  }

  lemma InvBase<R>(m: Model, s: State<R>)
    requires RunnerInv(m, s)
    ensures Base(m, s)
  {
  }

  /** The step a prefill takes. */
  lemma PrefillStep<R>(m: Model, s: State<R>, r: R, prompt: Path)
    requires RunnerInv(m, s) && Base(m, s) && prompt != [] && r !in s.live && CanPrefill(s, prompt)
    ensures var u, logits := AfterPrefill(m, s, r, prompt), PrefillLogits(m, s, prompt);
            && Next(m, s, Step(Prefill(r, prompt), u, Some(logits)))
            && RunnerInv(m, u) && (u.guarded ==> logits == FullLogits(m, prompt))
  {
    hide Base, Owned, AfterPrefill, PrefillLogits, FullLogits, RunnerInv, CanPrefill;
    StepKeeps(m, s, Step(Prefill(r, prompt), AfterPrefill(m, s, r, prompt), Some(PrefillLogits(m, s, prompt))));
  }

  /** The step a decode takes. */
  lemma DecodeStep<R>(m: Model, s: State<R>, r: R, token: Token)
    requires RunnerInv(m, s) && Base(m, s) && r in s.live && s.free != []
    ensures var u, logits := AfterDecode(m, s, r, token), DecodeLogits(m, s, r, token);
            && Next(m, s, Step(Decode(r, token), u, Some(logits)))
            && RunnerInv(m, u) && (u.guarded ==> logits == FullLogits(m, Tokens(s.live[r]) + [token]))
  {
    hide Base, Owned, AfterDecode, DecodeLogits, FullLogits, RunnerInv;
    StepKeeps(m, s, Step(Decode(r, token), AfterDecode(m, s, r, token), Some(DecodeLogits(m, s, r, token))));
  }

  lemma FinishStep<R>(m: Model, s: State<R>, r: R)
    requires RunnerInv(m, s) && r in s.live
    ensures Next(m, s, Step(Finish(r), AfterFinish(s, r), None)) && RunnerInv(m, AfterFinish(s, r))
  {
    hide RunnerInv;
    StepKeeps(m, s, Step(Finish(r), AfterFinish(s, r), None));
  }

  lemma EvictStep<R>(m: Model, s: State<R>, u: State<R>, removed: seq<Path>, freed: seq<Slot>)
    requires RunnerInv(m, s) && IsEviction(s, u, removed, freed)
    ensures Next(m, s, Step(Evict(removed, freed), u, None)) && RunnerInv(m, u)
  {
    hide RunnerInv, IsEviction;
    StepKeeps(m, s, Step(Evict(removed, freed), u, None));
  }

  /** Only an eviction can lower the guard. */
  lemma StepGuards<R>(m: Model, s: State<R>, t: Step<R>)
    requires Next(m, s, t)
    ensures t.after.guarded == (s.guarded && (t.event.Evict? ==> SparesLive(s, t.event.freed)))
    ensures t.after.size == s.size
  {
  }

  /**
    In every run of interleaved prefills, decodes, finishes and evictions, every step taken while
    the guard holds returns exactly the logits of an uncached forward pass.
   */
  lemma {:induction false} RunExact<R>(m: Model, s: State<R>, run: seq<Step<R>>)
    requires RunnerInv(m, s) && IsRun(m, s, run)
    ensures RunnerInv(m, Last(s, run))
    ensures forall i | 0 <= i < |run| && run[i].after.guarded :: Exact(m, Last(s, run[..i]), run[i])
    decreases |run|
  {
    hide RunnerInv, Next, Exact;
    if run != [] {
      var n := |run| - 1;
      RunExact(m, s, run[..n]);
      StepKeeps(m, Last(s, run[..n]), run[n]);
      forall i | 0 <= i < |run| && run[i].after.guarded ensures Exact(m, Last(s, run[..i]), run[i]) {
        if i < n {
          assert run[..n][..i] == run[..i] && run[..n][i] == run[i];
        }
      }
    }
  }

  /** A run that evicts in sheltered states only never loses the guard: all its steps are exact. */
  lemma {:induction false} ShelteredRun<R>(m: Model, s: State<R>, run: seq<Step<R>>)
    requires RunnerInv(m, s) && s.guarded && IsRun(m, s, run)
    requires forall i | 0 <= i < |run| && run[i].event.Evict? :: Sheltered(Last(s, run[..i]))
    ensures forall i | 0 <= i < |run| :: run[i].after.guarded && Exact(m, Last(s, run[..i]), run[i])
    decreases |run|
  {
    hide RunnerInv, Next, Exact, Sheltered;
    RunExact(m, s, run);
    if run != [] {
      var n := |run| - 1;
      forall i | 0 <= i < n ensures run[..n][..i] == run[..i] && run[..n][i] == run[i] {
      }
      ShelteredRun(m, s, run[..n]);
      RunExact(m, s, run[..n]);
      ShelteredStep(m, Last(s, run[..n]), run[n]);
    }
  }

  lemma ShelteredStep<R>(m: Model, s: State<R>, t: Step<R>)
    requires RunnerInv(m, s) && s.guarded && Next(m, s, t) && (t.event.Evict? ==> Sheltered(s))
    ensures t.after.guarded
  {
    StepGuards(m, s, t);
    hide Base, Owned, Sheltered, SparesLive, IsEviction;
    if t.event.Evict? {
      ShelteredSpares(m, s, t.after, t.event.removed, t.event.freed);
    }
  }
}
