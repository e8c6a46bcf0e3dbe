/** Autoregressive generation without a cache: what `generate` has to return. */
module Generation {
  import opened PrefixMap
  import opened Transformer
  import opened RunnerSpec
  import opened RunnerSafety
  import opened RunnerRuns

  /** At most `n` more tokens, each sampled after a full forward pass over everything before it. */
  ghost function UncachedLoop(m: Model, prompt: Path, out: Path, n: int, sampler: Logits -> Token, stops: set<Token>): Path
    requires prompt != []
    decreases n
  {
    if n <= 0 then out
    else
      var token := sampler(FullLogits(m, prompt + out));
      if token in stops then out + [token] else UncachedLoop(m, prompt, out + [token], n - 1, sampler, stops)
  }

  /** One turn of the reference loop. */
  lemma UncachedTurn(m: Model, prompt: Path, out: Path, n: int, sampler: Logits -> Token, stops: set<Token>)
    requires prompt != []
    ensures n <= 0 ==> UncachedLoop(m, prompt, out, n, sampler, stops) == out
    ensures n > 0 ==>
      var token := sampler(FullLogits(m, prompt + out));
      UncachedLoop(m, prompt, out, n, sampler, stops)
        == if token in stops then out + [token] else UncachedLoop(m, prompt, out + [token], n - 1, sampler, stops)
  {
  }

  /** The tokens a cached run decodes: all but a final stop token, which is never fed back. */
  ghost function Fed(items: Path, stops: set<Token>): (r: Path)
    ensures r <= items && |r| <= |items| <= |r| + 1
  {
    if items != [] && items[|items| - 1] in stops then items[..|items| - 1] else items
  }

  lemma FedStops(items: Path, token: Token, stops: set<Token>)
    requires token in stops
    ensures Fed(items + [token], stops) == items
  {
  }

  lemma FedOn(items: Path, stops: set<Token>)
    requires items != [] ==> items[|items| - 1] !in stops
    ensures Fed(items, stops) == items
  {
  }

  /** What the reference loop returns, item by item. */
  lemma {:induction false} UncachedItems(m: Model, prompt: Path, out: Path, n: int, sampler: Logits -> Token, stops: set<Token>)
    requires prompt != []
    ensures var r := UncachedLoop(m, prompt, out, n, sampler, stops);
            && out <= r && |r| <= |out| + (if n < 0 then 0 else n)
            && (forall i | |out| <= i < |r| :: r[i] == sampler(FullLogits(m, prompt + r[..i])))
            && (forall i | |out| <= i < |r| - 1 :: r[i] !in stops)
            && (|r| < |out| + n ==> r != [] && r[|r| - 1] in stops)
    decreases n
  {
    if n > 0 {
      hide FullLogits;
      var token := sampler(FullLogits(m, prompt + out));
      if token in stops {
        assert (out + [token])[..|out|] == out;
      } else {
        UncachedItems(m, prompt, out + [token], n - 1, sampler, stops);
        var r := UncachedLoop(m, prompt, out, n, sampler, stops);
        assert r[..|out|] == out && r[|out|] == token;
      }
    }
  }

  // ---------------------------------------------------------------- one request among others

  /** From `s` to `u` only request `r` has moved: it has processed `prompt` and `out`, in this many slots. */
  ghost predicate Generating<R>(s: State<R>, u: State<R>, r: R, prompt: Path, out: Path) {
    && r !in s.live && r in u.live && u.live[r].prompt == prompt && u.live[r].out == out
    && u.live - {r} == s.live && u.guarded == s.guarded
    && |u.free| == |s.free| - (|prompt| - LongestMatch(s.entries, prompt)) - |out|
  }

  lemma GeneratingLive<R>(s: State<R>, u: State<R>, r: R, prompt: Path, out: Path)
    requires Generating(s, u, r, prompt, out)
    ensures r in u.live && u.guarded == s.guarded
  {
  }

  lemma GeneratingStart<R>(m: Model, s: State<R>, t: Step<R>, r: R, prompt: Path)
    requires Next(m, s, t) && t.event == Prefill(r, prompt)
    ensures Generating(s, t.after, r, prompt, [])
  {
    hide Base, CanPrefill, PlanPrefill, LongestMatch, PrefillLogits, AfterPrefill, SlotsOf;
    AfterPrefillIs(m, s, r, prompt);
    SlotsLeft(s, prompt);
    AddDrop(s.live, r, t.after.live[r]);
  }

  lemma AddDrop<R>(live: map<R, Req>, r: R, q: Req)
    requires r !in live
    ensures live[r := q] - {r} == live
  {
  }

  lemma GeneratingNext<R>(m: Model, s: State<R>, u: State<R>, t: Step<R>, r: R, prompt: Path, out: Path, token: Token)
    requires Generating(s, u, r, prompt, out) && Next(m, u, t) && t.event == Decode(r, token)
    ensures Generating(s, t.after, r, prompt, out + [token])
  {
    hide Base, LongestMatch, DecodeLogits, AfterDecode, DecodeRows, InsertAll, Tokens;
    var k := |u.free| - 1;
    assert u.free == u.free[..k] + [u.free[k]];
    AfterDecodeIs(m, u, r, token, u.free[..k], u.free[k]);
    UpdateDrop(u.live, r, t.after.live[r]);
  }

  lemma UpdateDrop<R>(live: map<R, Req>, r: R, q: Req)
    ensures live[r := q] - {r} == live - {r}
  {
  }

  lemma GeneratingEnd<R>(m: Model, s: State<R>, u: State<R>, t: Step<R>, r: R, prompt: Path, out: Path)
    requires Generating(s, u, r, prompt, out) && Next(m, u, t) && t.event == Finish(r)
    ensures t.after.live == s.live && t.after.guarded == s.guarded
    ensures |t.after.free| == |s.free| - (|prompt| - LongestMatch(s.entries, prompt)) - |out|
  {
  }
}
