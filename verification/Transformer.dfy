/**
  The language model as an arbitrary stack of causal layers, the uncached forward
  pass over it, and the pass that `update_and_fetch` makes it run over a pool.
 */
module Transformer {
  import opened PrefixMap
  import opened Sequences
  import opened KVPool

  type Hidden(!new)
  type Logits(!new)

  /** A layer maps a hidden state at a position to its key/value pair, and attends causally. */
  datatype Layer = Layer(kv: (Hidden, nat) -> KV, attend: (Hidden, seq<KV>) -> Hidden)

  datatype Model = Model(embed: Token -> Hidden, layers: seq<Layer>, head: Hidden -> Logits)

  /** One layer's pairs for hidden states at positions `at`, `at + 1`, ... */
  function PairsAt(y: Layer, hs: seq<Hidden>, at: nat): (r: seq<KV>)
    ensures |r| == |hs|
  {
    seq(|hs|, i requires 0 <= i < |hs| => y.kv(hs[i], at + i))
  }

  /** Each new token attends to everything up to itself; `at` tokens came before. */
  function AttendAll(y: Layer, hs: seq<Hidden>, pairs: seq<KV>, at: nat): (r: seq<Hidden>)
    requires |pairs| == at + |hs|
    ensures |r| == |hs|
  {
    seq(|hs|, i requires 0 <= i < |hs| => y.attend(hs[i], pairs[..at + i + 1]))
  }

  function Embedded(m: Model, s: Path): (r: seq<Hidden>)
    ensures |r| == |s|
  {
    seq(|s|, i requires 0 <= i < |s| => m.embed(s[i]))
  }

  // ---------------------------------------------------------------- the reference

  /** Hidden states of all tokens below layer `l`, in one uncached pass over `s`. */
  ghost function FullPass(m: Model, l: nat, s: Path): (r: seq<Hidden>)
    requires l <= |m.layers|
    ensures |r| == |s|
  {
    if l == 0 then Embedded(m, s)
    else
      var hs := FullPass(m, l - 1, s);
      AttendAll(m.layers[l - 1], hs, PairsAt(m.layers[l - 1], hs, 0), 0)
  }

  /** The logits of the last token in an uncached pass. */
  ghost function FullLogits(m: Model, s: Path): Logits
    requires s != []
  {
    m.head(FullPass(m, |m.layers|, s)[|s| - 1])
  }

  /** The pairs layer `l` computes for the tokens of `s` in an uncached pass. */
  ghost function LayerPairs(m: Model, l: nat, s: Path): (r: seq<KV>)
    requires l < |m.layers|
    ensures |r| == |s|
  {
    PairsAt(m.layers[l], FullPass(m, l, s), 0)
  }

  /** The pair that layer `l` computes for the last token of `p`. */
  ghost function PairOf(m: Model, l: nat, p: Path): KV
    requires l < |m.layers| && p != []
  {
    LayerPairs(m, l, p)[|p| - 1]
  }

  /** Below all layers a token's hidden state is its embedding. */
  lemma EmbedsEach(m: Model, s: Path, i: nat)
    requires i < |s|
    ensures FullPass(m, 0, s)[i] == m.embed(s[i])
  {
  }

  /** A layer attends from each token to all tokens up to it and to no others, each at its own position. */
  lemma AttendsToAll(m: Model, l: nat, s: Path, i: nat, ps: seq<KV>)
    requires l < |m.layers| && i < |s| && |ps| == i + 1
    requires forall j | 0 <= j <= i :: ps[j] == m.layers[l].kv(FullPass(m, l, s)[j], j)
    ensures FullPass(m, l + 1, s)[i] == m.layers[l].attend(FullPass(m, l, s)[i], ps)
  {
    assert LayerPairs(m, l, s)[..i + 1] == ps;
  }

  /** Hidden states computed layer by layer: embeddings first, then each token attending to the pairs of tokens 0 up to itself. */
  ghost predicate LayerByLayer(m: Model, s: Path, hs: seq<seq<Hidden>>) {
    && |hs| == |m.layers| + 1 && (forall l | 0 <= l < |hs| :: |hs[l]| == |s|)
    && (forall i | 0 <= i < |s| :: hs[0][i] == m.embed(s[i]))
    && (forall l | 0 < l < |hs| :: FromBelow(m.layers[l - 1], hs[l - 1], hs[l]))
  }

  /** Each state of a layer is computed from all states below it up to its own position. */
  ghost predicate FromBelow(y: Layer, below: seq<Hidden>, above: seq<Hidden>) {
    && |above| == |below|
    && (forall i | 0 <= i < |below| :: above[i] == y.attend(below[i], seq(i + 1, j requires 0 <= j <= i => y.kv(below[j], j))))
  }

  /** The reference is the one such computation, and its logits come from the last token's state. */
  lemma {:induction false} OnlyPass(m: Model, s: Path, hs: seq<seq<Hidden>>, l: nat)
    requires LayerByLayer(m, s, hs) && l <= |m.layers|
    ensures FullPass(m, l, s) == hs[l]
    ensures s != [] && l == |m.layers| ==> FullLogits(m, s) == m.head(hs[l][|s| - 1])
  {
    if l > 0 {
      OnlyPass(m, s, hs, l - 1);
      forall i | 0 <= i < |s| ensures FullPass(m, l, s)[i] == hs[l][i] {
        AttendsToAll(m, l - 1, s, i, seq(i + 1, j requires 0 <= j <= i => m.layers[l - 1].kv(hs[l - 1][j], j)));
      }
    }
  }

  /** A pass over a prefix is the prefix of the pass. */
  lemma {:induction false} PassOfPrefix(m: Model, l: nat, s: Path, n: nat)
    requires l <= |m.layers| && n <= |s|
    ensures FullPass(m, l, s[..n]) == FullPass(m, l, s)[..n]
  {
    if l > 0 {
      PassOfPrefix(m, l - 1, s, n);
      var y, hs, hp := m.layers[l - 1], FullPass(m, l - 1, s), FullPass(m, l - 1, s[..n]);
      assert PairsAt(y, hp, 0) == PairsAt(y, hs, 0)[..n];
      forall i | 0 <= i < n ensures FullPass(m, l, s[..n])[i] == FullPass(m, l, s)[i] {
        assert PairsAt(y, hs, 0)[..n][..i + 1] == PairsAt(y, hs, 0)[..i + 1];
      }
    }
  }

  /** A token's pair depends on the tokens up to it only. */
  lemma PairsOfPrefix(m: Model, l: nat, s: Path, n: nat)
    requires l < |m.layers| && n <= |s|
    ensures LayerPairs(m, l, s[..n]) == LayerPairs(m, l, s)[..n]
    ensures n > 0 ==> LayerPairs(m, l, s)[n - 1] == PairOf(m, l, s[..n])
  {
    PassOfPrefix(m, l, s, n);
  }

  // ---------------------------------------------------------------- the pass over the pool

  /** The slots hold layer `l`'s pairs of the tokens of `s`. */
  ghost predicate Holds(m: Model, l: nat, row: Row, slots: seq<Slot>, s: Path)
    requires l < |m.layers|
  {
    |slots| == |s| && InRow(row, slots) && Gather(row, slots) == LayerPairs(m, l, s)
  }

  ghost predicate SameOutside(row: Row, after: Row, news: seq<Slot>) {
    |after| == |row| && forall q | 0 <= q < |row| && q !in news :: after[q] == row[q]
  }

  ghost predicate Fits(rows: seq<Row>, slots: seq<Slot>) {
    forall l | 0 <= l < |rows| :: InRow(rows[l], slots)
  }

  /** One layer of a cached pass: its adapter stores the new pairs and fetches everything. */
  ghost function LayerStep(y: Layer, row: Row, prefix: seq<Slot>, news: seq<Slot>, hs: seq<Hidden>): (r: (Row, seq<Hidden>))
    requires |hs| == |news| && InRow(row, prefix) && InRow(row, news)
    ensures |r.0| == |row| && |r.1| == |hs|
  {
    var a := Update(Adapter(prefix, news, 0, row), PairsAt(y, hs, |prefix|));
    (a.row, AttendAll(y, hs, Fetched(a), |prefix|))
  }

  /** The layers from `l` on, over the rows of the pool. */
  ghost function CachedPass(m: Model, l: nat, rows: seq<Row>, prefix: seq<Slot>, news: seq<Slot>, hs: seq<Hidden>)
    : (r: (seq<Row>, seq<Hidden>))
    requires l <= |m.layers| == |rows| && |hs| == |news| && Fits(rows, prefix) && Fits(rows, news)
    ensures |r.0| == |rows| && |r.1| == |hs| && forall j | 0 <= j < |rows| :: |r.0[j]| == |rows[j]|
    decreases |m.layers| - l
  {
    if l == |m.layers| then (rows, hs)
    else
      var step := LayerStep(m.layers[l], rows[l], prefix, news, hs);
      CachedPass(m, l + 1, rows[l := step.0], prefix, news, step.1)
  }

  /** A layer that finds its prefix cached computes what the uncached layer does. */
  lemma LayerStepExact(m: Model, l: nat, row: Row, prefix: seq<Slot>, news: seq<Slot>, s: Path)
    requires l < |m.layers| && |prefix| + |news| == |s| && InRow(row, news)
    requires Distinct(news) && Disjoint(prefix, news) && Holds(m, l, row, prefix, s[..|prefix|])
    ensures var r := LayerStep(m.layers[l], row, prefix, news, FullPass(m, l, s)[|prefix|..]);
            && r.1 == FullPass(m, l + 1, s)[|prefix|..]
            && Holds(m, l, r.0, prefix + news, s) && SameOutside(row, r.0, news)
  {
    hide Scatter, Gather, PairsAt;
    var y, k, hs, all := m.layers[l], |prefix|, FullPass(m, l, s), LayerPairs(m, l, s);
    var kvs := PairsAt(y, hs[k..], k);
    var a := Adapter(prefix, news, 0, row);
    AllFetched(a, kvs);
    PairsOfPrefix(m, l, s, k);
    PairsSuffix(y, hs, k);
    hide AttendAll, LayerPairs;
    assert all[..k] + all[k..] == all;
    AttendSuffix(y, hs, all, k);
  }

  lemma PairsSuffix(y: Layer, hs: seq<Hidden>, k: nat)
    requires k <= |hs|
    ensures PairsAt(y, hs[k..], k) == PairsAt(y, hs, 0)[k..]
  {
  }

  /** One call that stores every new token fetches the prefix and all of them. */
  lemma AllFetched(a: Adapter, kvs: seq<KV>)
    requires AdapterOk(a) && a.offset == 0 && |kvs| == |a.news| && Distinct(a.news) && Disjoint(a.prefix, a.news)
    ensures Fetched(Update(a, kvs)) == Gather(a.row, a.prefix) + kvs
    ensures Gather(Update(a, kvs).row, a.prefix + a.news) == Gather(a.row, a.prefix) + kvs
    ensures SameOutside(a.row, Update(a, kvs).row, a.news)
  {
    hide Scatter, Gather;
    assert a.news[0..|a.news|] == a.news[..|a.news|] == a.news;
    assert a.prefix + a.news[..0] == a.prefix;
    UpdateAppends(a, kvs);
  }

  lemma AttendSuffix(y: Layer, hs: seq<Hidden>, pairs: seq<KV>, k: nat)
    requires |pairs| == |hs| && k <= |hs|
    ensures AttendAll(y, hs[k..], pairs, k) == AttendAll(y, hs, pairs, 0)[k..]
  {
  }

  /** The layers from `l` on hold the pairs of the first `|prefix|` tokens of `s`. */
  ghost predicate HoldFrom(m: Model, l: nat, rows: seq<Row>, slots: seq<Slot>, s: Path) {
    |rows| == |m.layers| && forall j | l <= j < |rows| :: Holds(m, j, rows[j], slots, s)
  }

  /** `after` holds `s` from layer `l` on, and differs from `rows` at the new slots only. */
  ghost predicate PassStores(m: Model, l: nat, rows: seq<Row>, after: seq<Row>, prefix: seq<Slot>, news: seq<Slot>, s: Path) {
    && |after| == |rows| && HoldFrom(m, l, after, prefix + news, s)
    && (forall j | 0 <= j < |rows| :: SameOutside(rows[j], after[j], news))
    && (forall j | 0 <= j < l && j < |rows| :: after[j] == rows[j])
  }

  lemma StoresStep(m: Model, l: nat, rows: seq<Row>, row: Row, after: seq<Row>, prefix: seq<Slot>, news: seq<Slot>, s: Path)
    requires l < |m.layers| == |rows|
    requires Holds(m, l, row, prefix + news, s) && SameOutside(rows[l], row, news)
    requires PassStores(m, l + 1, rows[l := row], after, prefix, news, s)
    ensures PassStores(m, l, rows, after, prefix, news, s)
  {
    hide Holds;
    var mid := rows[l := row];
    assert after[l] == mid[l] == row;
    forall j | 0 <= j < |rows| ensures SameOutside(rows[j], after[j], news) {
      assert SameOutside(mid[j], after[j], news);
    }
  }

  lemma HoldLength(m: Model, l: nat, rows: seq<Row>, slots: seq<Slot>, s: Path)
    requires HoldFrom(m, l, rows, slots, s)
    ensures |rows| == |m.layers|
  {
  }

  lemma HoldNext(m: Model, l: nat, rows: seq<Row>, row: Row, slots: seq<Slot>, s: Path)
    requires l < |m.layers| && HoldFrom(m, l, rows, slots, s)
    ensures Holds(m, l, rows[l], slots, s) && HoldFrom(m, l + 1, rows[l := row], slots, s)
  {
    hide Holds;
  }

  lemma PassNext(m: Model, l: nat, rows: seq<Row>, prefix: seq<Slot>, news: seq<Slot>, hs: seq<Hidden>)
    requires l < |m.layers| == |rows| && |hs| == |news| && Fits(rows, prefix) && Fits(rows, news)
    ensures InRow(rows[l], prefix) && InRow(rows[l], news)
    ensures var step := LayerStep(m.layers[l], rows[l], prefix, news, hs);
            && Fits(rows[l := step.0], prefix) && Fits(rows[l := step.0], news)
            && CachedPass(m, l, rows, prefix, news, hs) == CachedPass(m, l + 1, rows[l := step.0], prefix, news, step.1)
  {
    hide LayerStep;
  }

  lemma PassEnds(m: Model, rows: seq<Row>, prefix: seq<Slot>, news: seq<Slot>, hs: seq<Hidden>, s: Path)
    requires |m.layers| == |rows| && |hs| == |news| && Fits(rows, prefix) && Fits(rows, news)
    ensures CachedPass(m, |rows|, rows, prefix, news, hs) == (rows, hs)
    ensures PassStores(m, |rows|, rows, rows, prefix, news, s)
  {
  }

  /**
    Reusing cached slots is exact: the new tokens get the hidden states of an uncached
    pass over the whole sequence, every layer ends up holding it, and no other slot changes.
   */
  lemma {:induction false} CachedPassExact(m: Model, l: nat, rows: seq<Row>, prefix: seq<Slot>, news: seq<Slot>, s: Path)
    requires l <= |m.layers| && |prefix| + |news| == |s| && Fits(rows, news) && Fits(rows, prefix)
    requires HoldFrom(m, l, rows, prefix, s[..|prefix|]) && Distinct(news) && Disjoint(prefix, news)
    ensures var r := CachedPass(m, l, rows, prefix, news, FullPass(m, l, s)[|prefix|..]);
            r.1 == FullPass(m, |m.layers|, s)[|prefix|..] && PassStores(m, l, rows, r.0, prefix, news, s)
    decreases |m.layers| - l
  {
    hide *;
    HoldLength(m, l, rows, prefix, s[..|prefix|]);
    if l == |m.layers| {
      PassEnds(m, rows, prefix, news, FullPass(m, l, s)[|prefix|..], s);
    } else {
      PassNext(m, l, rows, prefix, news, FullPass(m, l, s)[|prefix|..]);
      HoldNext(m, l, rows, rows[l], prefix, s[..|prefix|]);
      LayerStepExact(m, l, rows[l], prefix, news, s);
      var step := LayerStep(m.layers[l], rows[l], prefix, news, FullPass(m, l, s)[|prefix|..]);
      HoldNext(m, l, rows, step.0, prefix, s[..|prefix|]);
      CachedPassExact(m, l + 1, rows[l := step.0], prefix, news, s);
      StoresStep(m, l, rows, step.0,
                 CachedPass(m, l, rows, prefix, news, FullPass(m, l, s)[|prefix|..]).0, prefix, news, s);
    }
  }
}
