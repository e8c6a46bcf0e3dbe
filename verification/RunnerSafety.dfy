/** Every step of the request protocol keeps its invariants and returns exact logits. */
module RunnerSafety {
  import opened PrefixMap
  import opened Sequences
  import opened KVPool
  import opened Transformer
  import opened RadixEvict
  import opened RunnerSpec

  // ---------------------------------------------------------------- inserts

  /** Inserting keeps what live requests have pinned. */
  lemma PinnedKept(entries: Entries, key: Path, value: seq<Slot>, q: Req)
    requires |key| == |value| && Pinned(entries, q)
    ensures Pinned(InsertAll(entries, key, value), q)
  {
  }

  lemma InsertInPool(entries: Entries, key: Path, value: seq<Slot>, size: nat)
    requires |key| == |value| && InPool(size, value) && forall p | p in entries :: 1 <= entries[p] <= size
    ensures forall p | p in InsertAll(entries, key, value) :: 1 <= InsertAll(entries, key, value)[p] <= size
  {
  }

  /** The slots a prefill uses for its prompt: the cached ones, then the new ones. */
  lemma PlanSlots<R>(s: State<R>, prompt: Path)
    requires prompt != [] && CanPrefill(s, prompt)
    ensures var p := PlanPrefill(s, prompt); var n := LongestMatch(s.entries, prompt);
            && (p.prefix + p.news)[..n] == SlotsOf(s.entries, prompt, n)
            && (if n == |prompt| then p.free == s.free && |p.prefix| == n - 1
                else s.free == p.free + p.news && |p.prefix| == n)
  {
    hide LongestMatch, SlotsOf;
    var n := LongestMatch(s.entries, prompt);
    var cached := SlotsOf(s.entries, prompt, n);
    if n == |prompt| {
      Rejoin(cached, n - 1);
    } else {
      var k := |s.free| - (|prompt| - n);
      Rejoin(s.free, k);
      TakeAll(cached, s.free[k..]);
    }
  }

  /** A prefill takes one slot for each uncached token. */
  lemma SlotsLeft<R>(s: State<R>, prompt: Path)
    requires prompt != [] && CanPrefill(s, prompt)
    ensures |PlanPrefill(s, prompt).free| == |s.free| - (|prompt| - LongestMatch(s.entries, prompt))
  {
    hide LongestMatch, SlotsOf, PlanPrefill;
    PlanSlots(s, prompt);
  }

  lemma Rejoin(a: seq<Slot>, k: nat)
    requires k <= |a|
    ensures a[..k] + a[k..] == a && (a[..k] + a[k..])[..|a|] == a
  {
  }

  lemma TakeAll(a: seq<Slot>, b: seq<Slot>)
    ensures (a + b)[..|a|] == a
  {
  }

  /** A key whose first `n` slots are the cached ones, and no more of which is cached, gets pinned. */
  lemma PinsWhere(entries: Entries, key: Path, slots: seq<Slot>, n: nat)
    requires PrefixClosed(entries) && key != [] && |slots| == |key| && n == LongestMatch(entries, key)
    requires slots[..n] == SlotsOf(entries, key, n)
    ensures Pinned(InsertAll(entries, key, slots), Req(key, [], slots))
  {
    hide LongestMatch, SlotsOf, PrefixClosed, InsertAll;
    forall j | 0 < j <= |key|
      ensures key[..j] in InsertAll(entries, key, slots) && InsertAll(entries, key, slots)[key[..j]] == slots[j - 1]
    {
      PinsAt(entries, key, slots, n, j);
    }
  }

  lemma PinsAt(entries: Entries, key: Path, slots: seq<Slot>, n: nat, j: nat)
    requires PrefixClosed(entries) && 0 < j <= |key| == |slots| && n == LongestMatch(entries, key)
    requires slots[..n] == SlotsOf(entries, key, n)
    ensures key[..j] in InsertAll(entries, key, slots) && InsertAll(entries, key, slots)[key[..j]] == slots[j - 1]
  {
    hide LongestMatch, PrefixClosed, InsertAll, SlotsOf;
    InsertedAt(entries, key, slots, j);
    if n < j {
      LongestMatchIsMaximal(entries, key, j);
    } else {
      CachedSlot(entries, key, j);
      assert slots[..n][j - 1] == slots[j - 1];
    }
  }

  lemma PrefillPins<R>(s: State<R>, prompt: Path)
    requires PrefixClosed(s.entries) && prompt != [] && CanPrefill(s, prompt)
    ensures var p := PlanPrefill(s, prompt);
            Pinned(InsertAll(s.entries, prompt, p.prefix + p.news), Req(prompt, [], p.prefix + p.news))
  {
    hide PrefixClosed, LongestMatch, SlotsOf, CanPrefill, PlanPrefill, InsertAll, Pinned;
    var p := PlanPrefill(s, prompt);
    PlanSlots(s, prompt);
    PinsWhere(s.entries, prompt, p.prefix + p.news, LongestMatch(s.entries, prompt));
  }

  /** A step that inserts `key` for request `r` and rewrites rows keeps the base invariant. */
  lemma BaseStep<R>(m: Model, s: State<R>, u: State<R>, r: R, q: Req, key: Path, value: seq<Slot>)
    requires Base(m, s) && |key| == |value| && InPool(s.size, value)
    requires u.size == s.size && |u.rows| == |s.rows| && forall l | 0 <= l < |u.rows| :: |u.rows[l]| == |s.rows[l]|
    requires u.entries == InsertAll(s.entries, key, value) && InPool(s.size, u.free)
    requires u.live == s.live[r := q] && Pinned(u.entries, q) && InPool(s.size, q.slots)
    ensures Base(m, u)
  {
    hide InsertAll;
    InsertKeepsPrefixClosed(s.entries, key, value);
    InsertInPool(s.entries, key, value, s.size);
    forall x | x in u.live ensures Pinned(u.entries, u.live[x]) && InPool(s.size, u.live[x].slots) {
      if x != r {
        PinnedKept(s.entries, key, value, s.live[x]);
      }
    }
  }

  lemma PrefillPassedIs<R>(m: Model, s: State<R>, prompt: Path)
    requires Base(m, s) && prompt != [] && CanPrefill(s, prompt)
    ensures var v := PrefillPassed(m, s, prompt);
            && v.size == s.size && v.free == PlanPrefill(s, prompt).free && v.rows == PrefillRows(m, s, prompt)
            && v.entries == s.entries && v.live == s.live
  {
  }

  lemma DecodePassedIs<R>(m: Model, s: State<R>, r: R, token: Token)
    requires Base(m, s) && r in s.live && s.free != []
    ensures var v := DecodePassed(m, s, r, token);
            && v.size == s.size && v.free == s.free[..|s.free| - 1] && v.rows == DecodeRows(m, s, r, token)
            && v.entries == s.entries && v.live == s.live
  {
  }

  lemma BaseIs<R>(m: Model, s: State<R>)
    requires Base(m, s)
    ensures PrefixClosed(s.entries) && |s.rows| == |m.layers|
  {
  }

  lemma AfterPrefillIs<R>(m: Model, s: State<R>, r: R, prompt: Path)
    requires Base(m, s) && prompt != [] && CanPrefill(s, prompt)
    ensures var u := AfterPrefill(m, s, r, prompt); var p := PlanPrefill(s, prompt);
            && u.size == s.size && u.guarded == s.guarded && u.free == p.free && u.rows == PrefillRows(m, s, prompt)
            && u.entries == InsertAll(s.entries, prompt, p.prefix + p.news)
            && u.live == s.live[r := Req(prompt, [], p.prefix + p.news)]
            && u.holds == s.holds + Holding(p.news, prompt, |p.prefix|)
  {
  }

  lemma PrefillBase<R>(m: Model, s: State<R>, r: R, prompt: Path)
    requires Base(m, s) && prompt != [] && CanPrefill(s, prompt)
    ensures Base(m, AfterPrefill(m, s, r, prompt))
  {
    hide CachedPass, InsertAll, PlanPrefill, Pinned;
    var p := PlanPrefill(s, prompt);
    PlanInPool(m, s, prompt);
    PrefillPins(s, prompt);
    var slots := p.prefix + p.news;
    assert InPool(s.size, slots);
    BaseStep(m, s, AfterPrefill(m, s, r, prompt), r, Req(prompt, [], slots), prompt, slots);
  }

  lemma AfterDecodeIs<R>(m: Model, s: State<R>, r: R, token: Token, free: seq<Slot>, x: Slot)
    requires Base(m, s) && r in s.live && s.free == free + [x]
    ensures var u, q := AfterDecode(m, s, r, token), s.live[r]; var out, slots := q.out + [token], q.slots + [x];
            && u.size == s.size && u.guarded == s.guarded && u.free == free && u.rows == DecodeRows(m, s, r, token)
            && |slots| == |q.prompt + out| && u.entries == InsertAll(s.entries, q.prompt + out, slots)
            && u.live == s.live[r := Req(q.prompt, out, slots)] && u.holds == s.holds[x := q.prompt + out]
  {
    assert Pinned(s.entries, s.live[r]);
    var q := s.live[r];
    assert Tokens(q) + [token] == q.prompt + (q.out + [token]);
  }

  lemma DecodeBase<R>(m: Model, s: State<R>, r: R, token: Token)
    requires Base(m, s) && r in s.live && s.free != []
    ensures Base(m, AfterDecode(m, s, r, token))
  {
    hide CachedPass, InsertAll, Pinned;
    var q, x := s.live[r], s.free[|s.free| - 1];
    var key, slots := Tokens(q) + [token], q.slots + [x];
    var next := Req(q.prompt, q.out + [token], slots);
    assert InPool(s.size, slots) && InPool(s.size, s.free[..|s.free| - 1]);
    assert |slots| == |key| && Pinned(InsertAll(s.entries, key, slots), next) by {
      assert Pinned(s.entries, q);
      DecodePins(s.entries, q, token, x);
    }
    BaseStep(m, s, AfterDecode(m, s, r, token), r, next, key, slots);
  }

  lemma DecodePins(entries: Entries, q: Req, token: Token, x: Slot)
    requires Pinned(entries, q)
    ensures |q.slots| == |Tokens(q)|
    ensures Pinned(InsertAll(entries, Tokens(q) + [token], q.slots + [x]), Req(q.prompt, q.out + [token], q.slots + [x]))
  {
  }

  lemma EvictBase<R>(m: Model, s: State<R>, u: State<R>, removed: seq<Path>, freed: seq<Slot>)
    requires Base(m, s) && IsEviction(s, u, removed, freed)
    ensures Base(m, u)
  {
    forall i | 0 <= i < |freed| ensures 1 <= freed[i] <= s.size {
      assert removed[i] in s.entries;
    }
  }

  // ---------------------------------------------------------------- one pass over owned slots

  /**
    `prefix` stores the beginning of `key`; each of the distinct slots `news` is unused, or
    already stores the very prefix of `key` that it is about to be given.
   */
  ghost predicate Ready<R>(s: State<R>, key: Path, prefix: seq<Slot>, news: seq<Slot>) {
    && |prefix| + |news| == |key| && Distinct(news) && InPool(s.size, prefix) && InPool(s.size, news)
    && (forall i | 0 <= i < |prefix| :: prefix[i] in s.holds && s.holds[prefix[i]] == key[..i + 1])
    && (forall i | 0 <= i < |news| && news[i] in s.holds :: s.holds[news[i]] == key[..|prefix| + i + 1])
  }

  lemma ReadyDisjoint<R>(s: State<R>, key: Path, prefix: seq<Slot>, news: seq<Slot>)
    requires Ready(s, key, prefix, news)
    ensures Disjoint(prefix, news)
  {
    forall j, i | 0 <= j < |prefix| && 0 <= i < |news| ensures prefix[j] != news[i] {
      assert s.holds[prefix[j]] == key[..j + 1];
      assert |key[..j + 1]| != |key[..|prefix| + i + 1]|;
    }
  }

  /** Owned prefix slots hold the beginning of the key in every layer. */
  lemma ReadyHolds<R>(m: Model, s: State<R>, key: Path, prefix: seq<Slot>, news: seq<Slot>, l: nat)
    requires Base(m, s) && KVHeld(m, s.rows, s.holds) && Ready(s, key, prefix, news) && l < |m.layers|
    ensures Holds(m, l, s.rows[l], prefix, key[..|prefix|])
  {
    var k := |prefix|;
    forall i | 0 <= i < k ensures s.rows[l][prefix[i]] == LayerPairs(m, l, key[..k])[i] {
      assert Stores(m, s.rows, prefix[i], l, s.holds[prefix[i]]);
      PairsOfPrefix(m, l, key[..k], i + 1);
      assert key[..k][..i + 1] == key[..i + 1];
    }
  }

  /** The pass computes what the uncached pass does, and stores the whole key. */
  lemma ReadyPass<R>(m: Model, s: State<R>, key: Path, prefix: seq<Slot>, news: seq<Slot>)
    requires Base(m, s) && KVHeld(m, s.rows, s.holds) && Ready(s, key, prefix, news)
    ensures Fits(s.rows, prefix) && Fits(s.rows, news)
    ensures var r := PassFor(m, s, prefix, news, key);
            r.1 == FullPass(m, |m.layers|, key)[|prefix|..] && PassStores(m, 0, s.rows, r.0, prefix, news, key)
  {
    BaseFits(m, s, prefix);
    BaseFits(m, s, news);
    ReadyDisjoint(s, key, prefix, news);
    forall l | 0 <= l < |s.rows| ensures Holds(m, l, s.rows[l], prefix, key[..|prefix|]) {
      ReadyHolds(m, s, key, prefix, news, l);
    }
    assert FullPass(m, 0, key)[|prefix|..] == Embedded(m, key[|prefix|..]);
    CachedPassExact(m, 0, s.rows, prefix, news, key);
  }

  /** Nothing held changes hands, and afterwards every slot of the key holds its prefix. */
  lemma HoldingExtends<R>(s: State<R>, key: Path, prefix: seq<Slot>, news: seq<Slot>)
    requires Ready(s, key, prefix, news)
    ensures var after := s.holds + Holding(news, key, |prefix|); var slots := prefix + news;
            && (forall x | x in s.holds :: x in after && after[x] == s.holds[x])
            && (forall x | x in after && x !in s.holds :: x in news)
            && (forall i | 0 <= i < |key| :: slots[i] in after && after[slots[i]] == key[..i + 1])
  {
    var k, h := |prefix|, Holding(news, key, |prefix|);
    forall i | 0 <= i < |news| ensures h[news[i]] == key[..k + i + 1] {
      assert IndexOf(news, news[i]) == i;
    }
    forall x | x in s.holds && x in news ensures h[x] == s.holds[x] {
      assert news[IndexOf(news, x)] == x;
    }
    var after, slots := s.holds + h, prefix + news;
    forall i | 0 <= i < |key| ensures slots[i] in after && after[slots[i]] == key[..i + 1] {
      if i < k {
        assert slots[i] == prefix[i];
      } else {
        assert slots[i] == news[i - k] && k + (i - k) + 1 == i + 1;
      }
    }
  }

  /** KV coherence is kept by the pass. */
  lemma ReadyKV<R>(m: Model, s: State<R>, key: Path, prefix: seq<Slot>, news: seq<Slot>, rows: seq<Row>, after: map<Slot, Path>)
    requires |s.rows| == |m.layers| == |rows| && KVHeld(m, s.rows, s.holds) && Ready(s, key, prefix, news)
    requires PassStores(m, 0, s.rows, rows, prefix, news, key) && after == s.holds + Holding(news, key, |prefix|)
    ensures KVHeld(m, rows, after)
  {
    HoldingExtends(s, key, prefix, news);
    hide Holding, Stores, Ready, PassStores;
    forall x, l | x in after && 0 <= l < |rows| ensures Stores(m, rows, x, l, after[x]) {
      StoredRow(m, s.rows, rows, prefix, news, key, l);
      if x in news {
        var i := IndexOf(news, x);
        assert (prefix + news)[|prefix| + i] == x && after[x] == key[..|prefix| + i + 1];
      } else {
        assert x in s.holds && after[x] == s.holds[x];
      }
      CellHeld(m, s.rows, s.holds, rows, prefix, news, key, x, l, after[x]);
    }
  }

  lemma CellHeld(m: Model, before: seq<Row>, held: map<Slot, Path>, rows: seq<Row>, prefix: seq<Slot>, news: seq<Slot>,
                 key: Path, x: Slot, l: nat, p: Path)
    requires l < |m.layers| == |before| == |rows| && KVHeld(m, before, held)
    requires SameOutside(before[l], rows[l], news) && Holds(m, l, rows[l], prefix + news, key)
    requires if x in news then p == key[..|prefix| + IndexOf(news, x) + 1] else x in held && held[x] == p
    ensures Stores(m, rows, x, l, p)
  {
    hide PairOf, Holds, SameOutside;
    if x in news {
      StoredPair(m, l, rows[l], prefix, news, key, |prefix| + IndexOf(news, x));
    } else {
      assert Stores(m, before, x, l, held[x]);
      CellKept(before[l], rows[l], news, x);
    }
  }

  lemma StoredRow(m: Model, rows: seq<Row>, after: seq<Row>, prefix: seq<Slot>, news: seq<Slot>, key: Path, l: nat)
    requires l < |m.layers| == |rows| && PassStores(m, 0, rows, after, prefix, news, key)
    ensures l < |after| && SameOutside(rows[l], after[l], news) && Holds(m, l, after[l], prefix + news, key)
  {
  }

  lemma CellKept(row: Row, after: Row, news: seq<Slot>, x: Slot)
    requires SameOutside(row, after, news) && 0 <= x < |row| && x !in news
    ensures 0 <= x < |after| && after[x] == row[x]
  {
  }

  lemma StoredPair(m: Model, l: nat, row: Row, prefix: seq<Slot>, news: seq<Slot>, key: Path, i: nat)
    requires l < |m.layers| && Holds(m, l, row, prefix + news, key) && |prefix| <= i < |prefix| + |news|
    ensures |prefix| + |news| == |key| && 0 <= news[i - |prefix|] < |row|
    ensures row[news[i - |prefix|]] == PairOf(m, l, key[..i + 1])
  {
    assert Gather(row, prefix + news)[i] == LayerPairs(m, l, key)[i];
    assert (prefix + news)[i] == news[i - |prefix|];
    PairsOfPrefix(m, l, key, i + 1);
  }

  // ---------------------------------------------------------------- ownership after a pass

  /** A missing prefix of the key is entered with the slot that holds it. */
  lemma NewEntry<R>(s: State<R>, key: Path, prefix: seq<Slot>, news: seq<Slot>, p: Path)
    requires Ready(s, key, prefix, news) && p !in s.entries && p in InsertAll(s.entries, key, prefix + news)
    ensures var x := InsertAll(s.entries, key, prefix + news)[p]; var after := s.holds + Holding(news, key, |prefix|);
            x in after && after[x] == p
  {
    hide Holding, InsertAll;
    HoldingExtends(s, key, prefix, news);
    var slots, i := prefix + news, |p| - 1;
    assert p == key[..i + 1] by {
      InsertedOnly(s.entries, key, slots, p);
    }
    InsertedAt(s.entries, key, slots, i + 1);
  }

  lemma InsertedOnly(entries: Entries, key: Path, value: seq<Slot>, p: Path)
    requires |key| == |value| && p in InsertAll(entries, key, value) && p !in entries
    ensures p != [] && p <= key
  {
  }

  /** Prefixes that were evicted while a request went on reading them are entered again, with its own slots. */
  lemma EntriesOwnStep<R>(s: State<R>, key: Path, prefix: seq<Slot>, news: seq<Slot>)
    requires Ready(s, key, prefix, news) && EntriesOwn(s.entries, s.holds)
    ensures EntriesOwn(InsertAll(s.entries, key, prefix + news), s.holds + Holding(news, key, |prefix|))
  {
    HoldingExtends(s, key, prefix, news);
    var e := InsertAll(s.entries, key, prefix + news);
    assert forall p | p in e && p in s.entries :: e[p] == s.entries[p];
    hide InsertAll, Holding, Ready;
    forall p | p in e ensures var after := s.holds + Holding(news, key, |prefix|); e[p] in after && after[e[p]] == p {
      if p !in s.entries {
        NewEntry(s, key, prefix, news, p);
      }
    }
  }

  lemma ReqOwnsKept(h: map<Slot, Path>, k: map<Slot, Path>, q: Req)
    requires ReqOwns(h, q) && (forall x | x in h :: x in k && k[x] == h[x])
    ensures ReqOwns(k, q)
  {
    forall i | 0 <= i < |q.slots| ensures q.slots[i] in k && k[q.slots[i]] == Tokens(q)[..i + 1] {
      var x := q.slots[i];
      assert x in h && h[x] == Tokens(q)[..i + 1];
    }
  }

  /** A step that passes over `key` for request `r` keeps ownership. */
  lemma OwnedStep<R>(m: Model, s: State<R>, u: State<R>, r: R, q: Req, key: Path, prefix: seq<Slot>, news: seq<Slot>)
    requires Base(m, s) && Owned(m, s) && Ready(s, key, prefix, news) && Fits(s.rows, prefix) && Fits(s.rows, news)
    requires u.size == s.size && u.rows == PassFor(m, s, prefix, news, key).0
    requires u.entries == InsertAll(s.entries, key, prefix + news)
    requires u.holds == s.holds + Holding(news, key, |prefix|)
    requires u.live == s.live[r := q] && Tokens(q) == key && q.slots == prefix + news
    requires Partition(u.size, u.free, u.holds)
    ensures Owned(m, u)
  {
    hide PassStores, KVHeld, EntriesOwn, Partition, ReqOwns, Holding, PassFor;
    ReadyPass(m, s, key, prefix, news);
    ReadyKV(m, s, key, prefix, news, u.rows, u.holds);
    EntriesOwnStep(s, key, prefix, news);
    HoldingExtends(s, key, prefix, news);
    forall y | y in u.live ensures ReqOwns(u.holds, u.live[y]) {
      if y != r {
        ReqOwnsKept(s.holds, u.holds, s.live[y]);
      } else {
        ReqOwnsNew(u.holds, q);
      }
    }
  }

  lemma ReqOwnsNew(h: map<Slot, Path>, q: Req)
    requires |q.slots| == |Tokens(q)|
    requires forall i | 0 <= i < |q.slots| :: q.slots[i] in h && h[q.slots[i]] == Tokens(q)[..i + 1]
    ensures ReqOwns(h, q)
  {
  }

  // ---------------------------------------------------------------- prefill

  lemma PrefillReady<R>(m: Model, s: State<R>, prompt: Path)
    requires Base(m, s) && Owned(m, s) && prompt != [] && CanPrefill(s, prompt)
    ensures var p := PlanPrefill(s, prompt); Ready(s, prompt, p.prefix, p.news)
  {
    hide LongestMatch, SlotsOf, PrefixClosed, Pinned, KVHeld, ReqOwns;
    var p, n := PlanPrefill(s, prompt), LongestMatch(s.entries, prompt);
    var cached := SlotsOf(s.entries, prompt, n);
    PlanInPool(m, s, prompt);
    forall i | 0 <= i < n ensures cached[i] in s.holds && s.holds[cached[i]] == prompt[..i + 1] {
      CachedSlot(s.entries, prompt, i + 1);
    }
    if n < |prompt| {
      FreeIsNew(s.size, s.free, s.holds, |s.free| - (|prompt| - n));
    }
  }

  /** The end of the free list: distinct slots, none of them in use. */
  lemma FreeIsNew(size: nat, free: seq<Slot>, holds: map<Slot, Path>, k: nat)
    requires Partition(size, free, holds) && k <= |free|
    ensures Distinct(free[k..]) && forall i | 0 <= i < |free[k..]| :: free[k..][i] !in holds
  {
    forall i | 0 <= i < |free[k..]| ensures free[k..][i] !in holds {
      assert free[k..][i] == free[k + i] && free[k + i] in free;
    }
  }

  /** Taking slots off the end of the free list and using them keeps the partition. */
  lemma TakePartition<R>(s: State<R>, key: Path, prefix: seq<Slot>, news: seq<Slot>, free: seq<Slot>)
    requires Ready(s, key, prefix, news) && Partition(s.size, s.free, s.holds)
    requires s.free == free + news || (s.free == free && forall x | x in news :: x in s.holds)
    ensures Partition(s.size, free, s.holds + Holding(news, key, |prefix|))
  {
    if s.free == free + news {
      SplitDistinct(free, news);
      assert forall x :: x in s.free <==> x in free || x in news;
    }
  }

  lemma SplitDistinct(a: seq<Slot>, b: seq<Slot>)
    requires Distinct(a + b)
    ensures Distinct(a) && forall x | x in a :: x !in b
  {
    forall i, j | 0 <= i < |a| && 0 <= j < |b| ensures a[i] != b[j] {
      assert (a + b)[i] != (a + b)[|a| + j];
    }
    forall i, j | 0 <= i < j < |a| ensures a[i] != a[j] {
      assert (a + b)[i] != (a + b)[j];
    }
  }

  lemma PrefillOwned<R>(m: Model, s: State<R>, r: R, prompt: Path)
    requires Base(m, s) && Owned(m, s) && prompt != [] && CanPrefill(s, prompt)
    ensures Owned(m, AfterPrefill(m, s, r, prompt))
  {
    hide KVHeld, Partition, ReqOwns, Holding, PassFor, Ready, PlanPrefill, InsertAll, CanPrefill, InPool, Pinned;
    var p, u := PlanPrefill(s, prompt), AfterPrefill(m, s, r, prompt);
    PrefillReady(m, s, prompt);
    PlanInPool(m, s, prompt);
    PrefillTakes(s, prompt);
    hide EntriesOwn, PrefixClosed, Base;
    TakePartition(s, prompt, p.prefix, p.news, p.free);
    assert Tokens(Req(prompt, [], p.prefix + p.news)) == prompt;
    OwnedStep(m, s, u, r, Req(prompt, [], p.prefix + p.news), prompt, p.prefix, p.news);
  }

  /** A prefill returns the logits of an uncached pass over the prompt and keeps ownership. */
  lemma PrefillExact<R>(m: Model, s: State<R>, r: R, prompt: Path)
    requires Base(m, s) && Owned(m, s) && prompt != [] && CanPrefill(s, prompt)
    ensures Owned(m, AfterPrefill(m, s, r, prompt))
    ensures PrefillLogits(m, s, prompt) == FullLogits(m, prompt)
  {
    PrefillOwned(m, s, r, prompt);
    hide PassStores, PassFor, Ready, PlanPrefill, FullPass, CanPrefill, KVHeld, AfterPrefill, Base;
    var p := PlanPrefill(s, prompt);
    PrefillReady(m, s, prompt);
    PlanInPool(m, s, prompt);
    ReadyPass(m, s, prompt, p.prefix, p.news);
  }

  /** A full hit writes only a slot that is already held. */
  lemma FullHitHeld<R>(s: State<R>, prompt: Path)
    requires prompt != [] && LongestMatch(s.entries, prompt) == |prompt| && EntriesOwn(s.entries, s.holds)
    ensures forall x | x in PlanPrefill(s, prompt).news :: x in s.holds
  {
    var n := |prompt|;
    var x := SlotsOf(s.entries, prompt, n)[n - 1];
    assert prompt[..n - 1 + 1] in s.entries && s.entries[prompt[..n - 1 + 1]] == x;
    assert PlanPrefill(s, prompt).news == [x];
  }

  /** A prefill's new slots come off the free list, or are held already on a full hit. */
  lemma PrefillTakes<R>(s: State<R>, prompt: Path)
    requires prompt != [] && CanPrefill(s, prompt) && EntriesOwn(s.entries, s.holds)
    ensures var p := PlanPrefill(s, prompt);
            s.free == p.free + p.news || (s.free == p.free && forall x | x in p.news :: x in s.holds)
  {
    hide LongestMatch, PlanPrefill, SlotsOf, EntriesOwn;
    PlanSlots(s, prompt);
    if LongestMatch(s.entries, prompt) == |prompt| {
      FullHitHeld(s, prompt);
    }
  }

  // ---------------------------------------------------------------- decode

  /** The slot a decode takes, and the key it stores there. */
  lemma DecodeTakes<R>(m: Model, s: State<R>, r: R, token: Token) returns (x: Slot, key: Path)
    requires Base(m, s) && Owned(m, s) && r in s.live && s.free != []
    ensures s.free == s.free[..|s.free| - 1] + [x] && x == s.free[|s.free| - 1] && x !in s.holds
    ensures key == Tokens(s.live[r]) + [token] && |key| == |s.live[r].slots| + 1 && Ready(s, key, s.live[r].slots, [x])
    ensures Fits(s.rows, s.live[r].slots) && Fits(s.rows, [x])
  {
    hide PassStores, KVHeld, EntriesOwn, Pinned;
    x, key := s.free[|s.free| - 1], Tokens(s.live[r]) + [token];
    LastFree(s.size, s.free, s.holds);
    assert ReqOwns(s.holds, s.live[r]);
    DecodeReady(s, s.live[r], token, x);
    BaseFits(m, s, s.live[r].slots);
    BaseFits(m, s, [x]);
  }

  lemma DecodeOwned<R>(m: Model, s: State<R>, r: R, token: Token)
    requires Base(m, s) && Owned(m, s) && r in s.live && s.free != []
    ensures Owned(m, AfterDecode(m, s, r, token))
  {
    hide KVHeld, EntriesOwn, Partition, ReqOwns, Holding, PassFor, Ready, InsertAll, Pinned, Base;
    var x, key := DecodeTakes(m, s, r, token);
    var u, q := AfterDecode(m, s, r, token), s.live[r];
    var next := Req(q.prompt, q.out + [token], q.slots + [x]);
    TakePartition(s, key, q.slots, [x], u.free);
    HoldingOne(s.holds, x, key, |q.slots|);
    assert Tokens(next) == key;
    OwnedStep(m, s, u, r, next, key, q.slots, [x]);
  }

  /** A decode returns the logits of an uncached pass over everything so far and the new token. */
  lemma DecodeExact<R>(m: Model, s: State<R>, r: R, token: Token)
    requires Base(m, s) && Owned(m, s) && r in s.live && s.free != []
    ensures Owned(m, AfterDecode(m, s, r, token))
    ensures DecodeLogits(m, s, r, token) == FullLogits(m, Tokens(s.live[r]) + [token])
  {
    hide PassStores, PassFor, Ready, FullPass, AfterDecode;
    DecodeOwned(m, s, r, token);
    var x, key := DecodeTakes(m, s, r, token);
    ReadyPass(m, s, key, s.live[r].slots, [x]);
  }

  lemma LastFree(size: nat, free: seq<Slot>, holds: map<Slot, Path>)
    requires Partition(size, free, holds) && free != []
    ensures var x := free[|free| - 1]; 1 <= x <= size && x !in holds
  {
    assert free[|free| - 1] in free;
  }

  lemma DecodeReady<R>(s: State<R>, q: Req, token: Token, x: Slot)
    requires ReqOwns(s.holds, q) && InPool(s.size, q.slots) && 1 <= x <= s.size && x !in s.holds
    ensures Ready(s, Tokens(q) + [token], q.slots, [x])
  {
    var key := Tokens(q) + [token];
    forall i | 0 <= i < |q.slots| ensures q.slots[i] in s.holds && s.holds[q.slots[i]] == key[..i + 1] {
      assert key[..i + 1] == Tokens(q)[..i + 1];
    }
  }

  lemma HoldingOne(holds: map<Slot, Path>, x: Slot, key: Path, k: nat)
    requires |key| == k + 1
    ensures holds + Holding([x], key, k) == holds[x := key]
  {
    assert IndexOf([x], x) == 0 && key[..k + 0 + 1] == key;
  }

  // ---------------------------------------------------------------- finish and evict

  lemma FinishKeeps<R>(m: Model, s: State<R>, r: R)
    requires RunnerInv(m, s)
    ensures RunnerInv(m, AfterFinish(s, r))
  {
  }

  /** An eviction keeps ownership if and only if it frees no slot that a live request reads. */
  lemma EvictOwned<R>(m: Model, s: State<R>, u: State<R>, removed: seq<Path>, freed: seq<Slot>)
    requires Base(m, s) && Owned(m, s) && IsEviction(s, u, removed, freed)
    ensures Owned(m, u) <==> SparesLive(s, freed)
  {
    hide KVHeld, PrefixClosed, EntriesOwn, Partition, ReqOwns, InPool, Pinned;
    EvictMaps(s.entries, s.holds, u.entries, removed, freed);
    EvictPartition(s.size, s.free, s.entries, s.holds, u.entries, removed, freed);
    KVHeldLess(m, s.rows, s.holds, u.holds);
    forall r | r in u.live
      ensures ReqOwns(u.holds, u.live[r]) <==> forall x | x in freed :: x !in s.live[r].slots
    {
      EvictReq(s.holds, freed, s.live[r]);
    }
  }

  lemma EvictReq(h: map<Slot, Path>, freed: seq<Slot>, q: Req)
    requires ReqOwns(h, q)
    ensures ReqOwns(h - (set x | x in freed), q) <==> forall x | x in freed :: x !in q.slots
  {
    var k := h - (set x | x in freed);
    if ReqOwns(k, q) {
      forall x | x in freed ensures x !in q.slots {
        assert x !in k;
      }
    } else {
      var i :| 0 <= i < |q.slots| && q.slots[i] !in k;
      var x := q.slots[i];
      assert x in freed && x in q.slots;
    }
  }

  /** An evicted slot that a live request reads was cached for the very prefix it reads there. */
  lemma FreedIsRead<R>(m: Model, s: State<R>, u: State<R>, removed: seq<Path>, freed: seq<Slot>, r: R, i: nat)
    requires Owned(m, s) && IsEviction(s, u, removed, freed)
    requires r in s.live && i < |s.live[r].slots| && s.live[r].slots[i] in freed
    ensures i < |Tokens(s.live[r])| && ReadsCached(s, r, i) && Tokens(s.live[r])[..i + 1] !in u.entries
  {
    hide KVHeld, Partition, PrefixClosed;
    var x := s.live[r].slots[i];
    var k :| 0 <= k < |freed| && freed[k] == x;
    assert ReqOwns(s.holds, s.live[r]);
    assert removed[k] in s.entries && s.entries[removed[k]] == x && removed[k] in removed;
  }

  /** Nothing on the prompt of a live request is evicted. */
  lemma ProtectedStays<R>(s: State<R>, u: State<R>, removed: seq<Path>, freed: seq<Slot>, p: Path)
    requires IsEviction(s, u, removed, freed) && Protected(s, p) && p != []
    ensures p in u.entries
  {
    var r :| r in s.live && p <= s.live[r].prompt;
    assert p == s.live[r].prompt[..|p|];
  }

  /** A sheltered state loses no live slot, whatever is evicted. */
  lemma ShelteredSpares<R>(m: Model, s: State<R>, u: State<R>, removed: seq<Path>, freed: seq<Slot>)
    requires Owned(m, s) && IsEviction(s, u, removed, freed) && Sheltered(s)
    ensures SparesLive(s, freed)
  {
    hide Owned, IsEviction, ReadsCached;
    forall r, x | r in s.live && x in freed ensures x !in s.live[r].slots {
      if x in s.live[r].slots {
        var i: nat :| i < |s.live[r].slots| && s.live[r].slots[i] == x;
        FreedIsRead(m, s, u, removed, freed, r, i);
        ProtectedStays(s, u, removed, freed, Tokens(s.live[r])[..i + 1]);
      }
    }
  }

  /** An eviction of everything that may go spares live requests if and only if the state was sheltered. */
  lemma CompleteSpares<R>(m: Model, s: State<R>, u: State<R>, removed: seq<Path>, freed: seq<Slot>)
    requires Owned(m, s) && IsEviction(s, u, removed, freed) && OnlyPrompts(u)
    ensures SparesLive(s, freed) <==> Sheltered(s)
  {
    if Sheltered(s) {
      ShelteredSpares(m, s, u, removed, freed);
    } else {
      var r, i: nat :| r in s.live && ReadsCached(s, r, i) && !Protected(s, Tokens(s.live[r])[..i + 1]);
      var p := Tokens(s.live[r])[..i + 1];
      assert u.live == s.live && p !in u.entries by {
        assert Protected(u, p) == Protected(s, p);
      }
      assert p in removed;
      var k :| 0 <= k < |removed| && removed[k] == p;
      var x := freed[k];
      assert x == s.live[r].slots[i] && x in freed && x in s.live[r].slots;
    }
  }

  /** Some order of the elements of a finite set. */
  ghost function Listed<T(!new)>(s: set<T>): (r: seq<T>)
    ensures Distinct(r) && forall x :: x in r <==> x in s
  {
    if s == {} then [] else var x :| x in s; Listed(s - {x}) + [x]
  }

  /** Removing any set of entries, in some order. */
  lemma RemoveSet(e: Entries, gone: set<Path>) returns (removed: seq<Path>, freed: seq<Slot>)
    requires gone <= e.Keys
    ensures Removed(e, e - gone, removed, freed)
  {
    removed := Listed(gone);
    forall i | 0 <= i < |removed| ensures removed[i] in e {
      assert removed[i] in gone;
    }
    freed := seq(|removed|, i requires 0 <= i < |removed| => e[removed[i]]);
    assert (set p | p in removed) == gone;
  }

  lemma ProtectedClosed<R>(s: State<R>, p: Path)
    requires PrefixClosed(s.entries) && p in s.entries && Protected(s, p)
    ensures p != [] && (|p| > 1 ==> p[..|p| - 1] in s.entries && Protected(s, p[..|p| - 1]))
  {
    var r :| r in s.live && p <= s.live[r].prompt;
    assert |p| > 1 ==> p[..|p| - 1] <= s.live[r].prompt;
  }

  lemma PromptProtected<R>(m: Model, s: State<R>, r: R, j: int)
    requires Base(m, s) && r in s.live && 0 < j <= |s.live[r].prompt|
    ensures s.live[r].prompt[..j] in s.entries && Protected(s, s.live[r].prompt[..j])
  {
    assert Pinned(s.entries, s.live[r]) && s.live[r].prompt[..j] <= s.live[r].prompt;
  }

  ghost function Unprotected<R>(s: State<R>): set<Path> {
    set p | p in s.entries && !Protected(s, p)
  }

  /** The protected entries are prefix-closed and contain every live prompt. */
  lemma ProtectedEntries<R>(m: Model, s: State<R>)
    requires Base(m, s)
    ensures var e := s.entries - Unprotected(s);
            && PrefixClosed(e) && (forall p | p in e :: Protected(s, p))
            && (forall r, j | r in s.live && 0 < j <= |s.live[r].prompt| :: s.live[r].prompt[..j] in e)
  {
    BaseIs(m, s);
    hide Base, Protected;
    var e := s.entries - Unprotected(s);
    forall p | p in e ensures p != [] && (|p| > 1 ==> p[..|p| - 1] in e) {
      ProtectedClosed(s, p);
    }
    forall r, j | r in s.live && 0 < j <= |s.live[r].prompt| ensures s.live[r].prompt[..j] in e {
      PromptProtected(m, s, r, j);
    }
  }

  /** The eviction of everything that no live prompt begins with. */
  lemma FullEviction<R>(m: Model, s: State<R>) returns (u: State<R>, removed: seq<Path>, freed: seq<Slot>)
    requires Base(m, s)
    ensures IsEviction(s, u, removed, freed) && OnlyPrompts(u)
  {
    hide Removed, Base, Protected, SparesLive, PrefixClosed, Unprotected;
    assert Unprotected(s) <= s.entries.Keys by {
      UnprotectedCached(s);
    }
    removed, freed := RemoveSet(s.entries, Unprotected(s));
    u := AfterEvict(s, s.entries - Unprotected(s), freed);
    ProtectedEntries(m, s);
    forall p | p in u.entries ensures Protected(u, p) {
      ProtectedSame(s, u, p);
    }
  }

  lemma UnprotectedCached<R>(s: State<R>)
    ensures Unprotected(s) <= s.entries.Keys
  {
  }

  lemma ProtectedSame<R>(s: State<R>, u: State<R>, p: Path)
    requires u.live == s.live
    ensures Protected(u, p) == Protected(s, p)
  {
  }

  /**
    No eviction frees a slot of a live request if and only if whatever live requests read from
    the tree is on a live prompt. Locks rule the harm out for prompts only, not for generated tokens.
   */
  lemma EvictionSpares<R>(m: Model, s: State<R>)
    requires Base(m, s) && Owned(m, s)
    ensures (forall u, removed, freed | IsEviction(s, u, removed, freed) :: SparesLive(s, freed)) <==> Sheltered(s)
  {
    hide Base, Owned, IsEviction, SparesLive, Sheltered, OnlyPrompts;
    if Sheltered(s) {
      forall u, removed, freed | IsEviction(s, u, removed, freed) ensures SparesLive(s, freed) {
        ShelteredSpares(m, s, u, removed, freed);
      }
    } else {
      var u, removed, freed := FullEviction(m, s);
      CompleteSpares(m, s, u, removed, freed);
    }
  }

  /** While no live request has generated tokens, all they read is on their own prompts. */
  lemma FreshSheltered<R>(s: State<R>)
    requires AllFresh(s)
    ensures Sheltered(s)
  {
    forall r, i: nat | r in s.live && ReadsCached(s, r, i) ensures Protected(s, Tokens(s.live[r])[..i + 1]) {
      assert Tokens(s.live[r]) == s.live[r].prompt;
    }
  }

  lemma KVHeldLess(m: Model, rows: seq<Row>, h: map<Slot, Path>, k: map<Slot, Path>)
    requires |rows| == |m.layers| && KVHeld(m, rows, h) && forall x | x in k :: x in h && h[x] == k[x]
    ensures KVHeld(m, rows, k)
  {
    hide Stores;
    forall x, l | x in k && 0 <= l < |rows| ensures Stores(m, rows, x, l, k[x]) {
      assert Stores(m, rows, x, l, h[x]);
    }
  }

  /** What stays cached keeps its slot, and no freed slot is still held. */
  lemma EvictMaps(e: Entries, h: map<Slot, Path>, f: Entries, removed: seq<Path>, freed: seq<Slot>)
    requires EntriesOwn(e, h) && Removed(e, f, removed, freed)
    ensures EntriesOwn(f, h - (set x | x in freed))
    ensures forall x | x in h && x !in freed && h[x] in e && e[h[x]] == x :: h[x] in f && f[h[x]] == x
    ensures Distinct(freed) && forall x | x in freed :: x in h
  {
    forall p | p in f ensures f[p] == e[p] && e[p] !in freed {
      assert h[e[p]] == p && p !in removed;
      forall i | 0 <= i < |freed| ensures freed[i] != e[p] {
        assert removed[i] in e && h[freed[i]] == removed[i] && removed[i] in removed;
      }
    }
    forall i, j | 0 <= i < j < |freed| ensures freed[i] != freed[j] {
      assert h[e[removed[i]]] == removed[i] && h[e[removed[j]]] == removed[j];
    }
  }

  lemma EvictPartition(size: nat, free: seq<Slot>, e: Entries, h: map<Slot, Path>, f: Entries, removed: seq<Path>, freed: seq<Slot>)
    requires EntriesOwn(e, h) && Removed(e, f, removed, freed) && Partition(size, free, h)
    ensures Partition(size, free + freed, h - (set x | x in freed))
  {
    EvictMaps(e, h, f, removed, freed);
    var all := free + freed;
    forall i, j | 0 <= i < j < |all| ensures all[i] != all[j] {
      if i < |free| <= j {
        assert all[i] in free && all[j] in freed;
      }
    }
  }
}
