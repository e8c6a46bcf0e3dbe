/**
  The request protocol as a state machine over values: free slots, the prefix map,
  the KV rows and the live requests. A request is named by a value of type `R`.
 */
module RunnerSpec {
  import opened PrefixMap
  import opened Sequences
  import opened KVPool
  import opened Transformer
  import opened RadixEvict

  datatype Req = Req(prompt: Path, out: Path, slots: seq<Slot>)

  ghost function Tokens(q: Req): Path { q.prompt + q.out }

  /**
    `holds` says whose pair each slot in use stores; `guarded` says that so far no eviction
    freed a slot of a live request.
   */
  datatype State<R(==)> = State(size: nat, free: seq<Slot>, entries: Entries, rows: seq<Row>, live: map<R, Req>,
                                holds: map<Slot, Path>, guarded: bool)

  // ---------------------------------------------------------------- invariants

  ghost predicate InPool(size: nat, slots: seq<Slot>) {
    forall i | 0 <= i < |slots| :: 1 <= slots[i] <= size
  }

  /** The first `|prompt|` slots of a live request are the cached ones of its prompt. */
  ghost predicate Pinned(entries: Entries, q: Req) {
    && q.prompt != [] && |q.slots| == |q.prompt| + |q.out|
    && forall j | 0 < j <= |q.prompt| :: q.prompt[..j] in entries && entries[q.prompt[..j]] == q.slots[j - 1]
  }

  /** What every run keeps, whatever is evicted when. */
  ghost predicate Base<R>(m: Model, s: State<R>) {
    && |s.rows| == |m.layers| && (forall l | 0 <= l < |s.rows| :: |s.rows[l]| == s.size + 1)
    && PrefixClosed(s.entries) && InPool(s.size, s.free)
    && (forall p | p in s.entries :: 1 <= s.entries[p] <= s.size)
    && (forall r | r in s.live :: Pinned(s.entries, s.live[r]) && InPool(s.size, s.live[r].slots))
  }

  /** Cached prefixes own their slots. */
  ghost predicate EntriesOwn(entries: Entries, holds: map<Slot, Path>) {
    forall p | p in entries :: entries[p] in holds && holds[entries[p]] == p
  }

  /** A live request's slots store its own tokens, whether these are still cached or not. */
  ghost predicate ReqOwns(holds: map<Slot, Path>, q: Req) {
    && |q.slots| == |Tokens(q)|
    && forall i | 0 <= i < |q.slots| :: q.slots[i] in holds && holds[q.slots[i]] == Tokens(q)[..i + 1]
  }

  /** Slot `x` stores, in layer `l`, the pair of the prefix `p`. */
  ghost predicate Stores(m: Model, rows: seq<Row>, x: Slot, l: nat, p: Path)
    requires l < |rows| == |m.layers|
  {
    0 <= x < |rows[l]| && p != [] && rows[l][x] == PairOf(m, l, p)
  }

  /** Every slot in use stores, in every layer, the pair of the prefix it stands for. */
  ghost predicate KVHeld(m: Model, rows: seq<Row>, holds: map<Slot, Path>)
    requires |rows| == |m.layers|
  {
    forall x, l {:trigger Stores(m, rows, x, l, holds[x])} | x in holds && 0 <= l < |rows| :: Stores(m, rows, x, l, holds[x])
  }

  /** Free slots and slots in use partition 1..size, without repetition. */
  ghost predicate Partition(size: nat, free: seq<Slot>, holds: map<Slot, Path>) {
    && Distinct(free)
    && (forall x :: 1 <= x <= size <==> x in free || x in holds)
    && (forall x | x in free :: x !in holds)
  }

  /** The slots in use that no cached prefix has: nothing but a live request can still refer to them. */
  ghost function Duplicates<R>(s: State<R>): set<Slot> {
    set x | x in s.holds && !(s.holds[x] in s.entries && s.entries[s.holds[x]] == x)
  }

  ghost predicate Owned<R>(m: Model, s: State<R>) {
    && |s.rows| == |m.layers|
    && EntriesOwn(s.entries, s.holds) && KVHeld(m, s.rows, s.holds)
    && (forall r | r in s.live :: ReqOwns(s.holds, s.live[r])) && Partition(s.size, s.free, s.holds)
  }

  ghost predicate RunnerInv<R>(m: Model, s: State<R>) {
    Base(m, s) && (s.guarded ==> Owned(m, s))
  }

  // ---------------------------------------------------------------- steps

  /** Which slots a prefill reuses, which it writes, and what it leaves free. */
  datatype Plan = Plan(prefix: seq<Slot>, news: seq<Slot>, free: seq<Slot>)

  /** A prefill needs a fresh slot for every uncached token, and none on a full hit. */
  ghost predicate CanPrefill<R>(s: State<R>, prompt: Path) {
    |prompt| - LongestMatch(s.entries, prompt) <= |s.free|
  }

  ghost function PlanPrefill<R>(s: State<R>, prompt: Path): (p: Plan)
    requires prompt != [] && CanPrefill(s, prompt)
    ensures |p.prefix| + |p.news| == |prompt| && p.news != []
  {
    var n := LongestMatch(s.entries, prompt);
    var cached := SlotsOf(s.entries, prompt, n);
    if n == |prompt| then Plan(cached[..n - 1], cached[n - 1..], s.free)
    else
      var k := |s.free| - (|prompt| - n);
      Plan(cached, s.free[k..], s.free[..k])
  }

  ghost function IndexOf(slots: seq<Slot>, x: Slot): (i: nat)
    requires x in slots
    ensures i < |slots| && slots[i] == x
  {
    var i :| 0 <= i < |slots| && slots[i] == x;
    i
  }

  /** The slots `news` now hold the prefixes of `p` beyond its first `k` tokens. */
  ghost function Holding(news: seq<Slot>, p: Path, k: nat): (r: map<Slot, Path>)
    requires k + |news| <= |p|
    ensures forall x :: x in r <==> x in news
  {
    map x | x in news :: p[..k + IndexOf(news, x) + 1]
  }

  /** The pass over the model that a prefill or decode makes. */
  ghost function PassFor<R>(m: Model, s: State<R>, prefix: seq<Slot>, news: seq<Slot>, p: Path): (seq<Row>, seq<Hidden>)
    requires |s.rows| == |m.layers| && |prefix| + |news| == |p| && Fits(s.rows, prefix) && Fits(s.rows, news)
  {
    CachedPass(m, 0, s.rows, prefix, news, Embedded(m, p[|prefix|..]))
  }

  lemma BaseFits<R>(m: Model, s: State<R>, slots: seq<Slot>)
    requires Base(m, s) && InPool(s.size, slots)
    ensures Fits(s.rows, slots)
  {
  }

  lemma PlanInPool<R>(m: Model, s: State<R>, prompt: Path)
    requires Base(m, s) && prompt != [] && CanPrefill(s, prompt)
    ensures var p := PlanPrefill(s, prompt);
            InPool(s.size, p.prefix) && InPool(s.size, p.news) && InPool(s.size, p.free)
            && Fits(s.rows, p.prefix) && Fits(s.rows, p.news)
  {
    hide LongestMatch, SlotsOf, PrefixClosed, Pinned;
    var n, p := LongestMatch(s.entries, prompt), PlanPrefill(s, prompt);
    CachedInPool(s.entries, prompt, s.size);
    InPoolSlices(s.size, SlotsOf(s.entries, prompt, n), if n == |prompt| then n - 1 else 0);
    InPoolSlices(s.size, s.free, |s.free| - (|prompt| - n));
    BaseFits(m, s, p.prefix);
    BaseFits(m, s, p.news);
  }

  lemma CachedInPool(entries: Entries, key: Path, size: nat)
    requires forall p | p in entries :: 1 <= entries[p] <= size
    ensures InPool(size, SlotsOf(entries, key, LongestMatch(entries, key)))
  {
    hide LongestMatch, SlotsOf;
    var slots := SlotsOf(entries, key, LongestMatch(entries, key));
    forall i | 0 <= i < |slots| ensures 1 <= slots[i] <= size {
      CachedSlot(entries, key, i + 1);
    }
  }

  lemma InPoolSlices(size: nat, slots: seq<Slot>, k: nat)
    requires InPool(size, slots) && k <= |slots|
    ensures InPool(size, slots[..k]) && InPool(size, slots[k..])
  {
  }

  /** The pool after the pass of a prefill. */
  ghost function PrefillRows<R>(m: Model, s: State<R>, prompt: Path): seq<Row>
    requires Base(m, s) && prompt != [] && CanPrefill(s, prompt)
  {
    PlanInPool(m, s, prompt);
    var p := PlanPrefill(s, prompt);
    PassFor(m, s, p.prefix, p.news, prompt).0
  }

  /** A prefill between its pass and its insert. */
  ghost function PrefillPassed<R>(m: Model, s: State<R>, prompt: Path): State<R>
    requires Base(m, s) && prompt != [] && CanPrefill(s, prompt)
  {
    s.(free := PlanPrefill(s, prompt).free, rows := PrefillRows(m, s, prompt))
  }

  /** The state after a prefill of `prompt` by request `r`. */
  ghost function AfterPrefill<R>(m: Model, s: State<R>, r: R, prompt: Path): State<R>
    requires Base(m, s) && prompt != [] && CanPrefill(s, prompt)
  {
    PlanInPool(m, s, prompt);
    var p := PlanPrefill(s, prompt);
    s.(free := p.free,
       entries := InsertAll(s.entries, prompt, p.prefix + p.news),
       rows := PrefillRows(m, s, prompt),
       live := s.live[r := Req(prompt, [], p.prefix + p.news)],
       holds := s.holds + Holding(p.news, prompt, |p.prefix|))
  }

  ghost function PrefillLogits<R>(m: Model, s: State<R>, prompt: Path): Logits
    requires Base(m, s) && prompt != [] && CanPrefill(s, prompt)
  {
    PlanInPool(m, s, prompt);
    var p := PlanPrefill(s, prompt);
    var hs := PassFor(m, s, p.prefix, p.news, prompt).1;
    m.head(hs[|hs| - 1])
  }

  /** The pool after the pass of a decode. */
  ghost function DecodeRows<R>(m: Model, s: State<R>, r: R, token: Token): seq<Row>
    requires Base(m, s) && r in s.live && s.free != []
  {
    var q := s.live[r];
    var x := s.free[|s.free| - 1];
    BaseFits(m, s, q.slots);
    BaseFits(m, s, [x]);
    PassFor(m, s, q.slots, [x], Tokens(q) + [token]).0
  }

  /** A decode between its pass and its insert. */
  ghost function DecodePassed<R>(m: Model, s: State<R>, r: R, token: Token): State<R>
    requires Base(m, s) && r in s.live && s.free != []
  {
    s.(free := s.free[..|s.free| - 1], rows := DecodeRows(m, s, r, token))
  }

  /** The state after request `r` decodes `token` into the last free slot. */
  ghost function AfterDecode<R>(m: Model, s: State<R>, r: R, token: Token): State<R>
    requires Base(m, s) && r in s.live && s.free != []
  {
    var q := s.live[r];
    var x := s.free[|s.free| - 1];
    var p := Tokens(q) + [token];
    s.(free := s.free[..|s.free| - 1],
       entries := InsertAll(s.entries, p, q.slots + [x]),
       rows := DecodeRows(m, s, r, token),
       live := s.live[r := Req(q.prompt, q.out + [token], q.slots + [x])],
       holds := s.holds[x := p])
  }

  ghost function DecodeLogits<R>(m: Model, s: State<R>, r: R, token: Token): Logits
    requires Base(m, s) && r in s.live && s.free != []
  {
    var q := s.live[r];
    var x := s.free[|s.free| - 1];
    BaseFits(m, s, q.slots);
    BaseFits(m, s, [x]);
    m.head(PassFor(m, s, q.slots, [x], Tokens(q) + [token]).1[0])
  }

  ghost function AfterFinish<R>(s: State<R>, r: R): State<R> {
    s.(live := s.live - {r})
  }

  /** No live request has generated tokens. */
  ghost predicate AllFresh<R>(s: State<R>) {
    forall r | r in s.live :: s.live[r].out == []
  }

  /** No freed slot is one a live request reads. */
  ghost predicate SparesLive<R>(s: State<R>, freed: seq<Slot>) {
    forall r, x | r in s.live && x in freed :: x !in s.live[r].slots
  }

  ghost function AfterEvict<R>(s: State<R>, entries: Entries, freed: seq<Slot>): State<R> {
    s.(free := s.free + freed, entries := entries, holds := s.holds - (set x | x in freed),
       guarded := s.guarded && SparesLive(s, freed))
  }

  /** An eviction removes entries, but none on the prompt of a live request, and frees their slots. */
  ghost predicate IsEviction<R>(s: State<R>, u: State<R>, removed: seq<Path>, freed: seq<Slot>) {
    && Removed(s.entries, u.entries, removed, freed) && PrefixClosed(u.entries)
    && (forall r, j | r in s.live && 0 < j <= |s.live[r].prompt| :: s.live[r].prompt[..j] in u.entries)
    && u == AfterEvict(s, u.entries, freed)
  }

  /** A live request holds the lock on a prompt that `p` begins. */
  ghost predicate Protected<R>(s: State<R>, p: Path) {
    exists r :: r in s.live && p <= s.live[r].prompt
  }

  /** Nothing is cached but the beginnings of live prompts. */
  ghost predicate OnlyPrompts<R>(s: State<R>) {
    forall p | p in s.entries :: Protected(s, p)
  }

  /** Request `r` reads its token `i` from the slot that the tree has for the prefix ending there. */
  ghost predicate ReadsCached<R>(s: State<R>, r: R, i: nat)
    requires r in s.live
  {
    var q := s.live[r];
    i < |q.slots| && i < |Tokens(q)| && Tokens(q)[..i + 1] in s.entries && s.entries[Tokens(q)[..i + 1]] == q.slots[i]
  }

  /** Whatever live requests read from the tree is on the prompt of a live request. */
  ghost predicate Sheltered<R>(s: State<R>) {
    forall r, i: nat | r in s.live && ReadsCached(s, r, i) :: Protected(s, Tokens(s.live[r])[..i + 1])
  }
}
