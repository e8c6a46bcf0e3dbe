/** The request runner: prefill, decode and finish over one shared cache and pool. */
module ModelRunners {
  import opened PrefixMap
  import opened Sequences
  import opened Results
  import opened Clocks
  import opened TokenPool
  import opened KVPool
  import opened Transformer
  import opened EvictPolicies
  import opened TreeNodes
  import opened RadixTree
  import opened RadixBooks
  import opened RadixEvict
  import opened RadixCaches
  import opened RunnerSpec
  import opened RunnerSafety
  import opened RunnerRuns
  import opened RunnerSlots
  import opened Generation

  /** The state of one request in flight. */
  class RequestState {
    const requestId: string
    const promptTokens: Path
    const radixNode: TreeNode
    const prefixLen: nat
    const kvCaches: seq<PooledKVCache>
    var outputTokens: Path
    var allSlotIndices: seq<Slot>

    constructor (requestId: string, promptTokens: Path, allSlotIndices: seq<Slot>, radixNode: TreeNode, prefixLen: nat,
                 kvCaches: seq<PooledKVCache>)
      ensures this.requestId == requestId && this.promptTokens == promptTokens && this.radixNode == radixNode
      ensures this.prefixLen == prefixLen && this.kvCaches == kvCaches
      ensures outputTokens == [] && this.allSlotIndices == allSlotIndices
    {
      this.requestId := requestId;
      this.promptTokens := promptTokens;
      this.allSlotIndices := allSlotIndices;
      this.radixNode := radixNode;
      this.prefixLen := prefixLen;
      this.kvCaches := kvCaches;
      outputTokens := [];
    }

    /** Prompt and generated tokens. */
    function SeqLen(): nat
      reads this`outputTokens
    {
      |promptTokens| + |outputTokens|
    }

    function TotalCachedLen(): nat
      reads this`allSlotIndices
    {
      |allSlotIndices|
    }
  }

  /** One adapter per layer, in order, all over the same pool. */
  ghost predicate CachesOk(caches: seq<PooledKVCache>, pool: MHATokenPool) {
    && |caches| == pool.numLayers
    && forall l | 0 <= l < |caches| :: caches[l].pool == pool && caches[l].layerIdx == l
  }

  /** From layer `l` on, the adapters are set to these slots and have stored nothing yet. */
  ghost predicate CachesSet(caches: seq<PooledKVCache>, l: nat, prefix: seq<Slot>, news: seq<Slot>)
    reads set c | c in caches
  {
    forall j | l <= j < |caches| ::
      caches[j].prefixIndices == prefix && caches[j].newIndices == news && caches[j].storeOffset == 0
  }

  /** The held locks are those of the live requests, one each, on the nodes they remember. */
  ghost predicate LocksHeld(live: set<RequestState>, order: seq<RequestState>, tree: Tree, held: seq<Path>) {
    && Distinct(order) && |order| == |held| && (forall r | r in live :: r in order)
    && (forall i | 0 <= i < |order| :: order[i] in live && held[i] == order[i].promptTokens)
    && (forall r | r in live :: r.radixNode in tree.nd && tree.nd[r.radixNode].path == r.promptTokens)
  }

  /** Only live requests are registered, each under its own name. */
  ghost predicate Active(live: set<RequestState>, active: map<string, RequestState>) {
    forall id | id in active :: active[id] in live && active[id].requestId == id
  }

  class ModelRunner {
    const model: Model
    const allocator: TokenPoolAllocator
    const pool: MHATokenPool
    const radixCache: RadixCache
    var activeRequests: map<string, RequestState>

    /** The protocol state this runner is in, and the live requests in the order of the locks they hold. */
    ghost var spec: State<RequestState>
    ghost var order: seq<RequestState>

    /** The protocol state it began in, and the steps taken since. */
    ghost const start: State<RequestState>
    ghost var past: seq<Step<RequestState>>

    /** The cache stands for these entries and gives evicted slots back to the allocator. */
    ghost predicate Caching(entries: Entries)
      reads radixCache, radixCache.tree.nd.Keys`key, radixCache.tree.nd.Keys`value, radixCache.tree.nd.Keys`children
      reads radixCache.tree.nd.Keys`lockRef, radixCache.tree.nd.Keys`parent
    {
      radixCache.Valid() && radixCache.allocator == allocator && Wf(radixCache.tree) && Contents(radixCache.tree) == entries
    }

    /** The allocator and the pool hold these free slots and rows. */
    ghost predicate Stocked(s: State<RequestState>)
      reads allocator`freeSlots, pool.kBuffer, pool.vBuffer
    {
      && pool.Valid() && pool.numLayers == |model.layers| && pool.poolSize == s.size
      && s.free == allocator.freeSlots && s.rows == pool.Rows()
    }

    /** Every live request is as the protocol state records it. */
    ghost predicate Requests(live: map<RequestState, Req>)
      reads live.Keys`outputTokens, live.Keys`allSlotIndices
    {
      forall r | r in live :: live[r] == Req(r.promptTokens, r.outputTokens, r.allSlotIndices) && CachesOk(r.kvCaches, pool)
    }

    /** The protocol state is what the cache, the pool and the requests hold. */
    ghost predicate Stands(s: State<RequestState>)
      reads allocator`freeSlots, radixCache, pool.kBuffer, pool.vBuffer
      reads radixCache.tree.nd.Keys`key, radixCache.tree.nd.Keys`value, radixCache.tree.nd.Keys`children
      reads radixCache.tree.nd.Keys`lockRef, radixCache.tree.nd.Keys`parent
      reads s.live.Keys`outputTokens, s.live.Keys`allSlotIndices
    {
      Caching(s.entries) && Stocked(s) && Requests(s.live)
    }

    /** The steps taken are a run from the empty pool to `s`. */
    ghost predicate Reached(s: State<RequestState>)
      reads this`past
    {
      && start == EmptyPool(model, start.size, start.rows)
      && |start.rows| == |model.layers| && (forall l | 0 <= l < |start.rows| :: |start.rows[l]| == start.size + 1)
      && IsRun(model, start, past) && Last(start, past) == s
    }

    lemma Begun()
      requires past == [] && start == EmptyPool(model, start.size, start.rows) && |start.rows| == |model.layers|
      requires forall l | 0 <= l < |start.rows| :: |start.rows[l]| == start.size + 1
      ensures Reached(start)
    {
    }

    ghost predicate Valid()
      reads this, allocator`freeSlots, radixCache, pool.kBuffer, pool.vBuffer
      reads radixCache.tree.nd.Keys`key, radixCache.tree.nd.Keys`value, radixCache.tree.nd.Keys`children
      reads radixCache.tree.nd.Keys`lockRef, radixCache.tree.nd.Keys`parent
      reads spec.live.Keys`outputTokens, spec.live.Keys`allSlotIndices
    {
      && Stands(spec) && RunnerInv(model, spec) && Reached(spec)
      && LocksHeld(spec.live.Keys, order, radixCache.tree, radixCache.held) && Active(spec.live.Keys, activeRequests)
    }

    constructor (model: Model, poolSize: nat, zeroK: KeyVec, zeroV: ValueVec)
      requires poolSize > 0
      ensures Valid() && activeRequests == map[] && order == []
      ensures spec == start == EmptyPool(model, poolSize, ZeroRows(|model.layers|, poolSize, zeroK, zeroV)) && past == []
      ensures this.model == model && pool.poolSize == poolSize && radixCache.strategy == LRU
    {
      hide Reached, Inv, Contents, RunnerInv, Wf, MHATokenPool.Rows, Descending, ZeroRows;
      this.model := model;
      var a, p, cache := NewParts(poolSize, |model.layers|, zeroK, zeroV);
      allocator, pool, radixCache := a, p, cache;
      activeRequests := map[];
      order := [];
      spec := EmptyPool(model, poolSize, p.Rows());
      start := EmptyPool(model, poolSize, p.Rows());
      past := [];
      new;
      Begun();
      EmptyPoolInv<RequestState>(model, poolSize, p.Rows());
    }

    /** The checked form of construction: the allocator refuses a pool without slots. */
    static method Create(model: Model, poolSize: int, zeroK: KeyVec, zeroV: ValueVec) returns (r: Result<ModelRunner>)
      ensures poolSize <= 0 ==> r == ValueError
      ensures poolSize > 0 ==>
                && r.Ok? && fresh(r.value) && r.value.Valid() && r.value.activeRequests == map[] && r.value.order == []
                && r.value.model == model && r.value.pool.poolSize == poolSize && r.value.radixCache.strategy == LRU
                && r.value.spec == r.value.start == EmptyPool(model, poolSize, ZeroRows(|model.layers|, poolSize, zeroK, zeroV))
                && r.value.past == []
    {
      if poolSize <= 0 {
        return ValueError;
      }
      hide RunnerInv, LocksHeld, ZeroRows, EmptyPool, Inv, Wf, Contents;
      var runner := new ModelRunner(model, poolSize, zeroK, zeroV);
      r := Ok(runner);
    }

    /** A full free list, a zeroed pool, and an empty cache over them; `lru` is the default policy. */
    static method NewParts(poolSize: nat, layers: nat, zeroK: KeyVec, zeroV: ValueVec)
      returns (a: TokenPoolAllocator, p: MHATokenPool, cache: RadixCache)
      requires poolSize > 0
      ensures fresh(a) && fresh(p) && fresh(p.kBuffer) && fresh(p.vBuffer) && fresh(cache) && fresh(cache.tree.nd.Keys)
      ensures fresh(cache.clock) && cache.allocator == a && a.freeSlots == Descending(poolSize)
      ensures p.Valid() && p.poolSize == poolSize && p.numLayers == layers
      ensures p.Rows() == ZeroRows(layers, poolSize, zeroK, zeroV)
      ensures cache.Valid() && Wf(cache.tree) && Contents(cache.tree) == map[] && cache.held == [] && cache.strategy == LRU
    {
      hide *;
      a := new TokenPoolAllocator(poolSize);
      p := new MHATokenPool(poolSize, layers, zeroK, zeroV);
      var clock := new Clock();
      cache := new RadixCache(LRU, clock);
      cache.SetAllocator(a);
      cache.RootIn();
    }

    /** One layer of the model, whose attention calls its adapter once. */
    method ForwardLayer(l: nat, cache: PooledKVCache, hs: seq<Hidden>) returns (r: seq<Hidden>)
      requires pool.Valid() && pool.numLayers == |model.layers| && l < |model.layers|
      requires cache.pool == pool && cache.layerIdx == l && cache.Valid()
      requires cache.storeOffset == 0 && |cache.newIndices| == |hs|
      modifies cache`storeOffset, pool.kBuffer, pool.vBuffer
      ensures var step := LayerStep(model.layers[l], old(pool.RowOf(l)), cache.prefixIndices, cache.newIndices, hs);
              pool.Rows() == old(pool.Rows())[l := step.0] && r == step.1
    {
      hide Scatter, Gather;
      var y, at := model.layers[l], cache.Offset();
      var pairs := PairsAt(y, hs, at);
      var keys := seq(|pairs|, i requires 0 <= i < |pairs| => pairs[i].k);
      var values := seq(|pairs|, i requires 0 <= i < |pairs| => pairs[i].v);
      assert Zip(keys, values) == pairs;
      var allKeys, allValues := cache.UpdateAndFetch(keys, values);
      r := AttendAll(y, hs, Zip(allKeys, allValues), at);
    }

    /** A forward pass over the new tokens, every layer through its own adapter. */
    method Forward(caches: seq<PooledKVCache>, tokens: Path, ghost prefix: seq<Slot>, ghost news: seq<Slot>)
      returns (logits: Logits)
      requires pool.Valid() && pool.numLayers == |model.layers|
      requires CachesOk(caches, pool) && CachesSet(caches, 0, prefix, news)
      requires Fits(pool.Rows(), prefix) && Fits(pool.Rows(), news) && |tokens| == |news| > 0
      modifies (set c | c in caches)`storeOffset, pool.kBuffer, pool.vBuffer
      ensures var pass := CachedPass(model, 0, old(pool.Rows()), prefix, news, Embedded(model, tokens));
              pool.Rows() == pass.0 && logits == model.head(pass.1[|tokens| - 1])
    {
      hide LayerStep, Fits;
      var hs := Embedded(model, tokens);
      var l := 0;
      ghost var rows := pool.Rows();
      while l < |model.layers|
        invariant l <= |model.layers| && |hs| == |tokens| && CachesSet(caches, l, prefix, news)
        invariant Fits(pool.Rows(), prefix) && Fits(pool.Rows(), news)
        invariant CachedPass(model, l, pool.Rows(), prefix, news, hs)
               == CachedPass(model, 0, rows, prefix, news, Embedded(model, tokens))
      {
        FitsRow(pool.Rows(), prefix, l);
        FitsRow(pool.Rows(), news, l);
        ghost var before, row := pool.Rows(), LayerStep(model.layers[l], pool.RowOf(l), prefix, news, hs).0;
        hs := ForwardLayer(l, caches[l], hs);
        FitsStep(before, prefix, l, row);
        FitsStep(before, news, l, row);
        l := l + 1;
      }
      logits := model.head(hs[|hs| - 1]);
    }
  
    /** One adapter per layer, all set to the same slots. */
    method MakeCaches(prefix: seq<Slot>, news: seq<Slot>, ghost s: State<RequestState>) returns (caches: seq<PooledKVCache>)
      requires Stands(s)
      ensures Stands(s) && CachesOk(caches, pool) && CachesSet(caches, 0, prefix, news) && forall c | c in caches :: fresh(c)
    {
      hide Inv, Contents, Wf, MHATokenPool.Rows;
      caches := [];
      for i := 0 to pool.numLayers
        invariant Stands(s) && |caches| == i && (forall l | 0 <= l < i :: caches[l].pool == pool && caches[l].layerIdx == l)
        invariant CachesSet(caches, 0, prefix, news) && forall c | c in caches :: fresh(c)
      {
        var cache := new PooledKVCache(pool, i);
        cache.SetIndices(prefix, news);
        caches := caches + [cache];
      }
    }

    /** Points every adapter of a request at new slots; what was stored before becomes the prefix. */
    method SetCaches(caches: seq<PooledKVCache>, prefix: seq<Slot>, news: seq<Slot>, ghost s: State<RequestState>)
      requires Stands(s) && CachesOk(caches, pool)
      modifies set c | c in caches
      ensures Stands(s) && CachesSet(caches, 0, prefix, news)
    {
      hide Inv, Contents, Wf, MHATokenPool.Rows;
      for i := 0 to |caches|
        invariant Stands(s)
        invariant forall j | 0 <= j < i ::
                    caches[j].prefixIndices == prefix && caches[j].newIndices == news && caches[j].storeOffset == 0
      {
        caches[i].SetIndices(prefix, news);
      }
    }

    /** The slots a prefill reuses and the ones it writes. */
    method PrefillSlots(prompt: Path) returns (r: Result<(seq<Slot>, seq<Slot>)>)
      requires Stands(spec) && prompt != []
      modifies allocator, radixCache`tree, radixCache.tree.nd.Keys, radixCache.clock
      ensures radixCache.Grown(old(radixCache.tree))
      ensures forall n | n in radixCache.tree.nd :: n in old(radixCache.tree).nd || fresh(n)
      ensures if CanPrefill(spec, prompt)
              then var p := PlanPrefill(spec, prompt); r == Ok((p.prefix, p.news)) && Stands(spec.(free := p.free))
              else r == MemoryError && Stands(spec)
    {
      hide Inv, Contents, LongestMatch, SlotsOf, Wf, Stands;
      var indices := CachedSlots(prompt, spec);
      var prefixLen := |indices|;
      if prefixLen >= |prompt| && prefixLen > 0 {
        prefixLen := prefixLen - 1;
        assert indices[prefixLen..] == [indices[prefixLen]];
        return Ok((indices[..prefixLen], [indices[prefixLen]]));
      }
      var news := TakeSlots(|prompt| - prefixLen, spec);
      if news.MemoryError? {
        return MemoryError;
      }
      r := Ok((indices, news.value));
    }

    /** The slots of the cached part of a prompt. */
    method CachedSlots(prompt: Path, ghost s: State<RequestState>) returns (indices: seq<Slot>)
      requires Stands(s)
      modifies radixCache`tree, radixCache.tree.nd.Keys, radixCache.clock
      ensures Stands(s) && radixCache.Grown(old(radixCache.tree))
      ensures forall n | n in radixCache.tree.nd :: n in old(radixCache.tree).nd || fresh(n)
      ensures indices == SlotsOf(s.entries, prompt, LongestMatch(s.entries, prompt))
    {
      hide *;
      StandsParts(s);
      var slots, _, _ := radixCache.MatchPrefix(prompt);
      indices := slots;
      radixCache.RootIn();
      StandsWith(s, s.entries);
    }

    /** Takes `n` slots off the end of the free list, or none. */
    method TakeSlots(n: nat, ghost s: State<RequestState>) returns (r: Result<seq<Slot>>)
      requires Stands(s) && n > 0
      modifies allocator
      ensures if n > |s.free| then r == MemoryError && Stands(s)
              else r == Ok(s.free[|s.free| - n..]) && Stands(s.(free := s.free[..|s.free| - n]))
    {
      hide Inv, Contents, Wf, MHATokenPool.Rows, CachesOk;
      r := allocator.Alloc(n);
    }

    /** Caches a key; what was cached of it keeps its slots. */
    method CacheKey(key: Path, slots: seq<Slot>, ghost s: State<RequestState>)
      requires Stands(s) && |slots| == |key|
      modifies radixCache`tree, radixCache`evictableSize, radixCache`evictableLeaves, radixCache.tree.nd.Keys, radixCache.clock
      ensures Stands(s.(entries := InsertAll(s.entries, key, slots))) && radixCache.Grown(old(radixCache.tree))
      ensures forall n | n in radixCache.tree.nd :: n in old(radixCache.tree).nd || fresh(n)
    {
      hide *;
      StandsParts(s);
      ghost var entries := InsertAll(s.entries, key, slots);
      var _, _ := radixCache.Insert(key, Some(slots), 0);
      radixCache.RootIn();
      StandsWith(s, entries);
    }

    lemma StandsParts(s: State<RequestState>)
      requires Stands(s)
      ensures Stocked(s) && Requests(s.live) && radixCache.Valid() && radixCache.allocator == allocator
      ensures Wf(radixCache.tree) && Contents(radixCache.tree) == s.entries
    {
      hide Wf, Contents, Inv, RadixCache.Valid;
    }

    lemma StandsWith(s: State<RequestState>, entries: Entries)
      requires Stocked(s) && Requests(s.live) && radixCache.Valid() && radixCache.allocator == allocator
      requires Wf(radixCache.tree) && Contents(radixCache.tree) == entries
      ensures Stands(s.(entries := entries)) && (entries == s.entries ==> Stands(s))
    {
      hide Wf, Contents, Inv, RadixCache.Valid;
    }

    /** Finds the node that spells a cached key. */
    method FindKey(key: Path, ghost s: State<RequestState>) returns (node: TreeNode)
      requires Stands(s) && LongestMatch(s.entries, key) == |key|
      modifies radixCache`tree, radixCache.tree.nd.Keys, radixCache.clock
      ensures Stands(s) && radixCache.Grown(old(radixCache.tree))
      ensures node in radixCache.tree.nd && radixCache.tree.nd[node].path == key
      ensures forall n | n in radixCache.tree.nd :: n in old(radixCache.tree).nd || fresh(n)
    {
      hide *;
      StandsParts(s);
      assert key[..|key|] == key;
      var _, last, _ := radixCache.MatchPrefix(key);
      node := last;
      radixCache.RootIn();
      StandsWith(s, s.entries);
    }

    method LockNode(node: TreeNode, ghost s: State<RequestState>)
      requires Stands(s) && node in radixCache.tree.nd
      modifies radixCache`tree, radixCache`held, radixCache`evictableSize, radixCache`protectedSize, radixCache`evictableLeaves
      modifies radixCache.tree.nd.Keys`lockRef
      ensures Stands(s) && radixCache.Grown(old(radixCache.tree)) && radixCache.tree.nd.Keys == old(radixCache.tree).nd.Keys
      ensures radixCache.held == old(radixCache.held) + [old(radixCache.tree).nd[node].path]
    {
      hide Inv, Contents, Wf, MHATokenPool.Rows, CachesOk, RadixCache.Valid, RadixCache.Shape;
      var _ := radixCache.IncLockRef(node);
      radixCache.LocksOf();
      assert Stocked(s) && Requests(s.live) && Caching(s.entries);
      hide Caching, Stocked, Requests;
    }

    /** Releases the lock on a request's prompt, the `j`-th one held. */
    method ReleaseLock(state: RequestState, ghost j: nat, ghost s: State<RequestState>)
      requires Stands(s) && state.radixNode in radixCache.tree.nd
      requires j < |radixCache.held| && radixCache.held[j] == radixCache.tree.nd[state.radixNode].path
      modifies radixCache`tree, radixCache`held, radixCache`evictableSize, radixCache`protectedSize
      modifies radixCache`evictableLeaves, radixCache.tree.nd.Keys`lockRef
      ensures Stands(s) && radixCache.Grown(old(radixCache.tree))
      ensures radixCache.held == old(radixCache.held)[..j] + old(radixCache.held)[j + 1..]
    {
      hide Inv, Contents, Wf, MHATokenPool.Rows, CachesOk, RadixCache.Valid, RadixCache.Shape;
      var _ := radixCache.DecLockRef(state.radixNode, j);
      radixCache.LocksOf();
      assert Stocked(s) && Requests(s.live) && Caching(s.entries);
      hide Caching, Stocked, Requests;
    }

    /** Locks the node that spells a cached key. */
    method LockKey(key: Path, ghost s: State<RequestState>) returns (node: TreeNode)
      requires Stands(s) && LongestMatch(s.entries, key) == |key|
      modifies radixCache`tree, radixCache`held, radixCache`evictableSize, radixCache`protectedSize, radixCache`evictableLeaves
      modifies radixCache.tree.nd.Keys, radixCache.clock
      ensures Stands(s) && radixCache.Grown(old(radixCache.tree)) && radixCache.held == old(radixCache.held) + [key]
      ensures node in radixCache.tree.nd && radixCache.tree.nd[node].path == key
      ensures forall n | n in radixCache.tree.nd :: n in old(radixCache.tree).nd || fresh(n)
    {
      hide Stands, LongestMatch;
      node := FindKey(key, s);
      LockNode(node, s);
    }

    /** Caches the prompt, and locks the node that spells it. */
    method CachePrompt(prompt: Path, slots: seq<Slot>, ghost s: State<RequestState>) returns (node: TreeNode)
      requires Stands(s) && PrefixClosed(s.entries) && |slots| == |prompt|
      modifies radixCache`tree, radixCache`held, radixCache`evictableSize, radixCache`protectedSize, radixCache`evictableLeaves
      modifies radixCache.tree.nd.Keys, radixCache.clock
      ensures Stands(s.(entries := InsertAll(s.entries, prompt, slots)))
      ensures radixCache.Grown(old(radixCache.tree)) && radixCache.held == old(radixCache.held) + [prompt]
      ensures node in radixCache.tree.nd && radixCache.tree.nd[node].path == prompt
      ensures forall n | n in radixCache.tree.nd :: n in old(radixCache.tree).nd || fresh(n)
    {
      hide Stands, LongestMatch, InsertAll, PrefixClosed;
      ghost var u := s.(entries := InsertAll(s.entries, prompt, slots));
      InsertKeepsPrefixClosed(s.entries, prompt, slots);
      CacheKey(prompt, slots, s);
      node := LockKey(prompt, u);
    }

    /** The first half of a prefill: takes slots and runs the model over what is not cached. */
    method PrefillPass(prompt: Path) returns (r: Result<(seq<Slot>, nat, seq<PooledKVCache>, Logits)>)
      requires Stands(spec) && Base(model, spec) && prompt != []
      modifies allocator, radixCache`tree, radixCache.tree.nd.Keys, radixCache.clock, pool.kBuffer, pool.vBuffer
      ensures radixCache.Grown(old(radixCache.tree))
      ensures forall n | n in radixCache.tree.nd :: n in old(radixCache.tree).nd || fresh(n)
      ensures if CanPrefill(spec, prompt) then
                var p := PlanPrefill(spec, prompt);
                && r.Ok? && r.value.0 == p.prefix + p.news && r.value.1 == |p.prefix|
                && r.value.3 == PrefillLogits(model, spec, prompt) && Stands(PrefillPassed(model, spec, prompt))
                && CachesOk(r.value.2, pool) && (forall c | c in r.value.2 :: fresh(c))
              else r == MemoryError && Stands(spec)
    {
      hide Base, CanPrefill, PlanPrefill, CachedPass, CachesOk, CachesSet, Stands;
      var taken := PrefillSlots(prompt);
      if taken.MemoryError? {
        return MemoryError;
      }
      var (prefix, news) := taken.value;
      PlanInPool(model, spec, prompt);
      BaseIs(model, spec);
      ghost var s := spec.(free := PlanPrefill(spec, prompt).free);
      var kvCaches := MakeCaches(prefix, news, s);
      var logits := RunModel(kvCaches, prompt[|prefix|..], prefix, news, s);
      r := Ok((prefix + news, |prefix|, kvCaches, logits));
    }

    /** Runs the model; only the pool's rows change. */
    method RunModel(caches: seq<PooledKVCache>, tokens: Path, ghost prefix: seq<Slot>, ghost news: seq<Slot>,
                    ghost s: State<RequestState>)
      returns (logits: Logits)
      requires Stands(s) && CachesOk(caches, pool) && CachesSet(caches, 0, prefix, news)
      requires Fits(s.rows, prefix) && Fits(s.rows, news) && |tokens| == |news| > 0 && |s.rows| == |model.layers|
      modifies (set c | c in caches)`storeOffset, pool.kBuffer, pool.vBuffer
      ensures var pass := CachedPass(model, 0, s.rows, prefix, news, Embedded(model, tokens));
              Stands(s.(rows := pass.0)) && logits == model.head(pass.1[|tokens| - 1])
    {
      hide Fits, CachedPass, CachesSet, Inv, Contents, Wf;
      logits := Forward(caches, tokens, prefix, news);
    }

    /** Prefill: reuses the cached prefix of the prompt, computes the rest, caches and locks the prompt. */
    method ForwardPrefill(requestId: string, prompt: Path) returns (r: Result<(RequestState, Logits)>)
      requires Valid() && prompt != []
      modifies this, allocator, radixCache, radixCache.tree.nd.Keys, radixCache.clock, pool.kBuffer, pool.vBuffer
      ensures Valid()
      ensures !CanPrefill(old(spec), prompt) ==> r == MemoryError && spec == old(spec) && order == old(order)
      ensures r == MemoryError ==> activeRequests == old(activeRequests) && past == old(past)
      ensures CanPrefill(old(spec), prompt) ==>
                && r.Ok? && fresh(r.value.0) && r.value.0.requestId == requestId
                && r.value.0.prefixLen == |PlanPrefill(old(spec), prompt).prefix|
                && Next(model, old(spec), Step(Prefill(r.value.0, prompt), spec, Some(r.value.1)))
                && order == old(order) + [r.value.0] && activeRequests == old(activeRequests)[requestId := r.value.0]
                && past == old(past) + [Step(Prefill(r.value.0, prompt), spec, Some(r.value.1))]
      ensures r.Ok? && spec.guarded ==> r.value.1 == FullLogits(model, prompt)
      ensures r.Ok? ==> forall c | c in r.value.0.kvCaches :: fresh(c)
      ensures forall n | n in radixCache.tree.nd :: n in old(radixCache.tree).nd || fresh(n)
    {
      hide Reached, RunnerInv, Base, CanPrefill, PlanPrefill, PrefillLogits, FullLogits, LocksHeld, Active, Stands, Next, PrefillPassed, CachesOk;
      ghost var s, t := spec, radixCache.tree;
      InvBase(model, s);
      var pass := PrefillPass(prompt);
      LocksGrow(s.live.Keys, order, t, radixCache.tree, radixCache.held);
      if pass.MemoryError? {
        return MemoryError;
      }
      var (slots, prefixLen, kvCaches, logits) := pass.value;
      var state := EnterRequest(requestId, prompt, slots, prefixLen, kvCaches);
      PrefillStep(model, s, state, prompt);
      r := Ok((state, logits));
    }

    /** The second half of a prefill: caches and locks the prompt and records the request. */
    method EnterRequest(requestId: string, prompt: Path, slots: seq<Slot>, prefixLen: nat, kvCaches: seq<PooledKVCache>)
      returns (state: RequestState)
      requires RunnerInv(model, spec) && Base(model, spec) && prompt != [] && CanPrefill(spec, prompt) && CachesOk(kvCaches, pool)
      requires Stands(PrefillPassed(model, spec, prompt))
      requires LocksHeld(spec.live.Keys, order, radixCache.tree, radixCache.held) && Active(spec.live.Keys, activeRequests)
      requires Reached(spec)
      requires var p := PlanPrefill(spec, prompt); slots == p.prefix + p.news
      modifies this, radixCache, radixCache.tree.nd.Keys, radixCache.clock
      ensures Valid() && spec == AfterPrefill(model, old(spec), state, prompt) && state !in old(spec).live
      ensures fresh(state) && state.requestId == requestId && state.prefixLen == prefixLen && state.kvCaches == kvCaches
      ensures order == old(order) + [state] && activeRequests == old(activeRequests)[requestId := state]
      ensures past == old(past) + [Step(Prefill(state, prompt), spec, Some(PrefillLogits(model, old(spec), prompt)))]
      ensures forall n | n in radixCache.tree.nd :: n in old(radixCache.tree).nd || fresh(n)
    {
      hide Reached, RunnerInv, CanPrefill, PlanPrefill, InsertAll, LocksHeld, Active, Stands, AfterPrefill, Base, PrefillPassed, CachesOk;
      ghost var t, s := radixCache.tree, spec;
      BaseIs(model, s);
      ghost var v := PrefillPassed(model, s, prompt);
      PrefillPassedIs(model, s, prompt);
      var node := CachePrompt(prompt, slots, v);
      LocksGrow(s.live.Keys, order, t, radixCache.tree, old(radixCache.held));
      state := Admit(requestId, prompt, slots, node, prefixLen, kvCaches, old(radixCache.held));
    }

    /** The end of every operation: registers the requests now in flight; `t` is the protocol step taken. */
    method Conclude(active: map<string, RequestState>, ghost inOrder: seq<RequestState>, ghost t: Step<RequestState>)
      requires Reached(spec) && Next(model, spec, t) && Stands(t.after) && RunnerInv(model, t.after)
      requires LocksHeld(t.after.live.Keys, inOrder, radixCache.tree, radixCache.held) && Active(t.after.live.Keys, active)
      modifies this
      ensures Valid() && activeRequests == active && order == inOrder && spec == t.after && past == old(past) + [t]
    {
      hide RunnerInv, Stands, LocksHeld, Active, Next;
      Extend(model, start, past, t);
      activeRequests := active;
      order := inOrder;
      past := past + [t];
      spec := t.after;
    }

    method NewRequest(requestId: string, prompt: Path, slots: seq<Slot>, node: TreeNode, prefixLen: nat,
                      kvCaches: seq<PooledKVCache>, ghost s: State<RequestState>)
      returns (state: RequestState)
      requires Stands(s) && CachesOk(kvCaches, pool)
      ensures fresh(state) && state !in s.live && Stands(s.(live := s.live[state := Req(prompt, [], slots)]))
      ensures state.requestId == requestId && state.promptTokens == prompt && state.radixNode == node
      ensures state.prefixLen == prefixLen && state.kvCaches == kvCaches
    {
      hide Inv, Contents, Wf, MHATokenPool.Rows, CachesOk;
      state := new RequestState(requestId, prompt, slots, node, prefixLen, kvCaches);
    }

    /** Records a request whose prompt has just been cached and locked. */
    method Admit(requestId: string, prompt: Path, slots: seq<Slot>, node: TreeNode, prefixLen: nat,
                 kvCaches: seq<PooledKVCache>, ghost held: seq<Path>)
      returns (state: RequestState)
      requires RunnerInv(model, spec) && Base(model, spec) && prompt != [] && CanPrefill(spec, prompt) && CachesOk(kvCaches, pool)
      requires var p := PlanPrefill(spec, prompt); slots == p.prefix + p.news
      requires Stands(PrefillPassed(model, spec, prompt).(entries := InsertAll(spec.entries, prompt, slots)))
      requires LocksHeld(spec.live.Keys, order, radixCache.tree, held) && radixCache.held == held + [prompt]
      requires Active(spec.live.Keys, activeRequests) && Reached(spec)
      requires node in radixCache.tree.nd && radixCache.tree.nd[node].path == prompt
      modifies this
      ensures Valid() && spec == AfterPrefill(model, old(spec), state, prompt) && state !in old(spec).live
      ensures fresh(state) && state.requestId == requestId && state.prefixLen == prefixLen && state.kvCaches == kvCaches
      ensures order == old(order) + [state] && activeRequests == old(activeRequests)[requestId := state]
      ensures past == old(past) + [Step(Prefill(state, prompt), spec, Some(PrefillLogits(model, old(spec), prompt)))]
    {
      hide Reached, RunnerInv, CanPrefill, PlanPrefill, InsertAll, LocksHeld, Active, Stands, AfterPrefill, Base, PrefillPassed, Next;
      ghost var s := spec;
      ghost var v := PrefillPassed(model, s, prompt).(entries := InsertAll(s.entries, prompt, slots));
      PrefillPassedIs(model, s, prompt);
      state := NewRequest(requestId, prompt, slots, node, prefixLen, kvCaches, v);
      ghost var u, w := AfterPrefill(model, s, state, prompt), v.(live := v.live[state := Req(prompt, [], slots)]);
      AfterPrefillIs(model, s, state, prompt);
      StandsSame(w, u);
      LocksAdd(s.live.Keys, order, radixCache.tree, held, state);
      ActiveAdd(s.live.Keys, activeRequests, state);
      PrefillStep(model, s, state, prompt);
      assert u.live.Keys == s.live.Keys + {state};
      Conclude(activeRequests[requestId := state], order + [state], Step(Prefill(state, prompt), u, Some(PrefillLogits(model, s, prompt))));
    }

    /** Only these five components are held by the runner's parts. */
    lemma StandsSame(s: State<RequestState>, u: State<RequestState>)
      requires Stands(s) && s.size == u.size && s.free == u.free && s.entries == u.entries && s.rows == u.rows && s.live == u.live
      ensures Stands(u)
    {
    }

    lemma StandsWithout(s: State<RequestState>, state: RequestState)
      requires Stands(s)
      ensures Stands(AfterFinish(s, state))
    {
    }

    lemma StandsFor(s: State<RequestState>, state: RequestState)
      requires Stands(s) && state in s.live
      ensures s.live[state] == Req(state.promptTokens, state.outputTokens, state.allSlotIndices) && CachesOk(state.kvCaches, pool)
    {
    }

    /** The first half of a decode: takes a slot and runs the model over the one token. */
    method DecodePass(state: RequestState, token: Token) returns (r: Result<(Slot, Logits)>)
      requires Stands(spec) && Base(model, spec) && state in spec.live
      modifies allocator, (set c | c in state.kvCaches), pool.kBuffer, pool.vBuffer
      ensures if spec.free == [] then r == MemoryError && Stands(spec)
              else
                && r.Ok? && r.value.0 == spec.free[|spec.free| - 1]
                && Stands(DecodePassed(model, spec, state, token)) && r.value.1 == DecodeLogits(model, spec, state, token)
    {
      hide Base, CachedPass, Stands, CachesOk, CachesSet;
      StandsFor(spec, state);
      var newSlot := TakeSlots(1, spec);
      if newSlot.MemoryError? {
        return MemoryError;
      }
      ghost var q, s := spec.live[state], spec.(free := spec.free[..|spec.free| - 1]);
      DecodeFits(model, spec, state);
      BaseIs(model, spec);
      assert newSlot.value == [newSlot.value[0]] && newSlot.value[0] == spec.free[|spec.free| - 1];
      SetCaches(state.kvCaches, state.allSlotIndices, newSlot.value, s);
      var logits := RunModel(state.kvCaches, [token], q.slots, newSlot.value, s);
      assert (Tokens(q) + [token])[|q.slots|..] == [token];
      r := Ok((newSlot.value[0], logits));
    }

    method AppendToken(state: RequestState, token: Token, slot: Slot, ghost s: State<RequestState>)
      requires Stands(s) && state in s.live
      modifies state
      ensures var q := s.live[state]; Stands(s.(live := s.live[state := Req(q.prompt, q.out + [token], q.slots + [slot])]))
    {
      hide Caching, MHATokenPool.Rows, CachesOk;
      state.outputTokens := state.outputTokens + [token];
      state.allSlotIndices := state.allSlotIndices + [slot];
    }

    /** Extends a request by a token and its slot, and caches all it has processed. */
    method CacheToken(state: RequestState, token: Token, slot: Slot, ghost s: State<RequestState>)
      requires Stands(s) && state in s.live && |s.live[state].slots| == |s.live[state].prompt| + |s.live[state].out|
      modifies state, radixCache`tree, radixCache`evictableSize, radixCache`evictableLeaves, radixCache.tree.nd.Keys, radixCache.clock
      ensures var q := s.live[state]; var out, slots := q.out + [token], q.slots + [slot];
              Stands(s.(live := s.live[state := Req(q.prompt, out, slots)], entries := InsertAll(s.entries, q.prompt + out, slots)))
      ensures radixCache.Grown(old(radixCache.tree))
      ensures forall n | n in radixCache.tree.nd :: n in old(radixCache.tree).nd || fresh(n)
    {
      hide Stands, InsertAll, CachesOk;
      ghost var q := s.live[state];
      ghost var w := s.(live := s.live[state := Req(q.prompt, q.out + [token], q.slots + [slot])]);
      AppendToken(state, token, slot, s);
      StandsFor(w, state);
      var allTokens := state.promptTokens + state.outputTokens;
      CacheKey(allTokens, state.allSlotIndices, w);
    }

    /** The second half of a decode: extends the request and caches all it has processed; its lock stays as it is. */
    method ExtendRequest(state: RequestState, token: Token, slot: Slot)
      requires RunnerInv(model, spec) && Base(model, spec) && state in spec.live
      requires spec.free != [] && slot == spec.free[|spec.free| - 1] && Stands(DecodePassed(model, spec, state, token))
      requires LocksHeld(spec.live.Keys, order, radixCache.tree, radixCache.held) && Active(spec.live.Keys, activeRequests)
      requires Reached(spec)
      modifies this, state, radixCache, radixCache.tree.nd.Keys, radixCache.clock
      ensures Valid() && order == old(order) && activeRequests == old(activeRequests)
      ensures spec == AfterDecode(model, old(spec), state, token)
      ensures past == old(past) + [Step(Decode(state, token), spec, Some(DecodeLogits(model, old(spec), state, token)))]
      ensures forall n | n in radixCache.tree.nd :: n in old(radixCache.tree).nd || fresh(n)
    {
      hide Reached, RunnerInv, InsertAll, LocksHeld, AfterDecode, Base, Next, Tokens, Active, Stands, DecodeLogits, DecodePassed, FullLogits;
      ghost var s, t, held, running, active := spec, radixCache.tree, radixCache.held, order, activeRequests;
      ghost var u, v := AfterDecode(model, s, state, token), DecodePassed(model, s, state, token);
      DecodePassedIs(model, s, state, token);
      assert s.free == v.free + [slot];
      AfterDecodeIs(model, s, state, token, v.free, slot);
      DecodeStep(model, s, state, token);
      assert u.live.Keys == s.live.Keys;
      CacheToken(state, token, slot, v);
      StandsSame(v.(live := u.live, entries := u.entries), u);
      LocksGrow(u.live.Keys, running, t, radixCache.tree, held);
      Conclude(activeRequests, running, Step(Decode(state, token), u, Some(DecodeLogits(model, s, state, token))));
    }

    /** Decode: processes one token in a fresh slot and returns the logits for the next. */
    method ForwardDecode(state: RequestState, token: Token) returns (r: Result<Logits>)
      requires Valid() && state in spec.live
      modifies this, allocator, state, (set c | c in state.kvCaches), radixCache, radixCache.tree.nd.Keys, radixCache.clock
      modifies pool.kBuffer, pool.vBuffer
      ensures Valid() && order == old(order) && activeRequests == old(activeRequests)
      ensures old(spec).free == [] ==> r == MemoryError && spec == old(spec) && past == old(past)
      ensures old(spec).free != [] ==>
                && r.Ok? && Next(model, old(spec), Step(Decode(state, token), spec, Some(r.value)))
                && past == old(past) + [Step(Decode(state, token), spec, Some(r.value))]
      ensures r.Ok? && spec.guarded ==> r.value == FullLogits(model, Tokens(old(spec).live[state]) + [token])
      ensures forall n | n in radixCache.tree.nd :: n in old(radixCache.tree).nd || fresh(n)
    {
      hide Reached, RunnerInv, DecodeLogits, FullLogits, LocksHeld, AfterDecode, Base, Next, Stands, Active, DecodePassed, Tokens;
      InvBase(model, spec);
      var pass := DecodePass(state, token);
      if pass.MemoryError? {
        return MemoryError;
      }
      ExtendRequest(state, token, pass.value.0);
      DecodeStep(model, old(spec), state, token);
      r := Ok(pass.value.1);
    }

    /** Unlocks a request's prompt; what it cached stays until it is evicted. */
    method FinishRequest(state: RequestState) returns (ghost j: nat)
      requires Valid() && state in spec.live
      modifies this, radixCache`tree, radixCache`held, radixCache`evictableSize, radixCache`protectedSize
      modifies radixCache`evictableLeaves, radixCache.tree.nd.Keys`lockRef
      ensures Valid() && Next(model, old(spec), Step(Finish(state), spec, None))
      ensures past == old(past) + [Step(Finish(state), spec, None)]
      ensures j < |old(order)| && old(order)[j] == state && order == old(order)[..j] + old(order)[j + 1..]
      ensures activeRequests == old(activeRequests) - {state.requestId}
    {
      hide Reached, RunnerInv, Next, LocksHeld, Stands, Active, AfterFinish;
      LiveMember(spec.live.Keys, order, radixCache.tree, radixCache.held, state);
      ghost var s, u, t, held := spec, AfterFinish(spec, state), radixCache.tree, radixCache.held;
      j :| 0 <= j < |order| && order[j] == state;
      ghost var rest, left := order[..j] + order[j + 1..], held[..j] + held[j + 1..];
      var active := activeRequests - {state.requestId};
      FinishStep(model, s, state);
      LocksDrop(s.live.Keys, order, t, held, j);
      ActiveDrop(s.live.Keys, activeRequests, state);
      FinishLive(s, state);
      StandsWithout(s, state);
      ReleaseLock(state, j, u);
      LocksGrow(u.live.Keys, rest, t, radixCache.tree, left);
      Conclude(active, rest, Step(Finish(state), u, None));
    }

    method EvictSlots(numTokens: int, ghost s: State<RequestState>) returns (numEvicted: nat, ghost h: History)
      requires Stands(s)
      modifies allocator, radixCache`tree, radixCache`evictableSize, radixCache`evictableLeaves
      modifies radixCache.tree.nd.Keys`children
      ensures radixCache.Valid() && Stands(AfterEvict(s, Contents(radixCache.tree), h.freed))
      ensures Evicted(h, old(radixCache.tree), radixCache.tree)
      ensures numEvicted == |h.freed| == old(radixCache.evictableSize) - radixCache.evictableSize
      ensures numEvicted < numTokens ==> radixCache.evictableSize == 0
      ensures h.victims != [] ==> numEvicted - LastSize(h) < numTokens
    {
      hide Inv, Contents, Wf, Evicted, MHATokenPool.Rows, SparesLive, LastSize, CachesOk;
      numEvicted, h := radixCache.Evict(numTokens);
      radixCache.RootOf();
    }

    /**
      Evicts from the cache; `h` records what went. Locked prompts stay, generated tokens may not:
      an eviction of all there is to evict spares the live requests' slots exactly when the
      state was sheltered. With no live request it then frees all but what the decodes so far have left over.
     */
    method EvictCache(numTokens: int) returns (numEvicted: nat, ghost h: History)
      requires Valid()
      modifies this, allocator, radixCache`tree, radixCache`evictableSize, radixCache`evictableLeaves
      modifies radixCache.tree.nd.Keys`children
      ensures Valid() && order == old(order) && activeRequests == old(activeRequests)
      ensures Evicted(h, old(radixCache.tree), radixCache.tree)
      ensures numEvicted == |h.freed| == old(radixCache.evictableSize) - radixCache.evictableSize
      ensures numEvicted < numTokens ==> radixCache.evictableSize == 0
      ensures h.victims != [] ==> numEvicted - LastSize(h) < numTokens
      ensures Next(model, old(spec), Step(Evict(h.removed, h.freed), spec, None))
      ensures past == old(past) + [Step(Evict(h.removed, h.freed), spec, None)]
      ensures spec.guarded <==> old(spec.guarded) && SparesLive(old(spec), h.freed)
      ensures Sheltered(old(spec)) ==> spec.guarded == old(spec.guarded)
      ensures numTokens >= old(radixCache.evictableSize) ==> OnlyPrompts(spec)
      ensures numTokens >= old(radixCache.evictableSize) && old(spec.guarded) ==> (spec.guarded <==> Sheltered(old(spec)))
      ensures numTokens >= old(radixCache.evictableSize) && old(order) == [] && spec.guarded ==>
                spec.entries == map[] && |allocator.freeSlots| == pool.poolSize - TotalLost(start, past)
    {
      hide Reached, Inv, Contents, Wf, RunnerInv, Next, Evicted, Removed, LocksHeld, SparesLive, RadixCache.Valid, Stands;
      hide Reached, IsEviction, Sheltered, OnlyPrompts, Base, Active, LocksOk, LastSize, Duplicates;
      ghost var s, t, held, running := spec, radixCache.tree, radixCache.held, order;
      StandsEntries(s);
      numEvicted, h := EvictSlots(numTokens, s);
      radixCache.LocksOf();
      ghost var u := AfterEvict(s, Contents(radixCache.tree), h.freed);
      EvictedIs(h, t, radixCache.tree);
      LocksShrink(s.live.Keys, running, t, radixCache.tree, held);
      PromptsStay(s.live, running, radixCache.tree, held);
      EvictionOf(s, radixCache.tree, h.removed, h.freed);
      EvictStep(model, s, u, h.removed, h.freed);
      radixCache.EvictableOf();
      if numTokens >= old(radixCache.evictableSize) {
        PromptsLeft(u, running, radixCache.tree, held, radixCache.Figures());
      }
      EvictedGuard(model, s, u, h.removed, h.freed);
      Conclude(activeRequests, running, Step(Evict(h.removed, h.freed), u, None));
      if numTokens >= old(radixCache.evictableSize) && running == [] && spec.guarded {
        Drained();
      }
    }

    lemma StandsEntries(s: State<RequestState>)
      requires Stands(s)
      ensures forall r | r in s.live :: s.live[r].prompt == r.promptTokens
      ensures Wf(radixCache.tree) && s.entries == Contents(radixCache.tree)
    {
      hide Wf, Contents;
    }

    /** At any time: what is free, what is cached, and what the decodes so far have left over make up the pool. */
    lemma Conserved()
      requires Valid() && spec.guarded
      ensures |allocator.freeSlots| + |spec.entries| + TotalLost(start, past) == pool.poolSize
    {
      assert Stocked(spec);
      hide Inv, Contents, Wf, CachesOk, Caching, Requests, RunnerInv, LocksHeld, Active, IsRun, TotalLost;
      RunConserves(model, start.size, start.rows, past);
    }

    lemma Drained()
      requires Valid() && spec.guarded && order == [] && OnlyPrompts(spec)
      ensures spec.entries == map[] && |allocator.freeSlots| == pool.poolSize - TotalLost(start, past)
    {
      assert spec.live.Keys == {};
      hide Stands, RunnerInv, LocksHeld, Active, OnlyPrompts, Reached, TotalLost;
      Conserved();
      NothingCached(spec);
    }

    /** Every token of a live request has its slot: what it has processed and what it has cached are equally long. */
    lemma LengthsAgree(state: RequestState)
      requires Valid() && state in spec.live
      ensures state.SeqLen() == state.TotalCachedLen() == |Tokens(spec.live[state])|
    {
      hide Inv, Contents, Wf, CachesOk, Caching, Stocked, Owned, LocksHeld, Active;
      assert Pinned(spec.entries, spec.live[state]);
    }

    /** One turn of `generate`: samples a token and, unless it is a stop token, decodes it. */
    method GenerateStep(state: RequestState, logits: Logits, sampler: Logits -> Token, stopTokens: set<Token>, ghost s: State<RequestState>,
                        ghost prompt: Path, generated: Path)
      returns (token: Token, next: Option<Result<Logits>>)
      requires Valid() && prompt != [] && Generating(s, spec, state, prompt, generated)
      modifies this, allocator, state, (set c | c in state.kvCaches), radixCache, radixCache.tree.nd.Keys, radixCache.clock
      modifies pool.kBuffer, pool.vBuffer
      ensures Valid() && order == old(order) && activeRequests == old(activeRequests)
      ensures token == sampler(logits) && (next.None? <==> token in stopTokens)
      ensures next.None? ==> spec == old(spec)
      ensures old(past) <= past
      ensures next.Some? ==> next.value.MemoryError? || next.value.Ok?
      ensures next.Some? && next.value.MemoryError? ==> spec == old(spec) && spec.free == []
      ensures next.Some? && next.value.Ok? ==>
                && Generating(s, spec, state, prompt, generated + [token])
                && (spec.guarded ==> next.value.value == FullLogits(model, prompt + (generated + [token])))
      ensures forall n | n in radixCache.tree.nd :: n in old(radixCache.tree).nd || fresh(n)
    {
      hide Reached, RunnerInv, Next, LocksHeld, Stands, Active, LongestMatch, FullLogits;
      token := sampler(logits);
      if token in stopTokens {
        return token, None;
      }
      ghost var u := spec;
      var r := ForwardDecode(state, token);
      if r.Ok? {
        GeneratingNext(model, s, u, Step(Decode(state, token), spec, Some(r.value)), state, prompt, generated, token);
        assert Tokens(u.live[state]) + [token] == prompt + (generated + [token]);
      }
      next := Some(r);
    }
  
    /** Prefill, then sample and decode until a stop token or `maxTokens`; the name is a fresh one. */
    method Generate(requestId: string, prompt: Path, maxTokens: int, sampler: Logits -> Token, stopTokens: set<Token>)
      returns (r: Result<Path>)
      requires Valid() && prompt != []
      modifies this, allocator, radixCache, radixCache.tree.nd.Keys, radixCache.clock, pool.kBuffer, pool.vBuffer
      ensures Valid() && !r.ValueError? && old(past) <= past
      ensures r.Ok? && spec.guarded ==> r.value == UncachedLoop(model, prompt, [], maxTokens, sampler, stopTokens)
      ensures r.Ok? ==>
                && spec.live == old(spec).live && order == old(order) && spec.guarded == old(spec).guarded
                && activeRequests == old(activeRequests) - {requestId} && radixCache.held == old(radixCache.held)
                && |spec.free| == |old(spec).free| - (|prompt| - LongestMatch(old(spec).entries, prompt))
                                    - |Fed(r.value, stopTokens)|
      ensures r.MemoryError? ==>
                || (spec == old(spec) && order == old(order))
                || (spec.free == [] && |order| == |old(order)| + 1 && order[..|old(order)|] == old(order)
                    && order[|old(order)|] in spec.live)
    {
      hide Reached, RunnerInv, Next, LocksHeld, Stands, Active, LongestMatch, FullLogits, UncachedLoop;
      hide Generating;
      ghost var s := spec;
      var prefilled := ForwardPrefill(requestId, prompt);
      if prefilled.MemoryError? {
        return MemoryError;
      }
      var (state, logits) := prefilled.value;
      assert old(past) <= past;
      GeneratingStart(model, s, Step(Prefill(state, prompt), spec, Some(logits)), state, prompt);
      assert forall c | c in state.kvCaches :: fresh(c);
      assert forall n | n in radixCache.tree.nd :: n in old(radixCache.tree).nd || fresh(n);
      r := GenerateFrom(state, logits, maxTokens, sampler, stopTokens, s, prompt, old(order));
      if r.Ok? {
        HeldByOrder(s.live.Keys, order, old(radixCache.tree), old(radixCache.held), radixCache.tree, radixCache.held);
      }
    }

    /** All of `generate` after its prefill: the loop, and the end of the request. */
    method GenerateFrom(state: RequestState, first: Logits, maxTokens: int, sampler: Logits -> Token, stopTokens: set<Token>,
                        ghost s: State<RequestState>, ghost prompt: Path, ghost before: seq<RequestState>)
      returns (r: Result<Path>)
      requires Valid() && prompt != [] && Generating(s, spec, state, prompt, []) && order == before + [state]
      requires spec.guarded ==> first == FullLogits(model, prompt)
      modifies this, allocator, state, (set c | c in state.kvCaches), radixCache, radixCache.tree.nd.Keys, radixCache.clock
      modifies pool.kBuffer, pool.vBuffer
      ensures Valid() && !r.ValueError? && old(past) <= past
      ensures r.Ok? && spec.guarded ==> r.value == UncachedLoop(model, prompt, [], maxTokens, sampler, stopTokens)
      ensures r.Ok? ==>
                && spec.live == s.live && order == before && spec.guarded == s.guarded
                && activeRequests == old(activeRequests) - {state.requestId}
                && |spec.free| == |s.free| - (|prompt| - LongestMatch(s.entries, prompt)) - |Fed(r.value, stopTokens)|
      ensures r.MemoryError? ==> spec.free == [] && order == before + [state] && state in spec.live
    {
      hide Reached, RunnerInv, Next, LocksHeld, Stands, Active, LongestMatch, FullLogits, UncachedLoop;
      hide Generating;
      r := GenerateLoop(state, first, maxTokens, sampler, stopTokens, s, prompt);
      if r.Ok? {
        GeneratingLive(s, spec, state, prompt, Fed(r.value, stopTokens));
        EndRequest(state, before, s, prompt, Fed(r.value, stopTokens));
      }
    }

    method EndRequest(state: RequestState, ghost before: seq<RequestState>, ghost s: State<RequestState>, ghost prompt: Path,
                      ghost out: Path)
      requires Valid() && Generating(s, spec, state, prompt, out) && order == before + [state]
      modifies this, radixCache`tree, radixCache`held, radixCache`evictableSize, radixCache`protectedSize
      modifies radixCache`evictableLeaves, radixCache.tree.nd.Keys`lockRef
      ensures Valid() && order == before && activeRequests == old(activeRequests) - {state.requestId} && old(past) <= past
      ensures spec.live == s.live && spec.guarded == s.guarded
      ensures |spec.free| == |s.free| - (|prompt| - LongestMatch(s.entries, prompt)) - |out|
    {
      hide Reached, RunnerInv, Stands, Active, LongestMatch, Generating, Next;
      ghost var u, t, held := spec, radixCache.tree, radixCache.held;
      GeneratingLive(s, u, state, prompt, out);
      ghost var j := FinishRequest(state);
      LastInOrder(u.live.Keys, before, state, t, held, j);
      GeneratingEnd(model, s, u, Step(Finish(state), spec, None), state, prompt, out);
    }

    /** The loop of `generate`, over a request that has just been prefilled. */
    method GenerateLoop(state: RequestState, first: Logits, maxTokens: int, sampler: Logits -> Token, stopTokens: set<Token>,
                        ghost s: State<RequestState>, ghost prompt: Path)
      returns (r: Result<Path>)
      requires Valid() && prompt != [] && Generating(s, spec, state, prompt, [])
      requires spec.guarded ==> first == FullLogits(model, prompt)
      modifies this, allocator, state, (set c | c in state.kvCaches), radixCache, radixCache.tree.nd.Keys, radixCache.clock
      modifies pool.kBuffer, pool.vBuffer
      ensures Valid() && !r.ValueError? && order == old(order) && activeRequests == old(activeRequests) && old(past) <= past
      ensures forall n | n in radixCache.tree.nd :: n in old(radixCache.tree).nd || fresh(n)
      ensures r.Ok? ==> Generating(s, spec, state, prompt, Fed(r.value, stopTokens))
      ensures r.Ok? && spec.guarded ==> r.value == UncachedLoop(model, prompt, [], maxTokens, sampler, stopTokens)
      ensures r.MemoryError? ==> spec.free == [] && state in spec.live
    {
      hide Reached, RunnerInv, Next, LocksHeld, Stands, Active, LongestMatch, FullLogits, UncachedLoop, Fed;
      hide Generating;
      var generated: Path := [];
      var logits, i := first, 0;
      assert prompt + [] == prompt;
      while i < maxTokens
        invariant Valid() && Generating(s, spec, state, prompt, generated)
        invariant order == old(order) && activeRequests == old(activeRequests) && old(past) <= past
        invariant forall n | n in radixCache.tree.nd :: n in old(radixCache.tree).nd || fresh(n)
        invariant spec.guarded ==> logits == FullLogits(model, prompt + generated)
        invariant spec.guarded ==>
                    UncachedLoop(model, prompt, generated, maxTokens - i, sampler, stopTokens)
                    == UncachedLoop(model, prompt, [], maxTokens, sampler, stopTokens)
        invariant Fed(generated, stopTokens) == generated
      {
        UncachedTurn(model, prompt, generated, maxTokens - i, sampler, stopTokens);
        GeneratingLive(s, spec, state, prompt, generated);
        var token, next := GenerateStep(state, logits, sampler, stopTokens, s, prompt, generated);
        if next.None? {
          FedStops(generated, token, stopTokens);
          return Ok(generated + [token]);
        }
        if next.value.MemoryError? {
          return MemoryError;
        }
        generated := generated + [token];
        GeneratingLive(s, spec, state, prompt, generated);
        FedOn(generated, stopTokens);
        logits := next.value.value;
        i := i + 1;
      }
      UncachedTurn(model, prompt, generated, maxTokens - i, sampler, stopTokens);
      r := Ok(generated);
    }
  }

  lemma HeldByOrder(live: set<RequestState>, order: seq<RequestState>, t: Tree, held: seq<Path>, u: Tree, after: seq<Path>)
    requires LocksHeld(live, order, t, held) && LocksHeld(live, order, u, after)
    ensures held == after
  {
  }

  lemma LastInOrder(live: set<RequestState>, before: seq<RequestState>, state: RequestState, t: Tree, held: seq<Path>, j: nat)
    requires LocksHeld(live, before + [state], t, held) && j <= |before| && (before + [state])[j] == state
    ensures j == |before| && (before + [state])[..j] + (before + [state])[j + 1..] == before
  {
    assert (before + [state])[|before|] == state;
  }

  lemma EvictedIs(h: History, t: Tree, u: Tree)
    requires Evicted(h, t, u)
    ensures Wf(t) && Wf(u) && Shrunk(t, u) && Removed(Contents(t), Contents(u), h.removed, h.freed)
  {
  }

  /** A node whose lock is held survives an eviction. */
  lemma LocksShrink(live: set<RequestState>, order: seq<RequestState>, t: Tree, u: Tree, held: seq<Path>)
    requires LocksHeld(live, order, t, held) && Wf(t) && Shrunk(t, u) && LocksOk(u, held)
    ensures LocksHeld(live, order, u, held)
  {
    hide Wf;
    forall r | r in live ensures r.radixNode in u.nd && u.nd[r.radixNode].path == r.promptTokens {
      var i :| 0 <= i < |order| && order[i] == r;
      assert held[i] in held && HasNode(u, held[i]);
      var n :| n in u.nd && u.nd[n].path == held[i];
      UniquePath(t, n, r.radixNode);
    }
  }

  /** What live requests have locked is cached, whatever was evicted. */
  lemma PromptsStay(live: map<RequestState, Req>, order: seq<RequestState>, t: Tree, held: seq<Path>)
    requires LocksHeld(live.Keys, order, t, held) && Wf(t) && LocksOk(t, held)
    requires forall r | r in live :: live[r].prompt == r.promptTokens
    ensures forall r, j | r in live && 0 < j <= |live[r].prompt| :: live[r].prompt[..j] in Contents(t)
  {
    hide Wf, Contents, LocksOk;
    forall r, j | r in live && 0 < j <= |live[r].prompt| ensures live[r].prompt[..j] in Contents(t) {
      var i :| 0 <= i < |order| && order[i] == r;
      assert held[i] == live[r].prompt;
      HeldIsCached(t, held, held[i], j);
    }
  }

  /** A complete eviction leaves only what begins a live prompt: locks are held on nothing else. */
  lemma PromptsLeft(s: State<RequestState>, order: seq<RequestState>, t: Tree, held: seq<Path>, b: Book)
    requires Inv(t, held, b) && b.evictable == 0 && LocksHeld(s.live.Keys, order, t, held) && s.entries == Contents(t)
    requires forall r | r in s.live :: s.live[r].prompt == r.promptTokens
    ensures OnlyPrompts(s)
  {
    hide Inv, Contents;
    forall p | p in s.entries ensures Protected(s, p) {
      FullyEvicted(t, held, b, p);
      var i :| 0 <= i < |held| && p <= held[i];
      assert order[i] in s.live && p <= s.live[order[i]].prompt;
    }
  }

  /** When an eviction keeps the guard. */
  lemma EvictedGuard(m: Model, s: State<RequestState>, u: State<RequestState>, removed: seq<Path>, freed: seq<Slot>)
    requires RunnerInv(m, s) && IsEviction(s, u, removed, freed)
    ensures Sheltered(s) ==> u.guarded == s.guarded
    ensures OnlyPrompts(u) && s.guarded ==> (u.guarded <==> Sheltered(s))
  {
    hide Sheltered, OnlyPrompts, Owned, Base, Removed, PrefixClosed, SparesLive;
    if s.guarded {
      if Sheltered(s) {
        ShelteredSpares(m, s, u, removed, freed);
      }
      if OnlyPrompts(u) {
        CompleteSpares(m, s, u, removed, freed);
      }
    }
  }

  lemma EvictionOf(s: State<RequestState>, u: Tree, removed: seq<Path>, freed: seq<Slot>)
    requires Wf(u) && Removed(s.entries, Contents(u), removed, freed)
    requires forall r, j | r in s.live && 0 < j <= |s.live[r].prompt| :: s.live[r].prompt[..j] in Contents(u)
    ensures IsEviction(s, AfterEvict(s, Contents(u), freed), removed, freed)
  {
    hide Wf, Contents;
    EntriesPrefixClosed(u);
  }

  lemma FinishLive(s: State<RequestState>, r: RequestState)
    ensures AfterFinish(s, r).live.Keys == s.live.Keys - {r}
  {
  }

  lemma LiveMember(live: set<RequestState>, order: seq<RequestState>, t: Tree, held: seq<Path>, r: RequestState)
    requires LocksHeld(live, order, t, held) && r in live
    ensures r in order && |order| == |held|
  {
  }

  lemma ActiveDrop(live: set<RequestState>, active: map<string, RequestState>, r: RequestState)
    requires Active(live, active)
    ensures Active(live - {r}, active - {r.requestId})
  {
  }

  lemma ActiveAdd(live: set<RequestState>, active: map<string, RequestState>, r: RequestState)
    requires Active(live, active)
    ensures Active(live + {r}, active[r.requestId := r])
  {
  }

  /** A sequence without its `j`-th element. */
  lemma Dropped(order: seq<RequestState>, j: nat)
    requires Distinct(order) && j < |order|
    ensures var rest := order[..j] + order[j + 1..];
            && Distinct(rest) && (forall i | 0 <= i < |rest| :: rest[i] == order[if i < j then i else i + 1] != order[j])
            && (forall r | r in order && r != order[j] :: r in rest)
  {
    var rest := order[..j] + order[j + 1..];
    forall r | r in order && r != order[j] ensures r in rest {
      var i :| 0 <= i < |order| && order[i] == r;
      assert rest[if i < j then i else i - 1] == r;
    }
  }

  lemma LocksDrop(live: set<RequestState>, order: seq<RequestState>, t: Tree, held: seq<Path>, j: nat)
    requires LocksHeld(live, order, t, held) && j < |order|
    ensures LocksHeld(live - {order[j]}, order[..j] + order[j + 1..], t, held[..j] + held[j + 1..])
    ensures order[j].radixNode in t.nd && held[j] == t.nd[order[j].radixNode].path
  {
    Dropped(order, j);
    hide Distinct;
    var rest, left := order[..j] + order[j + 1..], held[..j] + held[j + 1..];
    forall i | 0 <= i < |rest| ensures rest[i] in live - {order[j]} && left[i] == rest[i].promptTokens {
      var k := if i < j then i else i + 1;
      assert rest[i] == order[k] && left[i] == held[k];
    }
  }

  lemma DecodeFits<R>(m: Model, s: State<R>, r: R)
    requires Base(m, s) && r in s.live && s.free != []
    ensures Fits(s.rows, s.live[r].slots) && Fits(s.rows, [s.free[|s.free| - 1]])
    ensures |s.live[r].slots| == |Tokens(s.live[r])|
  {
    BaseFits(m, s, s.live[r].slots);
    BaseFits(m, s, [s.free[|s.free| - 1]]);
    assert Pinned(s.entries, s.live[r]);
  }

  lemma LocksGrow(live: set<RequestState>, order: seq<RequestState>, t: Tree, u: Tree, held: seq<Path>)
    requires LocksHeld(live, order, t, held) && forall n | n in t.nd :: n in u.nd && u.nd[n].path == t.nd[n].path
    ensures LocksHeld(live, order, u, held)
  {
  }

  lemma LocksAdd(live: set<RequestState>, order: seq<RequestState>, t: Tree, held: seq<Path>, r: RequestState)
    requires LocksHeld(live, order, t, held) && r !in live && r.radixNode in t.nd && t.nd[r.radixNode].path == r.promptTokens
    ensures LocksHeld(live + {r}, order + [r], t, held + [r.promptTokens])
  {
  }

  lemma FitsRow(rows: seq<Row>, slots: seq<Slot>, l: nat)
    requires Fits(rows, slots) && l < |rows|
    ensures InRow(rows[l], slots)
  {
  }

  lemma FitsStep(rows: seq<Row>, slots: seq<Slot>, l: nat, row: Row)
    requires Fits(rows, slots) && l < |rows| && |row| == |rows[l]|
    ensures Fits(rows[l := row], slots)
  {
  }
}
