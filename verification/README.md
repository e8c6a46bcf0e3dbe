# Prefix-sharing KV cache and paged attention, verified

A Dafny model of the two parts of this repository whose correctness is hardest to see, with proofs.

**The KV cache and the request protocol over it.** `RadixCache` is a heap-allocated compressed trie that is split,
extended, locked and evicted in place. Its ghost snapshot (`RadixTree`) stands for a map from token prefixes to slots;
every public operation is proved against that map, against the multiset of held locks and against recomputation of the
counters and the leaf set (`RadixOps`, `RadixBooks`, `RadixEvict`, `RadixWalk`, `RadixCache`); `RadixStamps` says what a
walk leaves on the fields that eviction ranks by, and what follows for the next victim. `TokenPoolAllocator`
(`Allocator`), `MHATokenPool` and `PooledKVCache` (`KVPool`) hold slots and their contents. The language model is an
arbitrary stack of causal layers (`Transformer`). `RunnerSpec` is the protocol as a state machine over values,
`RunnerSafety` shows what each of its steps keeps, `RunnerRuns` states exactness for whole runs and `RunnerSlots` what
becomes of the slots, `RunnerWitnesses` holds short runs in which things go wrong, `Generation` is the uncached reference
loop, and `ModelRunner` is the class, proved to refine the protocol step by step: its history is a run.

**The paged attention kernels.** Threads between two barriers are programs over one shared memory, interleaved action by
action (`Schedule`); where a warp's lanes exchange registers, lanes and warps take turns in any order, and a lead waits for
its warp (`WarpTeams`). `ReshapeAndCache`, `CopyBlocks` and the seven intervals of the attention kernel (`InitInterval`,
`ScoreInterval`, `ReduceInterval` twice, `ExpInterval`, `ValueInterval`, `OutputInterval`) are shown to be free of races
and to have one result under every interleaving; `PagedAttention` chains the intervals into the refinement of dense
attention (`Attention`), and `PagedGather` ties the gathered keys and values to what was scattered into the slots.
`AttentionThread` and the methods of the cache kernels are the loops as one thread runs them, proved to do what the
thread's program does. `HostChecks` is the host's argument checking, and `Float8` the eight-bit encoder.

Numbers in the kernels are reals, and the exponential is any function that is positive, 1 at 0 and at most 1 below.
The clock is arbitrary and never decreases; `heapq` is "some least element". Prompts are not empty, inserted keys and
values have the same length, and only live requests are decoded or finished.

## What the proofs found

- A prompt's lock does not cover generated tokens (`sglang_mlx/model_runner.py:238-241` against `286-290`), so an eviction
  can free slots that a live request still reads. It cannot if and only if everything live requests read from the tree lies
  on live prompts (`RunnerSafety.EvictionSpares`); a complete eviction does so in every other state
  (`RunnerSafety.CompleteSpares`, `ModelRunner.EvictCache`). `RunnerWitnesses.LiveSlotReused` reaches the harm in four steps.
  The exactness results carry "no live slot was freed" as a guard that evictions alone can lower.
- A decode step whose whole key is already cached leaves its fresh slot outside the tree (`RunnerSlots.DecodeLeaks`). A later
  decode of its request can enter it again, after an eviction of what was cached (`RunnerWitnesses.SlotRecovered`); once no
  live request reads it, it is lost for good (`RunnerSlots.LostForGood`, `RunnerWitnesses.SlotLost`). What a drained pool is
  short of is the sum over the run's decodes (`RunnerSlots.DrainedRun`). If evictions happen only while all that live
  requests have processed begins live prompts, as when none has generated a token (`RunnerSlots.FreshCovered`), that is one
  slot for each such decode (`RunnerSlots.LostIff`).
- The host checks that the key cache's split multiplies out, but not that its `x` is the kernel's compiled one;
  `CacheLayout.KeysReadBack` shows that this is what decides whether keys are read back, and `HostChecks.MisreadCall` is
  an accepted call whose keys are not.
- In-place block copies depend on the schedule exactly when two pairs give one destination different sources, or a
  destination is also a source and is not copied onto itself (`CopyBlocks.CopyResultIff`, `CopyBlocks.ChainedCopyRaces`).
- The eight-bit encoder's heading promises rounding to nearest even and saturation to infinity. A finite input above the last
  exponent does not saturate (`Float8.OverflowNeverInfinite`, `Float8.OverflowToZero`, `Float8.OverflowUndefined`). Below the
  normal range a code fails to be nearest in two regions, and is zero there: the last half unit below the least normal number
  (`Float8.SubnormalToZero`) and everything between half the least subnormal and that subnormal (`Float8.LeastToZero`). Ties
  there go up, to an odd code too (`Float8.TieToOdd`). `Float8.SubnormalNearest` shows that there are no other failures.

## Model

| member | source | states |
|---|---|---|
| `PrefixMap.InsertAll` | sglang_mlx/srt/mem_cache/radix_cache.py:150-163 | An insert adds exactly the missing prefixes of the key with the slots given for them and keeps every entry that was there |
| `PrefixMap.LongestMatch` | sglang_mlx/srt/mem_cache/radix_cache.py:135-148 | The longest cached prefix: all shorter ones are cached, the next one is not |
| `PrefixMap.InsertKeepsPrefixClosed` | sglang_mlx/srt/mem_cache/radix_cache.py:294-338 | After an insert the map is prefix-closed and the whole key matches |
| `PrefixMap.InsertSize` | sglang_mlx/srt/mem_cache/radix_cache.py:294-338 | An insert adds one entry for each token beyond the longest match |
| `Clocks.Clock.Monotonic` | sglang_mlx/srt/mem_cache/radix_cache.py:59-60 | A clock reading is arbitrary but never decreases |
| `TreeNodes.TreeNode.constructor` | sglang_mlx/srt/mem_cache/radix_cache.py:53-65 | A node starts empty, unlocked and detached; its two time stamps are two separate readings |
| `TokenPool.Descending` | sglang_mlx/srt/mem_cache/memory_pool.py:37-38 | The initial free list is exactly the slots 1 to n, each once, without the padding slot |
| `TokenPool.TokenPoolAllocator.Create` | sglang_mlx/srt/mem_cache/memory_pool.py:33-38 | A pool that is not positive is refused; otherwise all its slots are free |
| `TokenPool.TokenPoolAllocator.Alloc` | sglang_mlx/srt/mem_cache/memory_pool.py:40-56 | Takes the last n free slots, or fails and takes none; a request for none or fewer takes none |
| `TokenPool.TokenPoolAllocator.Free` | sglang_mlx/srt/mem_cache/memory_pool.py:58-60 | Given slots go to the end of the free list |
| `TokenPool.TokenPoolAllocator.AvailableSize` | sglang_mlx/srt/mem_cache/memory_pool.py:62-64 | The number of free slots |
| `TokenPool.TokenPoolAllocator.Clear` | sglang_mlx/srt/mem_cache/memory_pool.py:66-68 | Every slot is free again |
| `EvictPolicies.KeyOrder` | sglang_mlx/srt/mem_cache/evict_policy.py:25-57 | The heap keys of one strategy, ties broken by access time, are totally ordered |
| `EvictPolicies.FirstMeans` | sglang_mlx/srt/mem_cache/evict_policy.py:25-57 | For each strategy, what it means that no key comes before that of a node: the oldest, latest, least used or least important |
| `EvictPolicies.Choose` | sglang_mlx/srt/mem_cache/radix_cache.py:99-114 | A name in upper or lower case chooses its strategy; a name of none is refused |
| `RadixTree.UniquePath` | sglang_mlx/srt/mem_cache/radix_cache.py:50-65 | Two nodes never spell the same token path |
| `RadixTree.EntriesPrefixClosed` | sglang_mlx/srt/mem_cache/radix_cache.py:135-163 | The map a tree stands for is prefix-closed |
| `RadixBooks.LockedAncestor` | sglang_mlx/srt/mem_cache/radix_cache.py:191-205 | An ancestor is locked at least as often as its descendant |
| `RadixOps.SplitKeeps` | sglang_mlx/srt/mem_cache/radix_cache.py:272-292 | A split, even of a locked node, keeps the map, the lock counts, the two size counters and the leaf set |
| `RadixOps.AddEntries` | sglang_mlx/srt/mem_cache/radix_cache.py:328-336 | Hanging the rest of a key below its longest match inserts the whole key |
| `RadixOps.AddBook` | sglang_mlx/srt/mem_cache/radix_cache.py:333-336 | Both counters and the leaf set after a new leaf are what recomputation gives |
| `RadixOps.DeleteEntries` | sglang_mlx/srt/mem_cache/radix_cache.py:340-348 | Deleting a leaf removes exactly the prefixes on its edge |
| `RadixOps.DeleteBook` | sglang_mlx/srt/mem_cache/radix_cache.py:340-348 | After a deletion the counters and the leaf set, with the parent reconsidered, are what recomputation gives |
| `RadixOps.LockCounts` | sglang_mlx/srt/mem_cache/radix_cache.py:191-205 | Locking a path makes every count one higher exactly for the locks at or above it |
| `RadixOps.UnlockCounts` | sglang_mlx/srt/mem_cache/radix_cache.py:207-221 | Releasing any one of the held locks leaves the counts of the others |
| `RadixCaches.KeyMatch` | sglang_mlx/srt/mem_cache/radix_cache.py:82-89 | Length of the common prefix of two token sequences |
| `RadixCaches.RadixCache.Create` | sglang_mlx/srt/mem_cache/radix_cache.py:93-127 | An empty cache whose root is locked, with the strategy named; an unknown name is refused |
| `RadixCaches.RadixCache.MatchPrefix` | sglang_mlx/srt/mem_cache/radix_cache.py:135-148 | Returns the slots of the longest cached prefix and the node that spells exactly it; the map does not change; leaves the access times and priorities of its walk, and an empty key changes nothing |
| `RadixCaches.RadixCache.MatchPrefixHelper` | sglang_mlx/srt/mem_cache/radix_cache.py:238-270 | The walk: slots collected edge by edge are those of the prefix of the node reached; every node whose edge it enters has the time of the walk, a split-off node two later readings, and no other field changes |
| `RadixCaches.RadixCache.SplitNode` | sglang_mlx/srt/mem_cache/radix_cache.py:272-292 | The new node takes the first part of the edge; map, locks and counters are unchanged and every old node spells the path it did |
| `RadixCaches.RadixCache.Insert` | sglang_mlx/srt/mem_cache/radix_cache.py:150-163 | The new map is the old one with the missing prefixes; the result is the old longest match; no value means the tokens themselves; leaves the access times and priorities of its walk |
| `RadixCaches.RadixCache.InsertHelper` | sglang_mlx/srt/mem_cache/radix_cache.py:294-338 | The same, for the walk and the new leaf: nodes entered have its time, nodes taken whole at least the given priority, a split-off node the larger of its child's and the given one, the leaf the given one |
| `RadixCaches.RadixCache.RanksAre` | sglang_mlx/srt/mem_cache/evict_policy.py:25-57 | Eviction ranks the nodes by exactly those access times, creation times, hit counts and priorities |
| `RadixCaches.RadixCache.UpdateLeafStatus` | sglang_mlx/srt/mem_cache/radix_cache.py:350-365 | A node is an evictable leaf if and only if it is unlocked and childless |
| `RadixCaches.RadixCache.IncLockRef` | sglang_mlx/srt/mem_cache/radix_cache.py:191-205 | One more held lock on the path of the node; the result is the change in evictable size |
| `RadixCaches.RadixCache.DecLockRef` | sglang_mlx/srt/mem_cache/radix_cache.py:207-221 | That held lock is gone; the result is the change in evictable size |
| `RadixCaches.RadixCache.DeleteLeaf` | sglang_mlx/srt/mem_cache/radix_cache.py:340-348 | The leaf leaves the tree and the evictable size shrinks by its key |
| `RadixCaches.RadixCache.Evict` | sglang_mlx/srt/mem_cache/radix_cache.py:165-189 | Frees, in order, exactly the slots of the removed entries; evicts enough or everything evictable; overshoots by less than the last victim; every victim was first among all evictable leaves of its moment; asked for all there is, it leaves exactly the prefixes of held paths |
| `RadixCaches.RadixCache.TotalSize` | sglang_mlx/srt/mem_cache/radix_cache.py:367-377 | The traversal finds the sum of the two incrementally kept counters |
| `RadixCaches.RadixCache.SetAllocator` | sglang_mlx/srt/mem_cache/radix_cache.py:129-131 | Evicted slots go to this allocator from now on |
| `RadixEvict.HeapAfterDelete` | sglang_mlx/srt/mem_cache/radix_cache.py:183-187 | After a deletion the heap of evictable leaves loses the victim and gains its parent if that became one |
| `RadixEvict.FullyEvicted` | sglang_mlx/srt/mem_cache/radix_cache.py:165-205 | With an evictable size of zero, exactly the prefixes of held paths are cached |
| `RadixStamps.MatchTimely` | sglang_mlx/srt/mem_cache/radix_cache.py:238-270 | After a match the nodes entered have one reading, not below any stamp there was; all other stamps and fields of old nodes are as before, and none is ahead of the clock |
| `RadixStamps.InsertTimely` | sglang_mlx/srt/mem_cache/radix_cache.py:294-338 | The same for an insert, which also raises the nodes taken whole to the given priority and lowers none |
| `RadixStamps.MatchedSpared` | sglang_mlx/srt/mem_cache/radix_cache.py:165-189 | Under lru, the next victim is none that a match has just used while an older leaf it did not use is there |
| `RadixStamps.InsertedSpared` | sglang_mlx/srt/mem_cache/radix_cache.py:165-189 | Nor one that an insert has just used or added |
| `RadixStamps.RaisedSpared` | sglang_mlx/srt/mem_cache/radix_cache.py:165-189 | Under priority, the next victim is none that was inserted with a priority while a leaf of a lesser one is there |
| `RadixWalk.ExploredAll` | sglang_mlx/srt/mem_cache/radix_cache.py:367-377 | A finished traversal has visited every node once |
| `KVPool.ChunkingInvisible` | sglang_mlx/srt/mem_cache/memory_pool.py:206-234 | Any sequence of calls leaves the state of one call on the concatenation |
| `KVPool.ChunksFetched` | sglang_mlx/srt/mem_cache/memory_pool.py:206-234 | After any chunks the result is the prefix followed by all of them; all other slots are untouched |
| `KVPool.MHATokenPool.constructor` | sglang_mlx/srt/mem_cache/memory_pool.py:88-108 | Buffers of every layer, with the padding slot, all zero |
| `KVPool.MHATokenPool.Store` | sglang_mlx/srt/mem_cache/memory_pool.py:117-137 | One layer is scattered into; the other layers do not change |
| `KVPool.MHATokenPool.Fetch` | sglang_mlx/srt/mem_cache/memory_pool.py:139-159 | Keys and values at the given slots, in order |
| `KVPool.PooledKVCache.constructor` | sglang_mlx/srt/mem_cache/memory_pool.py:179-184 | An adapter with no slots |
| `KVPool.PooledKVCache.SetIndices` | sglang_mlx/srt/mem_cache/memory_pool.py:186-195 | New slots, nothing stored yet |
| `KVPool.PooledKVCache.OffsetSplits` | sglang_mlx/srt/mem_cache/memory_pool.py:197-204 | At the offset, what a fetch returns parts into what was cached before and what has been stored since |
| `KVPool.PooledKVCache.UpdateAndFetch` | sglang_mlx/srt/mem_cache/memory_pool.py:206-234 | The adapter moves as specified, returns everything stored so far and leaves other layers alone |
| `KVPool.PooledKVCache.State` | sglang_mlx/srt/mem_cache/memory_pool.py:236-250 | Nothing if there are no slots, otherwise what a fetch gives |
| `Transformer.EmbedsEach` | sglang_mlx/model_runner.py:226-230 | Below all layers a token's hidden state is its embedding |
| `Transformer.AttendsToAll` | sglang_mlx/srt/mem_cache/memory_pool.py:232-234 | In the uncached pass a layer attends from each token to the pairs of all tokens up to it, each made at its own position, and to no others |
| `Transformer.OnlyPass` | sglang_mlx/model_runner.py:226-255 | Any computation of hidden states layer by layer in that way gives the states of the uncached pass, and its logits are those of the last token's state |
| `Transformer.PassOfPrefix` | sglang_mlx/model_runner.py:226-230 | In a stack of causal layers, a pass over a prefix is the prefix of the pass |
| `Transformer.LayerStepExact` | sglang_mlx/model_runner.py:220-230 | A layer that finds its prefix in the pool computes what the uncached layer does and stores the rest |
| `Transformer.CachedPassExact` | sglang_mlx/model_runner.py:220-230 | Reusing cached slots is exact through all layers, and no other slot of the pool changes |
| `RunnerSafety.PrefillExact` | sglang_mlx/model_runner.py:204-258 | A prefill returns the logits of an uncached pass over the prompt and keeps ownership and contents of slots |
| `RunnerSafety.ReadyKV` | sglang_mlx/model_runner.py:226-230 | Every slot in use still stores, in every layer, the pair of the prefix it stands for; rewriting a shared slot writes what was there |
| `RunnerSafety.DecodeExact` | sglang_mlx/model_runner.py:270-293 | A decode returns the logits of an uncached pass over everything processed and the new token, and keeps ownership and contents |
| `RunnerSafety.EvictOwned` | sglang_mlx/model_runner.py:286-290 | An eviction leaves every live request the slots that store its tokens if and only if it frees none of them |
| `RunnerSafety.EvictionSpares` | sglang_mlx/model_runner.py:238-290 | No eviction, of whatever and however much, frees a slot of a live request if and only if all that live requests read from the tree lies on live prompts |
| `RunnerSafety.CompleteSpares` | sglang_mlx/model_runner.py:238-290 | A complete eviction spares live requests exactly in that case |
| `RunnerSafety.FreshSheltered` | sglang_mlx/model_runner.py:238-241 | It is the case while no live request has generated tokens |
| `RunnerSafety.EvictBase` | sglang_mlx/model_runner.py:238-241 | Any eviction at all keeps live prompts cached in the requests' first slots |
| `RunnerRuns.StepKeeps` | sglang_mlx/model_runner.py:190-302 | Every step keeps the invariants, and while the guard holds its logits are exact |
| `RunnerRuns.RunExact` | sglang_mlx/model_runner.py:190-302 | In every run of interleaved prefills, decodes, finishes and evictions, each step taken while no live slot has been freed returns the logits of an uncached pass |
| `RunnerRuns.ShelteredRun` | sglang_mlx/model_runner.py:190-302 | So a run that evicts only while all that live requests read from the tree lies on live prompts is exact at every step |
| `RunnerSlots.PromptsOnly` | sglang_mlx/srt/mem_cache/radix_cache.py:165-205 | After a complete eviction exactly the beginnings of live prompts are cached |
| `RunnerSlots.RunDuplicates` | sglang_mlx/model_runner.py:190-302 | Along every guarded run the number of slots in use that no cached prefix has grows by one for each decode, less the prefixes its insert enters; prefills, finishes and evictions do not move it |
| `RunnerSlots.RunConserves` | sglang_mlx/srt/mem_cache/memory_pool.py:33-64 | So at any time of such a run from an empty pool the free slots, the cached prefixes and that sum over the decodes so far make up the pool |
| `RunnerSlots.DrainedRun` | sglang_mlx/srt/mem_cache/memory_pool.py:33-64 | With every request finished and everything evicted, the free list is short of exactly that sum |
| `RunnerSlots.LostForGood` | sglang_mlx/model_runner.py:270-302 | A duplicate that no live request reads, as after its request has finished, is never freed, cached or handed out again |
| `RunnerSlots.LostAtMost` | sglang_mlx/model_runner.py:270-290 | The sum is at most the number of decodes whose whole key was cached |
| `RunnerSlots.LostIff` | sglang_mlx/model_runner.py:238-302 | If evictions happen only while everything live requests have processed begins live prompts, it is that number: nothing is lost if and only if no decode had its whole key cached |
| `RunnerSlots.DecodeLeaks` | sglang_mlx/model_runner.py:270-290 | A decode takes one slot and enters every prefix of its key that is not cached; only if the whole key is cached is there a duplicate more |
| `RunnerWitnesses.LiveSlotReused` | sglang_mlx/model_runner.py:238-290 | A run of prefill, decode, evict and prefill after which two live requests read one slot, which stores the second one's token in every layer |
| `RunnerWitnesses.SlotLost` | sglang_mlx/model_runner.py:270-290 | A run after which every request has finished, everything is evicted, and one of three slots is not free |
| `RunnerWitnesses.SlotRecovered` | sglang_mlx/model_runner.py:270-290 | A run with the same duplicate, which a later decode of its request enters again after an eviction; in the end all three slots are free |
| `Generation.UncachedItems` | sglang_mlx/model_runner.py:330-341 | What the uncached reference loop returns: item i is sampled after a full pass over the prompt and the items before it; a stop token only comes last; the limit holds |
| `ModelRunners.ModelRunner.LengthsAgree` | sglang_mlx/model_runner.py:65-73 | A live request has as many slots as tokens, and both lengths are those of the protocol state |
| `ModelRunners.ModelRunner.Conserved` | sglang_mlx/srt/mem_cache/memory_pool.py:33-64 | The runner's own history is a run from the empty pool: its free slots, its cached prefixes and what its decodes left over make up the pool |
| `ModelRunners.ModelRunner.Create` | sglang_mlx/model_runner.py:138-162 | A runner whose protocol state is the empty pool of zeros; a pool without slots is refused; its cache evicts the least recently used |
| `ModelRunners.ModelRunner.Forward` | sglang_mlx/model_runner.py:226-230 | The whole pass through the adapters is the cached pass over the pool's rows |
| `ModelRunners.ModelRunner.ForwardPrefill` | sglang_mlx/model_runner.py:190-258 | The objects refine one protocol step; logits are exact while the guard holds; without slots nothing changes |
| `ModelRunners.ModelRunner.ForwardDecode` | sglang_mlx/model_runner.py:260-293 | The same for a decode |
| `ModelRunners.ModelRunner.FinishRequest` | sglang_mlx/model_runner.py:295-302 | The same for a finish; the request's own lock is the one released |
| `ModelRunners.ModelRunner.EvictCache` | sglang_mlx/srt/mem_cache/radix_cache.py:165-189 | The same for an eviction by the runner's cache, enough or everything and with bounded overshoot; a complete one keeps the guard exactly if all that live requests read from the tree lies on live prompts, and with no live request empties the cache and leaves free all but what the decodes so far left over |
| `ModelRunners.ModelRunner.Generate` | sglang_mlx/model_runner.py:304-341 | Equals the uncached loop; all locks and requests are as before; exactly the uncached prompt tokens and the decoded tokens have left the free list |
| `Schedules.AnySchedule` | paged_attention/metal/attention/paged_attention_kernels.metal:69-69 | Without races every interleaving leaves each thread's registers and every cell it touches as if it had run alone, and every other cell as it was |
| `Schedules.ScheduleIndependent` | paged_attention/metal/attention/paged_attention_kernels.metal:69-69 | Any two complete interleavings of race-free threads end in the same state |
| `Schedules.CanReach` | paged_attention/metal/attention/paged_attention_kernels.metal:69-69 | Threads never wait between barriers, so a complete interleaving exists |
| `Strides.VisitedBy` | paged_attention/metal/attention/paged_attention_kernels.metal:67-68 | A strided loop: element e is visited by thread e mod step |
| `CacheLayout.KeyDigits` | paged_attention/metal/cache/reshape_and_cache.metal:23-59 | The key address is the row-major index of block, head, piece, offset and rest in [blocks, heads, head size / x, block size, x] |
| `CacheLayout.ValueDigits` | paged_attention/metal/cache/reshape_and_cache.metal:25-65 | The value address is that of block, head, element and offset in [blocks, heads, head size, block size] |
| `CacheLayout.FlashDigits` | paged_attention/metal/cache/reshape_and_cache.metal:129-132 | A flash address is that of slot and element |
| `CacheLayout.KeyInjective` | paged_attention/metal/cache/reshape_and_cache.metal:54-59 | The key address determines slot and element |
| `CacheLayout.ValueInjective` | paged_attention/metal/cache/reshape_and_cache.metal:61-65 | The value address determines slot and element |
| `CacheLayout.FlashInjective` | paged_attention/metal/cache/reshape_and_cache.metal:129-132 | The flash address determines slot and element |
| `CacheLayout.AddrsInBounds` | paged_attention/metal/cache/reshape_and_cache.metal:54-65 | All three addresses lie within the cache |
| `CacheLayout.KeyReadBack` | paged_attention/metal/attention/paged_attention_kernels.metal:80-92 | With the cache's x, the attention kernel reads a key element where it was written |
| `CacheLayout.ValueReadBack` | paged_attention/metal/attention/paged_attention_kernels.metal:147-155 | It reads a value element where it was written, although it uses the key cache's strides |
| `CacheLayout.KeysReadBack` | paged_attention/metal/attention/paged_attention_kernels.metal:80-92 | All key elements are found if and only if the kernel's compiled x is the cache's |
| `ReshapeAndCache.ProgramsRaceFree` | paged_attention/metal/cache/reshape_and_cache.metal:35-69 | With distinct non-negative slots no two threads touch the same cell |
| `ReshapeAndCache.AnyScheduleStores` | paged_attention/metal/cache/reshape_and_cache.metal:35-69 | Any interleaving, for any group size and either layout, stores every token with a non-negative slot and changes nothing else |
| `ReshapeAndCache.ReadsBack` | paged_attention/metal/attention/paged_attention_kernels.metal:80-92 | The attention kernel reads back exactly the elements stored, keys and values |
| `ReshapeAndCache.CacheThread` | paged_attention/metal/cache/reshape_and_cache.metal:35-69 | One thread's loop does what its program does |
| `CopyBlocks.CopyResultIff` | paged_attention/metal/cache/copy_blocks.metal:18-38 | In-place copies have one result for every memory under every interleaving if and only if pairs with one destination have one source and a destination that is also a source is copied onto itself |
| `CopyBlocks.SwapResultIff` | paged_attention/metal/cache/copy_blocks.metal:65-72 | Copies between buffers have one result if and only if pairs with one destination have one source |
| `CopyBlocks.ApartAgrees` | paged_attention/metal/cache/copy_blocks.metal:18-72 | Distinct destinations, for copies in place none of them a source, are enough for that |
| `CopyBlocks.CopyBlocksAnySchedule` | paged_attention/metal/cache/copy_blocks.metal:18-38 | Under that condition any interleaving gives every destination block its source's old contents, in both caches, and keeps all other blocks |
| `CopyBlocks.SwapBlocksAnySchedule` | paged_attention/metal/cache/copy_blocks.metal:65-72 | The same for swap_blocks |
| `CopyBlocks.ChainedCopyRaces` | paged_attention/metal/cache/copy_blocks.metal:18-38 | A chain of two copies has more than one result, for every block size and thread count |
| `CopyBlocks.CopyBlocksThread` | paged_attention/metal/cache/copy_blocks.metal:18-38 | One thread's two loops do what its program does |
| `CopyBlocks.SwapBlocksThread` | paged_attention/metal/cache/copy_blocks.metal:65-72 | One thread's loop does what its program does |
| `Reductions.StridesTotal` | paged_attention/metal/attention/paged_attention_kernels.metal:122-132 | What strided threads gather folds to the whole |
| `Reductions.PiecesTotal` | paged_attention/metal/attention/paged_attention_kernels.metal:146-160 | Folding piece by piece folds the whole |
| `Reductions.ShuffledFolds` | paged_attention/metal/attention/paged_attention_kernels.metal:104-118 | For a power of two of lanes, all exchanges leave the full fold in every lane |
| `Attention.DotOneHot` | paged_attention/metal/attention/paged_attention_kernels.metal:88-94 | The product of a unit vector and a key is one element of the key |
| `Attention.DotLinear` | paged_attention/metal/attention/paged_attention_kernels.metal:88-94 | The product is additive and homogeneous in the query |
| `Attention.ScoreOneHot` | paged_attention/metal/attention/paged_attention_kernels.metal:88-98 | A one-hot query at scale 1 without a slope scores a token by one element of its key |
| `Attention.ScorePenalty` | paged_attention/metal/attention/paged_attention_kernels.metal:95-97 | The scale multiplies a score, and a slope takes off as many times itself as there are later tokens, so nothing from the last one |
| `Attention.WeightRatio` | paged_attention/metal/attention/paged_attention_kernels.metal:122-155 | The token of the greatest score weighs the inverse of the sum of shifted exponentials and 1e-6, and every other that times the exponential of how far its score lies below |
| `Attention.DensePicks` | paged_attention/metal/attention/paged_attention_kernels.metal:146-160 | Where only one token has the value 1 and all others 0, the output is that token's weight |
| `Attention.DenseLinear` | paged_attention/metal/attention/paged_attention_kernels.metal:146-160 | The output is linear in the values |
| `Attention.WeightBound` | paged_attention/metal/attention/paged_attention_kernels.metal:122-155 | Weights are positive and sum to more than 1 - 1e-6 and less than 1 |
| `Attention.DenseIsAverage` | paged_attention/metal/attention/paged_attention_kernels.metal:146-168 | So dense attention is an average of the values of that total weight |
| `WarpTeams.TeamResult` | paged_attention/metal/attention/paged_attention_kernels.metal:104-110 | Lanes act and warps exchange registers in any interleaving; body cells end as their thread alone leaves them, and each lead's cell gets what the exchanges made of its warp's registers |
| `WarpTeams.LeadIs` | paged_attention/metal/attention/paged_attention_kernels.metal:104-110 | A lead writes only after all lanes of its warp have run and all exchanges are made |
| `WarpTeams.TeamCanReach` | paged_attention/metal/attention/paged_attention_kernels.metal:104-110 | No warp waits for ever |
| `KernelLayout.TokensAre` | paged_attention/metal/attention/paged_attention_kernels.metal:81-101 | And a thread visits no other tokens, none past the context |
| `KernelLayout.BlocksWithinTable` | paged_attention/mlx_paged_attention.cpp:183-184 | A context that fits reads no block-table entry past the row |
| `InitInterval.InitsAnySchedule` | paged_attention/metal/attention/paged_attention_kernels.metal:66-69 | Any interleaving marks all scores as masked and zeroes the partial rows |
| `ScoreInterval.ScoresAnySchedule` | paged_attention/metal/attention/paged_attention_kernels.metal:76-110 | Any interleaving puts every score in place, and the warps' maxima have the maximum of all scores |
| `ReduceInterval.ReducesAnySchedule` | paged_attention/metal/attention/paged_attention_kernels.metal:111-119 | Any interleaving puts the fold over the warps into the reserved cell and changes nothing else |
| `ExpInterval.ExpsAnySchedule` | paged_attention/metal/attention/paged_attention_kernels.metal:120-134 | Any interleaving turns scores into shifted exponentials, and the warps' sums have the sum of all of them |
| `ValueInterval.ValuesAnySchedule` | paged_attention/metal/attention/paged_attention_kernels.metal:144-161 | Any interleaving leaves in each warp's row the shares of the warp's own blocks |
| `OutputInterval.OutputsAnySchedule` | paged_attention/metal/attention/paged_attention_kernels.metal:163-168 | Any interleaving writes the sum over the warps |
| `OutputInterval.ZeroesAnySchedule` | paged_attention/metal/attention/paged_attention_kernels.metal:45-50 | Without a usable context any interleaving writes zeros and leaves shared memory alone |
| `PagedAttention.KernelIsDense` | paged_attention/metal/attention/paged_attention_kernels.metal:61-168 | For up to 126 warps, any power of two of lanes at least as many, and any interleaving of every interval, the output row is dense attention over the gathered keys and values |
| `PagedAttention.OutputIsAverage` | paged_attention/metal/attention/paged_attention_kernels.metal:61-168 | Each output element lies within the range of its values, scaled by a weight strictly between 1 - 1e-6 and 1 |
| `PagedAttention.IntervalsSafe` | paged_attention/metal/attention/paged_attention_kernels.metal:61-168 | Every threadgroup access of every interval is within the memory the host asks for, the output interval writes its row only, and no cell one thread writes is touched by another before the next barrier |
| `PagedAttention.KernelRuns` | paged_attention/metal/attention/paged_attention_kernels.metal:61-168 | From every start there is such a run |
| `PagedGather.GatherInBounds` | paged_attention/metal/attention/paged_attention_kernels.metal:80-92 | Every address formed through the block table lies in its cache and is the stored element's |
| `PagedGather.GathersStored` | paged_attention/metal/attention/paged_attention_kernels.metal:76-160 | Gathering through the table recovers the stored tokens |
| `PagedGather.AttendsToStored` | paged_attention/metal/attention/paged_attention_kernels.metal:61-168 | If the slots named by a sequence's table hold its tokens, every run of the kernel for a query head computes dense attention over them, for the key-value head that serves it |
| `PagedGather.ScatterHolds` | paged_attention/metal/cache/reshape_and_cache.metal:35-69 | After any interleaving of the scatter kernel they do, for the tokens of the batch and for those stored before |
| `PagedGather.StoreThenAttend` | paged_attention/metal/attention/paged_attention_kernels.metal:61-168 | Store, then attend: from any interleaving of the scatter kernel to the attention kernel's output, which is dense attention over the tokens for the key-value head that serves the query head |
| `PagedGather.RowIsSlice` | paged_attention/metal/cache/reshape_and_cache.metal:46-47 | A token's keys and values are the consecutive elements of the inputs from its strides on |
| `PagedGather.KvHeadServes` | paged_attention/metal/attention/paged_attention_kernels.metal:57-58 | Query head h reads key-value head g if and only if g times the group size is at most h and h is below g + 1 times it: groups are consecutive and of one size, and every query head has one |
| `AttentionThread.InitThread` | paged_attention/metal/attention/paged_attention_kernels.metal:66-68 | One thread's loops do what its program does |
| `AttentionThread.ZeroThread` | paged_attention/metal/attention/paged_attention_kernels.metal:45-50 | One thread's loop does what its program does |
| `AttentionThread.ScoreToken` | paged_attention/metal/attention/paged_attention_kernels.metal:88-97 | The score of a token, read through the block table |
| `AttentionThread.ScoreThread` | paged_attention/metal/attention/paged_attention_kernels.metal:76-102 | One thread's nested loops do what its program does |
| `AttentionThread.ExpThread` | paged_attention/metal/attention/paged_attention_kernels.metal:122-128 | One thread's loop does what its program does |
| `AttentionThread.ReduceWarp` | paged_attention/metal/attention/paged_attention_kernels.metal:104-110 | One warp in step: the loop of shuffles and the lead's write leave the fold in its cell |
| `AttentionThread.FirstWarp` | paged_attention/metal/attention/paged_attention_kernels.metal:111-118 | The first warp folds the warps' cells into the reserved one |
| `AttentionThread.ValueThread` | paged_attention/metal/attention/paged_attention_kernels.metal:144-160 | One thread's nested loops do what its program does |
| `AttentionThread.OutputThread` | paged_attention/metal/attention/paged_attention_kernels.metal:163-168 | One thread's loop does what its program does |
| `HostChecks.IsValidConfig` | paged_attention/mlx_paged_attention.cpp:52-59 | Accepts exactly the supported pairs of head size and block size |
| `HostChecks.Launch` | paged_attention/mlx_paged_attention.cpp:156-199 | Accepts a call if and only if all shapes have their documented layouts; otherwise names the first check that fails |
| `HostChecks.AcceptedStaysInGrant` | paged_attention/mlx_paged_attention.cpp:190-199 | So every threadgroup access of an accepted call lies within the bytes it was granted |
| `HostChecks.MisreadCall` | paged_attention/mlx_paged_attention.cpp:170-172 | A call that passes all checks and whose keys the kernel reads from the wrong places |
| `HostChecks.AcceptedIsSafe` | paged_attention/mlx_paged_attention.cpp:156-199 | An accepted call launches the threads of the grid with the memory granted; its block-table reads stay in the row, every query head has a key-value head of the cache, and the key cache splits exactly |
| `Float8.Encode` | paged_attention/metal/float8.metal:69-117 | The encoder's steps compute its specification |
| `Float8.EncodesNearest` | paged_attention/metal/float8.metal:85-103 | In the normal range the code is the nearest, ties to even, with carry into the exponent and, out of the last one only, into infinity |
| `Float8.RelativeError` | paged_attention/metal/float8.metal:85-103 | The error of the decoded code is at most half a unit in its last place, and so at most one part in 2^(mantissa bits + 1) |
| `Float8.EncodesDecoded` | paged_attention/metal/float8.metal:14-117 | Encoding the value of any code, subnormals, zeros and infinities included, gives that code back |
| `Float8.WidenedExact` | paged_attention/metal/float8.metal:14-63 | The wide float returned by the decoder holds a code's value exactly |
| `Float8.SubnormalNearest` | paged_attention/metal/float8.metal:105-116 | Below the normal range the code is a nearest one except where the carry to the least normal number is cut off and in the binade just below the least subnormal, where it is zero; it is the nearest even one except, further, at ties above an even code |
| `Float8.OverflowNeverInfinite` | paged_attention/metal/float8.metal:85-116 | A finite input above the last exponent never becomes infinity: it is taken for a subnormal, or shifted by a distance that is not positive |
| `Float8.BothFormats` | paged_attention/metal/float8.metal:120-125 | Both formats in use are of the kind the results are about |
| `Float8.OneInE5M2` | paged_attention/metal/float8.metal:69-125 | In E5M2 the code of 1.0 is 0x3C and decodes to 1.0; that of infinity is 0x7C |
| `Float8.OneInE4M3` | paged_attention/metal/float8.metal:69-125 | In E4M3 they are 0x38 and 0x78 |
| `Float8.OverflowToZero` | paged_attention/metal/float8.metal:105-116 | 256 in E4M3 becomes zero |
| `Float8.OverflowUndefined` | paged_attention/metal/float8.metal:105-116 | Every overflow in E5M2 is a shift by a distance that is not positive |
| `Float8.SubnormalToZero` | paged_attention/metal/float8.metal:105-116 | The largest float below the least normal E4M3 number becomes zero, which is not a nearest code |
| `Float8.LeastToZero` | paged_attention/metal/float8.metal:105-107 | A float just below the least E4M3 subnormal becomes zero, which is not a nearest code |
| `Float8.TieToOdd` | paged_attention/metal/float8.metal:109-116 | Two and a half units of the least E4M3 subnormal become three, which is not the even code |

## Left out

- A priority of `None`, which counts as 0.
- `RadixCache` with `disable` set, `page_size` and `reset` with requests in flight: trivial branches or undefined uses.
- A node whose `value` is `None` (`evicted`): no operation creates one, so values are sequences.
- The list order inside `heapq` and the iteration order of dictionaries and sets: any least element, any order.
- `ModelRunner.load`, `_extract_model_config`, the tokenizer, `uuid` and logging; the request's name is a parameter.
- MLX arrays, dtypes, lazy evaluation, transposes and the batch dimension of `store` and `fetch`; `make_mask` and sliding
  windows: causality is an assumption on the abstract layers.
- An exception inside the model's forward pass, after slots were taken.
- Float rounding in the kernels, and a score as low as the mark of a masked position: scores are reals above that mark.
- Tanh soft-capping, which the host disables by passing 1.0.
- Overflow of 32-bit indices and shapes in the kernels and the host checks: integers are unbounded.
- Block-table entries and slots beyond the cache: device memory that the host does not check; they are required to be in range.
- One action of a thread scores a token, turns one score into its exponential, adds one block's share to one element, or
  sums one column. Finer steps would read cells that no other thread writes before the barrier.
- A shuffle of a warp is one step of all its lanes, as the instruction is; lanes of a warp do not drift apart inside it.
- The grid over heads and sequences: groups write different output rows and share no threadgroup memory.
- Bindings, build files, encoder plumbing in `eval_gpu`, kernel names, benchmarks and drawings.
- Encoded: returns nothing where the original shifts by a distance that is not positive, which is undefined there.
- EncodesDecoded: a code that is not a number gives one that is not a number, of the same sign, but not the same payload, because the encoder keeps none.
- RunExact: exactness is claimed for steps taken while the guard holds, because the code does not lock generated tokens; `EvictionSpares` states exactly in which states no eviction can lower it.
- TreeNodes.TreeNode.constructor: the node's id and the counter that all nodes share are not modelled, because only the printed form of a node shows them.
- ForwardPrefill: requires a prompt that is not empty, as the original does not handle one.
