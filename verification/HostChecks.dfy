/** The argument checks of `paged_attention_v1`, and why a launch that passes them stays within its memory. */
module HostChecks {
  import opened Results
  import opened Strides
  import opened Reductions
  import opened CacheLayout
  import opened KernelLayout
  import opened ScoreInterval
  import opened ReduceInterval
  import opened ExpInterval
  import opened ValueInterval
  import opened InitInterval
  import opened PagedAttention
  import opened PagedGather

  /** Shapes and scalars of a call; `limit` is the device's threadgroup memory, in bytes. */
  datatype Call = Call(query: seq<nat>, keyCache: seq<nat>, valueCache: seq<nat>, blockTables: seq<nat>, contextLens: seq<nat>,
                       kvHeads: int, blockSize: int, maxSeqLen: int, slopes: Option<seq<nat>>, limit: nat)

  datatype Refusal =
    | QueryRank | CacheRank | TableRank | SequenceCounts | HeadGroups | CacheHeads | CacheHeadSize | CacheBlocks | SlopesShape
    | EmptyLength | TableCapacity | Unsupported | ThreadgroupMemory

  datatype Outcome = Accepted(kernel: Kernel, smem: nat) | Refused(why: Refusal)

  const HEAD_SIZES: seq<int> := [32, 64, 80, 96, 112, 120, 128, 192, 256]
  const BLOCK_SIZES: seq<int> := [8, 16, 32]
  const THREADS: nat := 256
  const LANES: nat := 32

  /** The configurations for which kernels are compiled. */
  ghost predicate Supported(headSize: int, blockSize: int) {
    headSize in {32, 64, 80, 96, 112, 120, 128, 192, 256} && blockSize in {8, 16, 32}
  }

  method IsValidConfig(headSize: int, blockSize: int) returns (ok: bool)
    ensures ok <==> Supported(headSize, blockSize)
  {
    var okHs := Among(HEAD_SIZES, headSize);
    var okBs := Among(BLOCK_SIZES, blockSize);
    ok := okHs && okBs;
  }

  method Among(values: seq<int>, v: int) returns (ok: bool)
    ensures ok <==> v in values
  {
    ok := false;
    for i := 0 to |values|
      invariant ok <==> v in values[..i]
    {
      ok := ok || values[i] == v;
    }
    assert values[..|values|] == values;
  }

  // ---------------------------------------------------------------- what a call must be

  /** The documented layouts, with one head size, one block size and one count of everything throughout. */
  ghost predicate Layouts(c: Call, seqs: nat, heads: nat, headSize: nat, x: nat, entries: nat, blocks: nat) {
    && c.query == [seqs, heads, headSize]
    && x > 0 && headSize / x * x == headSize && c.kvHeads > 0 && c.blockSize > 0
    && c.keyCache == [blocks, c.kvHeads, headSize / x, c.blockSize, x] && c.valueCache == [blocks, c.kvHeads, headSize, c.blockSize]
    && c.blockTables == [seqs, entries] && c.contextLens == [seqs]
    && heads % c.kvHeads == 0 && (c.slopes.Some? ==> c.slopes.value == [heads])
    && 0 < c.maxSeqLen <= entries * c.blockSize
    && Supported(headSize, c.blockSize) && SharedBytes(c.maxSeqLen, headSize) <= c.limit
  }

  ghost predicate Sound(c: Call) {
    exists seqs, heads, headSize, x, entries, blocks: nat :: Layouts(c, seqs, heads, headSize, x, entries, blocks)
  }

  /** Floats for the scores, 128 reductions and one row per warp. */
  ghost function SharedBytes(maxSeqLen: int, headSize: nat): int { 4 * (maxSeqLen + 128 + 8 * headSize) }

  /** The check that a refusal names; each presumes the ranks. */
  ghost predicate Fails(c: Call, why: Refusal) {
    var ranks := |c.query| == 3 && |c.keyCache| == 5 && |c.valueCache| == 4 && |c.blockTables| == 2 && |c.contextLens| == 1;
    match why
    case QueryRank => |c.query| != 3
    case CacheRank => |c.keyCache| != 5 || |c.valueCache| != 4
    case TableRank => |c.blockTables| != 2 || |c.contextLens| != 1
    case SequenceCounts => ranks && !(c.query[0] == c.blockTables[0] == c.contextLens[0])
    case HeadGroups => ranks && (c.kvHeads <= 0 || c.query[1] % c.kvHeads != 0)
    case CacheHeads => ranks && !(c.keyCache[1] == c.kvHeads == c.valueCache[1])
    case CacheHeadSize => ranks && !(c.keyCache[2] * c.keyCache[4] == c.query[2] == c.valueCache[2])
    case CacheBlocks => ranks && !(c.keyCache[0] == c.valueCache[0] && c.keyCache[3] == c.blockSize == c.valueCache[3])
    case SlopesShape => ranks && c.slopes.Some? && c.slopes.value != [c.query[1]]
    case EmptyLength => c.maxSeqLen <= 0
    case TableCapacity => ranks && c.maxSeqLen > c.blockTables[1] * c.blockSize
    case Unsupported => ranks && !Supported(c.query[2], c.blockSize)
    case ThreadgroupMemory => ranks && SharedBytes(c.maxSeqLen, c.query[2]) > c.limit
  }

  /** The order in which the checks are made. */
  ghost function Place(why: Refusal): nat {
    match why
    case QueryRank => 0 case CacheRank => 1 case TableRank => 2 case SequenceCounts => 3 case HeadGroups => 4 case CacheHeads => 5
    case CacheHeadSize => 6 case CacheBlocks => 7 case SlopesShape => 8 case EmptyLength => 9 case TableCapacity => 10
    case Unsupported => 11 case ThreadgroupMemory => 12
  }

  /** Nothing fails exactly when every shape has its documented layout. */
  lemma PassesIffSound(c: Call)
    ensures (forall w: Refusal :: !Fails(c, w)) <==> Sound(c)
  {
    if forall w: Refusal :: !Fails(c, w) {
      assert !Fails(c, QueryRank) && !Fails(c, CacheRank) && !Fails(c, TableRank);
      assert !Fails(c, SequenceCounts) && !Fails(c, HeadGroups) && !Fails(c, CacheHeads) && !Fails(c, CacheHeadSize);
      assert !Fails(c, CacheBlocks) && !Fails(c, SlopesShape) && !Fails(c, EmptyLength) && !Fails(c, TableCapacity);
      assert !Fails(c, Unsupported) && !Fails(c, ThreadgroupMemory);
      var hs, x := c.query[2], c.keyCache[4];
      SplitOf(hs, c.keyCache[2], x);
      assert Layouts(c, c.query[0], c.query[1], hs, x, c.blockTables[1], c.keyCache[0]);
    }
    if Sound(c) {
      var seqs, heads, headSize, x, entries, blocks: nat :| Layouts(c, seqs, heads, headSize, x, entries, blocks);
      forall w: Refusal ensures !Fails(c, w) {
      }
    }
  }

  /** A head size that is a product is split exactly. */
  lemma SplitOf(headSize: nat, pieces: nat, x: nat)
    requires pieces * x == headSize > 0
    ensures x > 0 && headSize / x == pieces && headSize / x * x == headSize
  {
    if x > 0 {
      DigitsOf(pieces, 0, x);
    }
  }

  /** Checks in order, each throwing before the next is made; then the launch and the shared memory to ask for. */
  method Launch(c: Call) returns (r: Outcome)
    ensures r.Accepted? <==> Sound(c)
    ensures r.Accepted? ==> r.kernel == Kernel(c.query[2], c.blockSize, 8, 32, c.maxSeqLen) && r.smem == SharedBytes(c.maxSeqLen, c.query[2])
    ensures r.Refused? ==> Fails(c, r.why) && forall w: Refusal | Place(w) < Place(r.why) :: !Fails(c, w)
  {
    PassesIffSound(c);
    if |c.query| != 3 { return Refused(QueryRank); }
    if |c.keyCache| != 5 || |c.valueCache| != 4 { return Refused(CacheRank); }
    if |c.blockTables| != 2 || |c.contextLens| != 1 { return Refused(TableRank); }
    if c.query[0] != c.blockTables[0] || c.query[0] != c.contextLens[0] { return Refused(SequenceCounts); }
    if c.kvHeads <= 0 || c.query[1] % c.kvHeads != 0 { return Refused(HeadGroups); }
    if c.keyCache[1] != c.kvHeads || c.valueCache[1] != c.kvHeads { return Refused(CacheHeads); }
    if c.keyCache[2] * c.keyCache[4] != c.query[2] || c.valueCache[2] != c.query[2] { return Refused(CacheHeadSize); }
    if c.keyCache[0] != c.valueCache[0] || c.keyCache[3] != c.blockSize || c.valueCache[3] != c.blockSize { return Refused(CacheBlocks); }
    if c.slopes.Some? && (|c.slopes.value| != 1 || c.slopes.value[0] != c.query[1]) { return Refused(SlopesShape); }
    if c.maxSeqLen <= 0 { return Refused(EmptyLength); }
    if c.maxSeqLen > c.blockTables[1] * c.blockSize { return Refused(TableCapacity); }
    var headSize := c.query[2];
    var valid := IsValidConfig(headSize, c.blockSize);
    if !valid { return Refused(Unsupported); }
    var smem := (c.maxSeqLen + 128 + THREADS / LANES * headSize) * 4;
    if smem > c.limit { return Refused(ThreadgroupMemory); }
    r := Accepted(Kernel(headSize, c.blockSize, THREADS / LANES, LANES, c.maxSeqLen), smem);
  }

  // ---------------------------------------------------------------- what an accepted call guarantees

  /**
    An accepted call launches a kernel whose thread count is the grid's, whose shared memory is what was asked
    for and granted, whose block-table reads stay in the table's row for every context it does not zero, whose
    heads all have a key-value head, and whose key cache has an exact innermost split.
   */
  lemma AcceptedIsSafe(c: Call, seqs: nat, heads: nat, headSize: nat, x: nat, entries: nat, blocks: nat)
    requires Layouts(c, seqs, heads, headSize, x, entries, blocks)
    ensures var k := Kernel(headSize, c.blockSize, 8, 32, c.maxSeqLen);
            && KernelOk(k) && Threads(k) == THREADS && 4 * SharedCells(k) == SharedBytes(c.maxSeqLen, headSize) <= c.limit
            && (forall context: nat | context <= c.maxSeqLen :: Blocks(k, context) <= entries)
            && ShapeOk(Shape(blocks, c.kvHeads, headSize, c.blockSize, x))
    ensures forall h: nat | h < heads :: HeadsOk(heads, c.kvHeads, h) && KvHead(heads, c.kvHeads, h) < c.kvHeads
  {
    var k := Kernel(headSize, c.blockSize, 8, 32, c.maxSeqLen);
    assert PowerOfTwo(1) && PowerOfTwo(2) && PowerOfTwo(4) && PowerOfTwo(8) && PowerOfTwo(16) && PowerOfTwo(32);
    hide Blocks, KvHead;
    forall context: nat | context <= c.maxSeqLen ensures Blocks(k, context) <= entries {
      BlocksWithinTable(k, context, entries);
    }
    forall h: nat | h < heads ensures HeadsOk(heads, c.kvHeads, h) && KvHead(heads, c.kvHeads, h) < c.kvHeads {
      KvHeadServes(heads, c.kvHeads, h, 0);
    }
  }

  /** So every threadgroup access of an accepted call, for every context it does not zero, is within the bytes it was granted. */
  lemma AcceptedStaysInGrant(c: Call, seqs: nat, heads: nat, headSize: nat, x: nat, entries: nat, blocks: nat, t: Task)
    requires Layouts(c, seqs, heads, headSize, x, entries, blocks)
    requires TaskOk(t) && t.k == Kernel(headSize, c.blockSize, 8, 32, c.maxSeqLen)
    ensures 4 * SharedCells(t.k) == SharedBytes(c.maxSeqLen, headSize) <= c.limit && Blocks(t.k, |t.keys|) <= entries
    ensures Threads(t.k) > 0 && Safe(InitCode(t), SharedCells(t.k)) && Safe(ValueCode(t), SharedCells(t.k))
    ensures TeamIsSafe(ScoreTeam(t), SharedCells(t.k)) && TeamIsSafe(ExpTeam(t), SharedCells(t.k))
    ensures TeamIsSafe(ReduceTeam(t.k, Max(t.a.low), 127), SharedCells(t.k)) && TeamIsSafe(ReduceTeam(t.k, Sum, 126), SharedCells(t.k))
    ensures OutputSafe(t.k)
  {
    hide Layouts, Safe, TeamIsSafe, OutputSafe, TaskOk;
    TaskFits(t);
    AcceptedIsSafe(c, seqs, heads, headSize, x, entries, blocks);
    IntervalsSafe(t);
  }

  /** The kernels' innermost key split: 16 bytes of two-byte cache elements. */
  const KERNEL_X: nat := 8

  lemma MisreadSound(c: Call)
    requires c == Call([1, 1, 64], [1, 1, 16, 8, 4], [1, 1, 64, 8], [1, 1], [1], 1, 8, 8, None, 0x8000)
    ensures Sound(c)
  {
    assert Layouts(c, 1, 1, 64, 4, 1, 1);
  }

  /**
    The checks let a key cache through that the kernels misread, one with heads of 64 elements split by 4: there the
    first element of a block's second token is stored at 4 and read at 8.
   */
  lemma MisreadCall() returns (c: Call, g: Shape)
    ensures ShapeOk(g) && g.x == 4 && c.keyCache == [g.blocks, g.heads, CacheLayout.Pieces(g), g.blockSize, g.x] && Sound(c)
    ensures !KeysFound(g, KERNEL_X)
  {
    hide Sound, KeysFound;
    c := Call([1, 1, 64], [1, 1, 16, 8, 4], [1, 1, 64, 8], [1, 1], [1], 1, 8, 8, None, 0x8000);
    g := Shape(1, 1, 64, 8, 4);
    MisreadSound(c);
    KeysReadBack(g, KERNEL_X);
  }
}
