/** Where a token's key and value elements live in the paged caches. */
module CacheLayout {
  import opened Strides

  /** The shape of a key cache, [blocks, heads, headSize / x, blockSize, x], whose innermost split is exact. */
  datatype Shape = Shape(blocks: nat, heads: nat, headSize: nat, blockSize: nat, x: nat)

  ghost predicate ShapeOk(g: Shape) {
    g.heads > 0 && g.headSize > 0 && g.blockSize > 0 && g.x > 0 && g.headSize / g.x * g.x == g.headSize
  }

  /** Elements of one token, over all heads. */
  ghost function Width(g: Shape): nat { g.heads * g.headSize }

  ghost function CacheSize(g: Shape): nat { g.blocks * (g.heads * g.headSize * g.blockSize) }

  ghost function Slots(g: Shape): nat { g.blocks * g.blockSize }

  ghost function Block(g: Shape, slot: nat): nat
    requires ShapeOk(g)
  {
    slot / g.blockSize
  }

  ghost function Offset(g: Shape, slot: nat): (r: nat)
    requires ShapeOk(g)
    ensures r < g.blockSize
  {
    slot % g.blockSize
  }

  ghost function Head(g: Shape, i: nat): nat
    requires ShapeOk(g)
  {
    i / g.headSize
  }

  ghost function Within(g: Shape, i: nat): (r: nat)
    requires ShapeOk(g)
    ensures r < g.headSize
  {
    i % g.headSize
  }

  /** How many pieces of `x` elements a head is split into. */
  ghost function Pieces(g: Shape): nat
    requires ShapeOk(g)
  {
    g.headSize / g.x
  }

  ghost function Piece(g: Shape, i: nat): nat
    requires ShapeOk(g)
  {
    Within(g, i) / g.x
  }

  ghost function Rest(g: Shape, i: nat): (r: nat)
    requires ShapeOk(g)
    ensures r < g.x
  {
    Within(g, i) % g.x
  }

  // ---------------------------------------------------------------- the writer's addresses

  /** Element `i` of the token in `slot`, in the key cache. */
  ghost function KeyAddr(g: Shape, slot: nat, i: nat): int
    requires ShapeOk(g)
  {
    Block(g, slot) * (g.heads * Pieces(g) * g.blockSize * g.x) + Head(g, i) * (Pieces(g) * g.blockSize * g.x)
    + Piece(g, i) * (g.blockSize * g.x) + Offset(g, slot) * g.x + Rest(g, i)
  }

  /** Element `i` of the token in `slot`, in the value cache [blocks, heads, headSize, blockSize]. */
  ghost function ValueAddr(g: Shape, slot: nat, i: nat): int
    requires ShapeOk(g)
  {
    Block(g, slot) * (g.heads * g.headSize * g.blockSize) + Head(g, i) * (g.headSize * g.blockSize)
    + Within(g, i) * g.blockSize + Offset(g, slot)
  }

  /** Element `i` of the token in `slot`, in either flash cache [blocks, blockSize, heads, headSize]. */
  ghost function FlashAddr(g: Shape, slot: nat, i: nat): int
    requires ShapeOk(g)
  {
    Block(g, slot) * g.blockSize * g.heads * g.headSize + Offset(g, slot) * g.heads * g.headSize + i
  }

  // ---------------------------------------------------------------- mixed-radix forms

  lemma Mul3(a: nat, b: nat, c: nat)
    ensures a * (b * c) == a * b * c && a * b * c == a * c * b
  {
  }

  lemma Dist(a: nat, b: nat, c: nat)
    ensures (a + b) * c == a * c + b * c
  {
  }

  /** A key address is a number whose digits are block, head, piece, offset and rest. */
  lemma KeyDigits(g: Shape, slot: nat, i: nat)
    requires ShapeOk(g)
    ensures KeyAddr(g, slot, i)
         == Digits(Digits(Digits(Digits(Block(g, slot), g.heads, Head(g, i)), Pieces(g), Piece(g, i)),
                          g.blockSize, Offset(g, slot)), g.x, Rest(g, i))
  {
    hide Block, Head, Pieces, Piece, Offset, Rest, ShapeOk;
    KeyForm(Block(g, slot), Head(g, i), Piece(g, i), Offset(g, slot), Rest(g, i), g.heads, Pieces(g), g.blockSize, g.x);
  }

  /** The kernel's sum of products, in positional form. */
  lemma KeyForm(block: nat, head: nat, split: nat, offset: nat, rest: nat, h: nat, n: nat, b: nat, x: nat)
    ensures block * (h * n * b * x) + head * (n * b * x) + split * (b * x) + offset * x + rest
         == Digits(Digits(Digits(Digits(block, h, head), n, split), b, offset), x, rest)
  {
    var p := block * h + head;
    assert block * (h * n * b * x) == block * h * (n * b * x) by {
      Mul3(h, n * b, x);
      Mul3(h, n, b);
      Mul3(block, h, n * b * x);
    }
    Dist(block * h, head, n * b * x);
    assert p * (n * b * x) == p * n * (b * x) by {
      Mul3(n, b, x);
      Mul3(p, n, b * x);
    }
    Dist(p * n, split, b * x);
    Mul3(p * n + split, b, x);
    Dist((p * n + split) * b, offset, x);
  }

  lemma ValueDigits(g: Shape, slot: nat, i: nat)
    requires ShapeOk(g)
    ensures ValueAddr(g, slot, i)
         == Digits(Digits(Digits(Block(g, slot), g.heads, Head(g, i)), g.headSize, Within(g, i)), g.blockSize, Offset(g, slot))
  {
    hide Block, Head, Within, Offset, ShapeOk;
    ValueForm(Block(g, slot), Head(g, i), Within(g, i), Offset(g, slot), g.heads, g.headSize, g.blockSize);
  }

  lemma ValueForm(block: nat, head: nat, within: nat, offset: nat, h: nat, n: nat, b: nat)
    ensures block * (h * n * b) + head * (n * b) + within * b + offset
         == Digits(Digits(Digits(block, h, head), n, within), b, offset)
  {
    var p := block * h + head;
    assert block * (h * n * b) == block * h * (n * b) by {
      Mul3(h, n, b);
      Mul3(block, h, n * b);
    }
    Dist(block * h, head, n * b);
    Mul3(p, n, b);
    Dist(p * n, within, b);
  }

  /** A flash cache stores whole tokens, one after the other. */
  lemma FlashDigits(g: Shape, slot: nat, i: nat)
    requires ShapeOk(g)
    ensures FlashAddr(g, slot, i) == Digits(slot, Width(g), i)
  {
    DivMod(slot, g.blockSize);
    var block, offset, b := Block(g, slot), Offset(g, slot), g.blockSize;
    assert block * b + offset == slot;
    hide Block, Offset, ShapeOk;
    Mul3(block * b, g.heads, g.headSize);
    Mul3(offset, g.heads, g.headSize);
    Dist(block * b, offset, Width(g));
  }

  // ---------------------------------------------------------------- injectivity

  lemma SameNumber(s: nat, t: nat, m: nat)
    requires m > 0 && s / m == t / m && s % m == t % m
    ensures s == t
  {
    DivMod(s, m);
    DivMod(t, m);
  }

  lemma SameSlot(g: Shape, s: nat, t: nat)
    requires ShapeOk(g) && Block(g, s) == Block(g, t) && Offset(g, s) == Offset(g, t)
    ensures s == t
  {
    SameNumber(s, t, g.blockSize);
  }

  lemma SameElement(g: Shape, i: nat, j: nat)
    requires ShapeOk(g) && Head(g, i) == Head(g, j) && Within(g, i) == Within(g, j)
    ensures i == j
  {
    SameNumber(i, j, g.headSize);
  }

  lemma SameWithin(g: Shape, i: nat, j: nat)
    requires ShapeOk(g) && Piece(g, i) == Piece(g, j) && Rest(g, i) == Rest(g, j)
    ensures Within(g, i) == Within(g, j)
  {
    SameNumber(Within(g, i), Within(g, j), g.x);
  }

  lemma HeadBelow(g: Shape, i: nat)
    requires ShapeOk(g) && i < Width(g)
    ensures Head(g, i) < g.heads
  {
    DivMod(i, g.headSize);
    if i / g.headSize >= g.heads {
      MulMonotone(g.heads, i / g.headSize, g.headSize);
    }
  }

  lemma PieceBelow(g: Shape, i: nat)
    requires ShapeOk(g)
    ensures Piece(g, i) < Pieces(g)
  {
    var w := Within(g, i);
    DivMod(w, g.x);
    if w / g.x >= g.headSize / g.x {
      MulMonotone(g.headSize / g.x, w / g.x, g.x);
    }
  }

  /** Distinct elements of distinct slots have distinct places in the key cache. */
  lemma KeyInjective(g: Shape, s: nat, i: nat, t: nat, j: nat)
    requires ShapeOk(g) && i < Width(g) && j < Width(g) && KeyAddr(g, s, i) == KeyAddr(g, t, j)
    ensures s == t && i == j
  {
    KeyDigits(g, s, i);
    KeyDigits(g, t, j);
    hide KeyAddr, Digits, Block, Head, Pieces, Piece, Offset, Rest, ShapeOk, Width, Within;
    PieceBelow(g, i);
    PieceBelow(g, j);
    HeadBelow(g, i);
    HeadBelow(g, j);
    var p, q := Digits(Block(g, s), g.heads, Head(g, i)), Digits(Block(g, t), g.heads, Head(g, j));
    var v, w := Digits(p, Pieces(g), Piece(g, i)), Digits(q, Pieces(g), Piece(g, j));
    UniqueDigits(Digits(v, g.blockSize, Offset(g, s)), Rest(g, i), Digits(w, g.blockSize, Offset(g, t)), Rest(g, j), g.x);
    UniqueDigits(v, Offset(g, s), w, Offset(g, t), g.blockSize);
    UniqueDigits(p, Piece(g, i), q, Piece(g, j), Pieces(g));
    UniqueDigits(Block(g, s), Head(g, i), Block(g, t), Head(g, j), g.heads);
    SameWithin(g, i, j);
    SameSlot(g, s, t);
    SameElement(g, i, j);
  }

  lemma ValueInjective(g: Shape, s: nat, i: nat, t: nat, j: nat)
    requires ShapeOk(g) && i < Width(g) && j < Width(g) && ValueAddr(g, s, i) == ValueAddr(g, t, j)
    ensures s == t && i == j
  {
    ValueDigits(g, s, i);
    ValueDigits(g, t, j);
    hide ValueAddr, Digits, Block, Head, Offset, ShapeOk, Width, Within;
    HeadBelow(g, i);
    HeadBelow(g, j);
    var p, q := Digits(Block(g, s), g.heads, Head(g, i)), Digits(Block(g, t), g.heads, Head(g, j));
    UniqueDigits(Digits(p, g.headSize, Within(g, i)), Offset(g, s), Digits(q, g.headSize, Within(g, j)), Offset(g, t), g.blockSize);
    UniqueDigits(p, Within(g, i), q, Within(g, j), g.headSize);
    UniqueDigits(Block(g, s), Head(g, i), Block(g, t), Head(g, j), g.heads);
    SameSlot(g, s, t);
    SameElement(g, i, j);
  }

  lemma FlashInjective(g: Shape, s: nat, i: nat, t: nat, j: nat)
    requires ShapeOk(g) && i < Width(g) && j < Width(g) && FlashAddr(g, s, i) == FlashAddr(g, t, j)
    ensures s == t && i == j
  {
    FlashDigits(g, s, i);
    FlashDigits(g, t, j);
    hide FlashAddr, Digits, ShapeOk, Width;
    UniqueDigits(s, i, t, j, Width(g));
  }

  // ---------------------------------------------------------------- bounds

  lemma BlockBelow(g: Shape, slot: nat)
    requires ShapeOk(g) && slot < Slots(g)
    ensures Block(g, slot) < g.blocks
  {
    DivMod(slot, g.blockSize);
    if slot / g.blockSize >= g.blocks {
      MulMonotone(g.blocks, slot / g.blockSize, g.blockSize);
    }
  }

  lemma AddrsInBounds(g: Shape, slot: nat, i: nat)
    requires ShapeOk(g) && slot < Slots(g) && i < Width(g)
    ensures 0 <= KeyAddr(g, slot, i) < CacheSize(g) && 0 <= ValueAddr(g, slot, i) < CacheSize(g)
    ensures 0 <= FlashAddr(g, slot, i) < CacheSize(g)
  {
    KeyDigits(g, slot, i);
    ValueDigits(g, slot, i);
    FlashDigits(g, slot, i);
    SizeForms(g);
    hide KeyAddr, ValueAddr, FlashAddr, Digits, Block, Head, Pieces, Piece, Offset, Rest, ShapeOk, Width, Within, CacheSize, Slots;
    BlockBelow(g, slot);
    HeadBelow(g, i);
    PieceBelow(g, i);
    var p, q, b := Digits(Block(g, slot), g.heads, Head(g, i)), g.blocks * g.heads, g.blockSize;
    DigitsBelow(Block(g, slot), Head(g, i), g.blocks, g.heads);
    DigitsBelow(p, Piece(g, i), q, Pieces(g));
    DigitsBelow(Digits(p, Pieces(g), Piece(g, i)), Offset(g, slot), q * Pieces(g), b);
    DigitsBelow(Digits(Digits(p, Pieces(g), Piece(g, i)), b, Offset(g, slot)), Rest(g, i), q * Pieces(g) * b, g.x);
    DigitsBelow(p, Within(g, i), q, g.headSize);
    DigitsBelow(Digits(p, g.headSize, Within(g, i)), Offset(g, slot), q * g.headSize, b);
    DigitsBelow(slot, i, Slots(g), Width(g));
  }

  lemma SizeForms(g: Shape)
    requires ShapeOk(g)
    ensures CacheSize(g) == g.blocks * g.heads * g.headSize * g.blockSize
    ensures CacheSize(g) == g.blocks * g.heads * Pieces(g) * g.blockSize * g.x
    ensures CacheSize(g) == Slots(g) * Width(g)
  {
    var q, n, b, x := g.blocks * g.heads, g.headSize / g.x, g.blockSize, g.x;
    Mul3(g.heads, g.headSize, b);
    Mul3(g.blocks, g.heads, g.headSize * b);
    Mul3(q, g.headSize, b);
    Mul3(q * n, b, x);
    Mul3(q, n, x);
    Mul3(g.blocks, b, Width(g));
    Mul3(b, g.heads, g.headSize);
    Mul3(g.blocks, g.heads * g.headSize, b);
  }

  // ---------------------------------------------------------------- the reader's addresses

  /** Strides of a contiguous key cache; the attention kernel uses them for both caches. */
  ghost function BlockStride(g: Shape): int
    requires g.x > 0
  {
    g.heads * (g.headSize / g.x) * g.blockSize * g.x
  }

  ghost function HeadStride(g: Shape): int
    requires g.x > 0
  {
    g.headSize / g.x * g.blockSize * g.x
  }

  /** What the attention kernel reads as key element `d` of the token at offset `t` of a physical block. */
  ghost function KernelKeyAddr(g: Shape, kernelX: nat, block: nat, head: nat, t: nat, d: nat): int
    requires kernelX > 0 && g.x > 0
  {
    block * BlockStride(g) + head * HeadStride(g) + d / kernelX * g.blockSize * kernelX + t * kernelX + d % kernelX
  }

  /** And as value element `d`, with the key cache's strides. */
  ghost function KernelValueAddr(g: Shape, block: nat, head: nat, t: nat, d: nat): int
    requires g.x > 0
  {
    block * BlockStride(g) + head * HeadStride(g) + d * g.blockSize + t
  }

  lemma TokenDigits(g: Shape, block: nat, head: nat, t: nat, d: nat)
    requires ShapeOk(g) && t < g.blockSize && d < g.headSize
    ensures var slot, i := block * g.blockSize + t, head * g.headSize + d;
            Block(g, slot) == block && Offset(g, slot) == t && Head(g, i) == head && Within(g, i) == d
  {
    DigitsOf(block, t, g.blockSize);
    DigitsOf(head, d, g.headSize);
  }

  /** The reader's value address is the writer's, although its strides are the key cache's. */
  lemma ValueReadBack(g: Shape, block: nat, head: nat, t: nat, d: nat)
    requires ShapeOk(g) && t < g.blockSize && d < g.headSize
    ensures KernelValueAddr(g, block, head, t, d) == ValueAddr(g, block * g.blockSize + t, head * g.headSize + d)
  {
    TokenDigits(g, block, head, t, d);
    Mul3(g.headSize / g.x, g.blockSize, g.x);
    Mul3(g.heads * (g.headSize / g.x), g.blockSize, g.x);
    Mul3(g.heads, g.headSize / g.x, g.x);
    assert HeadStride(g) == g.headSize * g.blockSize && BlockStride(g) == g.heads * g.headSize * g.blockSize;
  }

  lemma KeyReadBack(g: Shape, block: nat, head: nat, t: nat, d: nat)
    requires ShapeOk(g) && t < g.blockSize && d < g.headSize
    ensures KernelKeyAddr(g, g.x, block, head, t, d) == KeyAddr(g, block * g.blockSize + t, head * g.headSize + d)
  {
    TokenDigits(g, block, head, t, d);
    Mul3(d / g.x, g.blockSize, g.x);
  }

  /** The first element of a block's second token is one innermost piece further on, by either's account of a piece. */
  lemma SecondToken(g: Shape, kernelX: nat)
    requires ShapeOk(g) && kernelX > 0 && g.blockSize > 1
    ensures KernelKeyAddr(g, kernelX, 0, 0, 1, 0) == kernelX && KeyAddr(g, 1, 0) == g.x
  {
    KeyReadBack(g, 0, 0, 1, 0);
    hide KeyAddr, ShapeOk;
    assert 0 * g.blockSize + 1 == 1 && 0 * g.headSize + 0 == 0;
    assert KernelKeyAddr(g, kernelX, 0, 0, 1, 0) == kernelX && KernelKeyAddr(g, g.x, 0, 0, 1, 0) == g.x;
  }

  /** A kernel compiled for `kernelX` finds every key element where the writer put it. */
  ghost predicate KeysFound(g: Shape, kernelX: nat)
    requires ShapeOk(g) && kernelX > 0
  {
    forall block: nat, head: nat, t: nat, d: nat | t < g.blockSize && d < g.headSize ::
      KernelKeyAddr(g, kernelX, block, head, t, d) == KeyAddr(g, block * g.blockSize + t, head * g.headSize + d)
  }

  /**
    The reader finds every key element where the writer put it if and only if its compiled-in `x`
    is the cache's. The host checks only that the cache's own split multiplies out.
   */
  lemma KeysReadBack(g: Shape, kernelX: nat)
    requires ShapeOk(g) && kernelX > 0 && g.blockSize > 1
    ensures KeysFound(g, kernelX) <==> kernelX == g.x
  {
    if kernelX == g.x {
      forall block: nat, head: nat, t: nat, d: nat | t < g.blockSize && d < g.headSize
        ensures KernelKeyAddr(g, kernelX, block, head, t, d) == KeyAddr(g, block * g.blockSize + t, head * g.headSize + d)
      {
        KeyReadBack(g, block, head, t, d);
      }
    } else {
      SecondToken(g, kernelX);
      assert KernelKeyAddr(g, kernelX, 0, 0, 1, 0) != KeyAddr(g, 0 * g.blockSize + 1, 0 * g.headSize + 0);
    }
  }
}
