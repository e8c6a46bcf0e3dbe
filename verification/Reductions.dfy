/** Maxima and sums: strided and chunked folds, and the butterfly exchange between the lanes of a group. */
module Reductions {
  import opened Strides

  /** `low` is below every value that is reduced. */
  datatype Op = Max(low: real) | Sum

  function Combine(op: Op, a: real, b: real): real {
    match op
    case Max(_) => if a < b then b else a
    case Sum => a + b
  }

  function Unit(op: Op): real {
    match op
    case Max(low) => low
    case Sum => 0.0
  }

  ghost predicate Admits(op: Op, a: real) {
    op.Max? ==> op.low <= a
  }

  ghost predicate AllFit(op: Op, v: seq<real>) {
    forall i | 0 <= i < |v| :: Admits(op, v[i])
  }

  lemma Laws(op: Op, a: real, b: real, c: real)
    ensures Combine(op, a, b) == Combine(op, b, a)
    ensures Combine(op, a, Combine(op, b, c)) == Combine(op, Combine(op, a, b), c)
    ensures Admits(op, a) ==> Combine(op, a, Unit(op)) == a == Combine(op, Unit(op), a)
    ensures Admits(op, Unit(op)) && (Admits(op, a) && Admits(op, b) ==> Admits(op, Combine(op, a, b)))
  {
  }

  // ---------------------------------------------------------------- strided folds

  /** Over elements `i`, `i + step`, ... of `v`. */
  ghost function StrideFold(op: Op, v: seq<real>, i: nat, step: nat): real
    requires step > 0
    decreases if i < |v| then |v| - i else 0
  {
    if i < |v| then Combine(op, v[i], StrideFold(op, v, i + step, step)) else Unit(op)
  }

  ghost function Fold(op: Op, v: seq<real>): real {
    StrideFold(op, v, 0, 1)
  }

  lemma {:induction false} StrideFits(op: Op, v: seq<real>, i: nat, step: nat)
    requires step > 0 && AllFit(op, v)
    ensures Admits(op, StrideFold(op, v, i, step))
    decreases if i < |v| then |v| - i else 0
  {
    if i < |v| {
      StrideFits(op, v, i + step, step);
    }
  }

  /** A fold is the fold of its two interleaved halves. */
  lemma {:induction false} Halves(op: Op, v: seq<real>, i: nat, h: nat)
    requires h > 0 && AllFit(op, v)
    ensures StrideFold(op, v, i, h) == Combine(op, StrideFold(op, v, i, 2 * h), StrideFold(op, v, i + h, 2 * h))
    decreases if i < |v| then |v| - i else 0
  {
    StrideFits(op, v, i + h, 2 * h);
    if i < |v| {
      Halves(op, v, i + h, h);
      assert i + h + h == i + 2 * h;
      Laws(op, v[i], StrideFold(op, v, i + 2 * h, 2 * h), StrideFold(op, v, i + h, 2 * h));
      Laws(op, StrideFold(op, v, i + h, 2 * h), StrideFold(op, v, i + 2 * h, 2 * h), Unit(op));
    }
  }

  /** The folds of `n` neighbouring strides, folded together. */
  ghost function Strands(op: Op, v: seq<real>, i: nat, step: nat, n: nat): real
    requires step > 0
    decreases n
  {
    if n == 0 then Unit(op) else Combine(op, StrideFold(op, v, i, step), Strands(op, v, i + 1, step, n - 1))
  }

  lemma {:induction false} StrandsFit(op: Op, v: seq<real>, i: nat, step: nat, n: nat)
    requires step > 0 && AllFit(op, v)
    ensures Admits(op, Strands(op, v, i, step, n))
    decreases n
  {
    StrideFits(op, v, i, step);
    if n > 0 {
      StrandsFit(op, v, i + 1, step, n - 1);
    }
  }

  lemma {:induction false} LastStrand(op: Op, v: seq<real>, i: nat, step: nat, n: nat)
    requires step > 0 && AllFit(op, v)
    ensures Strands(op, v, i, step, n + 1) == Combine(op, Strands(op, v, i, step, n), StrideFold(op, v, i + n, step))
    decreases n
  {
    StrideFits(op, v, i, step);
    if n == 0 {
      assert Strands(op, v, i + 1, step, 0) == Unit(op);
      Laws(op, StrideFold(op, v, i, step), Unit(op), Unit(op));
    } else {
      LastStrand(op, v, i + 1, step, n - 1);
      assert i + 1 + (n - 1) == i + n;
      Laws(op, StrideFold(op, v, i, step), Strands(op, v, i + 1, step, n - 1), StrideFold(op, v, i + n, step));
    }
  }

  /** As many strands as the step is wide cover everything from `i` on, each element once. */
  lemma {:induction false} StrandsCover(op: Op, v: seq<real>, i: nat, step: nat)
    requires step > 0 && AllFit(op, v)
    ensures Strands(op, v, i, step, step) == StrideFold(op, v, i, 1)
    decreases if i < |v| then |v| - i else 0
  {
    if i >= |v| {
      AllEmpty(op, v, i, step, step);
    } else {
      StrandsCover(op, v, i + 1, step);
      var rest := Strands(op, v, i + 1, step, step - 1);
      LastStrand(op, v, i + 1, step, step - 1);
      assert i + 1 + (step - 1) == i + step && step - 1 + 1 == step;
      StrandsFit(op, v, i + 1, step, step - 1);
      var next := StrideFold(op, v, i + step, step);
      assert Strands(op, v, i, step, step) == Combine(op, Combine(op, v[i], next), rest);
      Laws(op, v[i], next, rest);
      Laws(op, next, rest, Unit(op));
    }
  }

  lemma {:induction false} AllEmpty(op: Op, v: seq<real>, i: nat, step: nat, n: nat)
    requires step > 0 && i >= |v|
    ensures Strands(op, v, i, step, n) == Unit(op)
    decreases n
  {
    if n > 0 {
      AllEmpty(op, v, i + 1, step, n - 1);
      Laws(op, Unit(op), Unit(op), Unit(op));
    }
  }

  /** What `step` threads gather from their strides of `v` folds to the whole. */
  lemma {:induction false} StridesTotal(op: Op, v: seq<real>, step: nat, gathered: seq<real>, n: nat)
    requires step > 0 && AllFit(op, v) && n <= |gathered| == step
    requires forall t | 0 <= t < step :: gathered[t] == StrideFold(op, v, t, step)
    ensures StrideFold(op, gathered, step - n, 1) == Strands(op, v, step - n, step, n)
    ensures n == step ==> Fold(op, gathered) == Fold(op, v)
    decreases n
  {
    if n > 0 {
      StridesTotal(op, v, step, gathered, n - 1);
    }
    if n == step {
      StrandsCover(op, v, 0, step);
    }
  }

  // ---------------------------------------------------------------- consecutive pieces

  lemma {:induction false} FoldFrom(op: Op, a: seq<real>, b: seq<real>, i: nat)
    requires AllFit(op, a) && AllFit(op, b) && i <= |a|
    ensures StrideFold(op, a + b, i, 1) == Combine(op, StrideFold(op, a, i, 1), Fold(op, b))
    decreases |a| - i
  {
    StrideFits(op, b, 0, 1);
    if i == |a| {
      ShiftFold(op, a, b, 0);
      Laws(op, Fold(op, b), Unit(op), Unit(op));
    } else {
      FoldFrom(op, a, b, i + 1);
      Laws(op, a[i], StrideFold(op, a, i + 1, 1), Fold(op, b));
    }
  }

  lemma {:induction false} ShiftFold(op: Op, a: seq<real>, b: seq<real>, i: nat)
    requires i <= |b|
    ensures StrideFold(op, a + b, |a| + i, 1) == StrideFold(op, b, i, 1)
    decreases |b| - i
  {
    if i < |b| {
      ShiftFold(op, a, b, i + 1);
    }
  }

  lemma FoldBoth(op: Op, a: seq<real>, b: seq<real>)
    requires AllFit(op, a) && AllFit(op, b)
    ensures Fold(op, a + b) == Combine(op, Fold(op, a), Fold(op, b))
  {
    FoldFrom(op, a, b, 0);
  }

  /** Piece `k` of `v`, of `size` elements except perhaps the last. */
  ghost function PieceOf(v: seq<real>, size: nat, k: nat): (r: seq<real>)
    ensures |r| == if k * size >= |v| then 0 else if k * size + size <= |v| then size else |v| - k * size
  {
    if k * size >= |v| then [] else if k * size + size <= |v| then v[k * size..k * size + size] else v[k * size..]
  }

  lemma PieceAt(v: seq<real>, size: nat, k: nat, o: nat)
    requires o < |PieceOf(v, size, k)|
    ensures k * size + o < |v| && PieceOf(v, size, k)[o] == v[k * size + o]
  {
  }

  /** Pieces of sequences of the same length have the same lengths. */
  lemma SamePieces(v: seq<real>, w: seq<real>, size: nat, k: nat)
    requires |v| == |w|
    ensures |PieceOf(v, size, k)| == |PieceOf(w, size, k)|
  {
  }

  /** The first `n` pieces. */
  ghost function Pieces(v: seq<real>, size: nat, n: nat): seq<real> {
    if n * size <= |v| then v[..n * size] else v
  }

  lemma NextPiece(v: seq<real>, size: nat, n: nat)
    ensures Pieces(v, size, n) + PieceOf(v, size, n) == Pieces(v, size, n + 1)
  {
    assert (n + 1) * size == n * size + size;
  }

  lemma PiecesFit(op: Op, v: seq<real>, size: nat, n: nat)
    requires AllFit(op, v)
    ensures AllFit(op, Pieces(v, size, n)) && AllFit(op, PieceOf(v, size, n)) && Admits(op, Fold(op, PieceOf(v, size, n)))
  {
    StrideFits(op, PieceOf(v, size, n), 0, 1);
  }

  /** Folding piece by piece folds the whole. */
  lemma {:induction false} PiecesTotal(op: Op, v: seq<real>, size: nat, folded: seq<real>, n: nat)
    requires AllFit(op, v) && n <= |folded|
    requires forall k | 0 <= k < |folded| :: folded[k] == Fold(op, PieceOf(v, size, k))
    ensures AllFit(op, folded[..n]) && Fold(op, folded[..n]) == Fold(op, Pieces(v, size, n))
    decreases n
  {
    hide Pieces, PieceOf, Fold, AllFit, Admits;
    if n == 0 {
      NoPieces(op, v, size);
      assert folded[..0] == [];
    } else {
      PiecesTotal(op, v, size, folded, n - 1);
      NextPiece(v, size, n - 1);
      PiecesFit(op, v, size, n - 1);
      FoldNext(op, folded[..n - 1], folded[n - 1], Pieces(v, size, n - 1), PieceOf(v, size, n - 1));
      assert folded[..n] == folded[..n - 1] + [folded[n - 1]];
    }
  }

  lemma NoPieces(op: Op, v: seq<real>, size: nat)
    ensures Pieces(v, size, 0) == [] && AllFit(op, [])
  {
  }

  lemma FoldNext(op: Op, a: seq<real>, x: real, v: seq<real>, piece: seq<real>)
    requires AllFit(op, a) && Admits(op, x) && AllFit(op, v) && AllFit(op, piece)
    requires Fold(op, a) == Fold(op, v) && x == Fold(op, piece)
    ensures AllFit(op, a + [x]) && Fold(op, a + [x]) == Fold(op, v + piece)
  {
    hide Fold;
    FoldBoth(op, a, [x]);
    FoldOne(op, x);
    FoldBoth(op, v, piece);
  }

  lemma FoldOne(op: Op, a: real)
    requires Admits(op, a)
    ensures Fold(op, [a]) == a
  {
    assert StrideFold(op, [a], 1, 1) == Unit(op);
    Laws(op, a, a, a);
  }

  lemma FoldAppend(op: Op, a: seq<real>, x: real)
    requires AllFit(op, a) && Admits(op, x)
    ensures AllFit(op, a + [x]) && Fold(op, a + [x]) == Combine(op, Fold(op, a), x)
  {
    FoldBoth(op, a, [x]);
    FoldOne(op, x);
  }

  /** Lanes without a value hold the unit, which changes nothing. */
  lemma {:induction false} FoldPadded(op: Op, a: seq<real>, n: nat)
    requires AllFit(op, a)
    ensures AllFit(op, a + seq(n, _ => Unit(op))) && Fold(op, a + seq(n, _ => Unit(op))) == Fold(op, a)
    decreases n
  {
    Laws(op, Unit(op), Unit(op), Unit(op));
    StrideFits(op, a, 0, 1);
    if n == 0 {
      assert a + seq(0, _ => Unit(op)) == a;
    } else {
      FoldPadded(op, a, n - 1);
      FoldAppend(op, a + seq(n - 1, _ => Unit(op)), Unit(op));
      Laws(op, Fold(op, a), Unit(op), Unit(op));
      assert a + seq(n, _ => Unit(op)) == a + seq(n - 1, _ => Unit(op)) + [Unit(op)];
    }
  }

  /** The elements a strided loop visits, in order. */
  ghost function Visited(v: seq<real>, i: nat, step: nat): (r: seq<real>)
    requires step > 0
    ensures |r| == Turns(i, |v|, step)
  {
    seq(Turns(i, |v|, step), j requires 0 <= j < Turns(i, |v|, step) => (TurnsBound(i, |v|, step, j); v[Visit(i, j, step)]))
  }

  /** Gathering them in order is folding the stride. */
  lemma {:induction false} VisitedFold(op: Op, v: seq<real>, i: nat, step: nat)
    requires step > 0 && AllFit(op, v)
    ensures AllFit(op, Visited(v, i, step)) && Fold(op, Visited(v, i, step)) == StrideFold(op, v, i, step)
    decreases if i < |v| then |v| - i else 0
  {
    if i < |v| {
      VisitedFold(op, v, i + step, step);
      var rest := Visited(v, i + step, step);
      forall j | 0 <= j < |rest| ensures Visited(v, i, step)[1 + j] == rest[j] {
        assert Visit(i, 1 + j, step) == Visit(i + step, j, step) by {
          assert (1 + j) * step == step + j * step;
        }
      }
      assert Visit(i, 0, step) == i;
      assert Visited(v, i, step) == [v[i]] + rest;
      FoldBoth(op, [v[i]], rest);
      FoldOne(op, v[i]);
    } else {
      assert Visited(v, i, step) == [];
    }
  }

  // ---------------------------------------------------------------- what a maximum is

  lemma {:induction false} MaxFrom(low: real, v: seq<real>, i: nat)
    requires AllFit(Max(low), v) && i <= |v|
    ensures forall k | i <= k < |v| :: v[k] <= StrideFold(Max(low), v, i, 1)
    ensures StrideFold(Max(low), v, i, 1) == low || exists k :: i <= k < |v| && v[k] == StrideFold(Max(low), v, i, 1)
    decreases |v| - i
  {
    if i < |v| {
      MaxFrom(low, v, i + 1);
    }
  }

  lemma FoldIsMax(low: real, v: seq<real>)
    requires AllFit(Max(low), v)
    ensures low <= Fold(Max(low), v) && forall k | 0 <= k < |v| :: v[k] <= Fold(Max(low), v)
    ensures Fold(Max(low), v) == low || exists k :: 0 <= k < |v| && v[k] == Fold(Max(low), v)
  {
    MaxFrom(low, v, 0);
    StrideFits(Max(low), v, 0, 1);
  }

  /** An upper bound that is reached, or the lower limit if nothing is, is the maximum. */
  lemma MaxIs(low: real, v: seq<real>, m: real)
    requires AllFit(Max(low), v) && (forall k | 0 <= k < |v| :: v[k] <= m)
    requires m == low || exists k :: 0 <= k < |v| && v[k] == m
    ensures m == Fold(Max(low), v)
  {
    MaxFrom(low, v, 0);
    StrideFits(Max(low), v, 0, 1);
  }

  // ---------------------------------------------------------------- the butterfly exchange

  /** `i` with the bit worth `h` flipped. */
  function FlipBit(i: nat, h: nat): (r: nat)
    requires h > 0
  {
    if i / h % 2 == 0 then i + h else FlipBelow(i, h)
  }

  function FlipBelow(i: nat, h: nat): (r: nat)
    requires h > 0 && i / h % 2 != 0
  {
    SmallQuotient(i, h);
    i - h
  }

  lemma SmallQuotient(i: nat, h: nat)
    requires h > 0 && i / h % 2 != 0
    ensures h <= i
  {
    DivMod(i, h);
    if i < h {
      UniqueDigits(i / h, i % h, 0, i, h);
    }
  }

  /** `i` and its partner in base `2h`: the same high digits, and low digits that differ by `h`. */
  lemma FlipSplit(i: nat, h: nat) returns (k: nat, low: nat, other: nat)
    requires h > 0
    ensures i == Digits(k, 2 * h, low) && FlipBit(i, h) == Digits(k, 2 * h, other)
    ensures var a := i % h; (low == a && other == a + h) || (low == a + h && other == a)
  {
    var a, m := i % h, i / h;
    DivMod(i, h);
    k := m / 2;
    var bit := m % 2;
    low, other := if bit == 0 then a else a + h, if bit == 0 then a + h else a;
    HalfDigits(i, k, bit, h, a);
  }

  lemma HalfDigits(i: nat, k: nat, bit: nat, h: nat, a: nat)
    requires bit < 2 && i == (2 * k + bit) * h + a
    ensures i == Digits(k, 2 * h, if bit == 0 then a else a + h)
  {
    Regroup(k, bit, h, a);
  }

  /** Writing `i` in base `2h`: flipping its bit exchanges remainders `a` and `a + h`, and stays below any multiple of `2h`. */
  lemma FlipExchanges(i: nat, h: nat, q: nat)
    requires h > 0 && i < q * (2 * h)
    ensures FlipBit(i, h) < q * (2 * h)
    ensures var a := i % h; {i % (2 * h), FlipBit(i, h) % (2 * h)} == {a, a + h} && i % (2 * h) != FlipBit(i, h) % (2 * h)
  {
    hide FlipBit, Digits;
    var k, low, other := FlipSplit(i, h);
    SmallRest(i, h);
    QuotientBelow(i, k, low, 2 * h, q);
    FlippedDigits(i, FlipBit(i, h), k, low, other, 2 * h, q);
  }

  lemma SmallRest(i: nat, h: nat)
    requires h > 0
    ensures i % h < h
  {
  }

  lemma QuotientBelow(i: nat, k: nat, low: nat, m: nat, q: nat)
    requires i == Digits(k, m, low) && i < q * m
    ensures k < q
  {
    if k >= q {
      MulMonotone(q, k, m);
    }
  }

  lemma FlippedDigits(i: nat, j: nat, k: nat, a: nat, b: nat, m: nat, q: nat)
    requires a < m && b < m && k < q && i == Digits(k, m, a) && j == Digits(k, m, b)
    ensures i % m == a && j % m == b && j < q * m
  {
    DigitsOf(k, a, m);
    DigitsOf(k, b, m);
    DigitsBelow(k, b, q, m);
  }

  lemma Regroup(k: nat, bit: nat, h: nat, a: nat)
    ensures (2 * k + bit) * h + a == k * (2 * h) + (bit * h + a)
  {
  }

  ghost predicate PowerOfTwo(n: nat) {
    n == 1 || (n > 1 && n % 2 == 0 && PowerOfTwo(n / 2))
  }

  /** Every lane combines its value with that of the lane whose number differs in the bit worth `h`, if there is one. */
  ghost function Exchange(op: Op, v: seq<real>, h: nat): (r: seq<real>)
    requires h > 0
    ensures |r| == |v|
  {
    seq(|v|, i requires 0 <= i < |v| => Combine(op, v[i], if FlipBit(i, h) < |v| then v[FlipBit(i, h)] else Unit(op)))
  }

  /** All exchanges from the bit worth `mask` down. */
  ghost function Shuffled(op: Op, v: seq<real>, mask: nat): (r: seq<real>)
    ensures |r| == |v|
    decreases mask
  {
    if mask == 0 then v else Shuffled(op, Exchange(op, v, mask), mask / 2)
  }

  /** After the exchange worth `h`, each lane holds the fold of all lanes that agree with it below that bit. */
  lemma ExchangeHalves(op: Op, lanes: seq<real>, v: seq<real>, h: nat, q: nat)
    requires h > 0 && |v| == |lanes| == q * (2 * h) && AllFit(op, lanes)
    requires forall i | 0 <= i < |v| :: v[i] == StrideFold(op, lanes, i % (2 * h), 2 * h)
    ensures forall i | 0 <= i < |v| :: Exchange(op, v, h)[i] == StrideFold(op, lanes, i % h, h)
  {
    hide FlipBit, AllFit, Combine;
    forall i | 0 <= i < |v| ensures Exchange(op, v, h)[i] == StrideFold(op, lanes, i % h, h) {
      FlipExchanges(i, h, q);
      var a, j, m := i % h, FlipBit(i, h), 2 * h;
      assert v[i] == StrideFold(op, lanes, i % m, m) && v[j] == StrideFold(op, lanes, j % m, m);
      Halves(op, lanes, a, h);
      Laws(op, StrideFold(op, lanes, a, m), StrideFold(op, lanes, a + h, m), Unit(op));
    }
  }

  lemma EachItself(op: Op, lanes: seq<real>)
    requires AllFit(op, lanes) && |lanes| > 0
    ensures forall i | 0 <= i < |lanes| :: lanes[i] == StrideFold(op, lanes, i % |lanes|, |lanes|)
  {
    var n := |lanes|;
    forall i | 0 <= i < n ensures lanes[i] == StrideFold(op, lanes, i % n, n) {
      assert i % n == i && StrideFold(op, lanes, i + n, n) == Unit(op);
      Laws(op, lanes[i], lanes[i], lanes[i]);
    }
  }

  /** `lanes` strides of width `m`: the state of the exchange when `m` strides are left. */
  ghost predicate Exchanged(op: Op, lanes: seq<real>, v: seq<real>, m: nat, q: nat)
    requires m > 0
  {
    |v| == |lanes| == q * m && forall i | 0 <= i < |v| :: v[i] == StrideFold(op, lanes, i % m, m)
  }

  lemma ExchangedOnce(op: Op, lanes: seq<real>, v: seq<real>, h: nat, q: nat)
    requires h > 0 && AllFit(op, lanes) && Exchanged(op, lanes, v, 2 * h, q)
    ensures Exchanged(op, lanes, Exchange(op, v, h), h, q * 2)
  {
    ExchangeHalves(op, lanes, v, h, q);
    Requarter(q, h);
  }

  lemma Requarter(q: nat, h: nat)
    ensures q * (2 * h) == q * 2 * h
  {
  }

  lemma {:induction false} ShuffledFrom(op: Op, lanes: seq<real>, v: seq<real>, m: nat, q: nat)
    requires PowerOfTwo(m) && AllFit(op, lanes) && Exchanged(op, lanes, v, m, q)
    ensures forall i | 0 <= i < |v| :: Shuffled(op, v, m / 2)[i] == Fold(op, lanes)
    decreases m
  {
    if m == 1 {
      assert Shuffled(op, v, 0) == v;
    } else {
      var h := m / 2;
      assert m == 2 * h;
      hide Exchange, Exchanged;
      ExchangedOnce(op, lanes, v, h, q);
      ShuffledFrom(op, lanes, Exchange(op, v, h), h, q * 2);
    }
  }

  /** A power of two of lanes: afterwards every lane holds the fold of all lanes. */
  lemma ShuffledFolds(op: Op, lanes: seq<real>)
    requires PowerOfTwo(|lanes|) && AllFit(op, lanes)
    ensures forall i | 0 <= i < |lanes| :: Shuffled(op, lanes, |lanes| / 2)[i] == Fold(op, lanes)
  {
    EachItself(op, lanes);
    ShuffledFrom(op, lanes, lanes, |lanes|, 1);
  }

  /** One shuffle: each lane combines its value with its partner's. */
  method ShuffleOnce(op: Op, v: seq<real>, mask: nat) returns (r: seq<real>)
    requires mask > 0
    ensures r == Exchange(op, v, mask)
  {
    r := seq(|v|, i requires 0 <= i < |v| => Combine(op, v[i], if FlipBit(i, mask) < |v| then v[FlipBit(i, mask)] else Unit(op)));
  }
}
