/** Eight-bit floats: decoding, and encoding with round-to-nearest-even, for any split of the bits and any wide significand. */
module Float8 {
  import opened Results
  import opened Strides

  /** Exponent bits, mantissa bits and bias of the small format; mantissa bits and least exponent of the wide one. */
  datatype Format = Format(expBits: nat, manBits: nat, bias: nat, wideBits: nat, least: int)

  const E4M3 := Format(4, 3, 7, 23, -127)
  const E5M2 := Format(5, 2, 15, 23, -127)

  /** Zero, and with it every wide subnormal, is too small for the small format. */
  ghost predicate FormatOk(f: Format) {
    f.expBits > 0 && 0 < f.manBits < f.wideBits && f.least + f.bias < 1 - f.manBits
  }

  /** A wide float: its unbiased exponent and its mantissa without the leading one. */
  datatype Wide = Finite(negative: bool, exp: int, man: nat) | Infinite(negative: bool) | NotANumber(negative: bool)

  /** What a code stands for: `man * 2^exp`. */
  datatype Decoded = Number(negative: bool, man: nat, exp: int) | Infinity(negative: bool) | NaN

  function Pow2(n: nat): (r: nat)
    ensures r > 0
  {
    if n == 0 then 1 else 2 * Pow2(n - 1)
  }

  /** `a >> n`. */
  function RightShifted(a: nat, n: nat): (r: nat)
    ensures r == 0 <==> a < Pow2(n)
  {
    Quotient(a, Pow2(n));
    a / Pow2(n)
  }

  /** `a & ((1 << n) - 1)`. */
  function Low(a: nat, n: nat): (r: nat)
    ensures r < Pow2(n)
  {
    a % Pow2(n)
  }

  lemma Quotient(a: nat, d: nat)
    requires d > 0
    ensures a / d >= 0 && (a / d == 0 <==> a < d)
  {
  }

  lemma SmallLow(a: nat, n: nat)
    requires a < Pow2(n)
    ensures Low(a, n) == a
  {
    DigitsOf(0, a, Pow2(n));
  }

  ghost predicate WideOk(f: Format, w: Wide) {
    w.Finite? ==> w.man < Pow2(f.wideBits)
  }

  function LastExp(f: Format): int { Pow2(f.expBits) - 2 }

  /** Sign, exponent field and mantissa field. */
  function Pack(f: Format, negative: bool, exp: nat, man: nat): nat {
    (if negative then Pow2(f.expBits) else 0) * Pow2(f.manBits) + exp * Pow2(f.manBits) + man
  }

  ghost predicate IsCode(f: Format, v: nat) { v < 2 * Pow2(f.expBits) * Pow2(f.manBits) }

  // ---------------------------------------------------------------- decoding

  function SignOf(f: Format, v: nat): bool { RightShifted(v, f.manBits) >= Pow2(f.expBits) }

  function ExpOf(f: Format, v: nat): nat { Low(RightShifted(v, f.manBits), f.expBits) }

  function ManOf(f: Format, v: nat): nat { Low(v, f.manBits) }

  /** Zero and subnormals, then infinity and not-a-number, then normal numbers. */
  function Decode(f: Format, v: nat): Decoded {
    var s, exp, man := SignOf(f, v), ExpOf(f, v), ManOf(f, v);
    if exp == 0 then Number(s, man, 1 - f.bias - f.manBits)
    else if exp == Pow2(f.expBits) - 1 then (if man != 0 then NaN else Infinity(s))
    else Number(s, Pow2(f.manBits) + man, exp - f.bias - f.manBits)
  }

  // ---------------------------------------------------------------- encoding

  /** The mantissa of the normal path, rounded; it may reach `Pow2(manBits)`. */
  function Rounded(f: Format, m: nat): nat
    requires f.manBits < f.wideBits
  {
    var shift := f.wideBits - f.manBits;
    var mant := RightShifted(m, shift);
    var lsb, round, sticky := mant % 2, RightShifted(m, shift - 1) % 2, Low(m, shift - 1) != 0;
    if round == 1 && (sticky || lsb == 1) then mant + 1 else mant
  }

  /** The code; none where the original shifts by a distance that is not positive. */
  ghost function Encoded(f: Format, w: Wide): Option<nat>
    requires FormatOk(f)
  {
    match w
    case NotANumber(s) => Some(Pack(f, s, Pow2(f.expBits) - 1, 1))
    case Infinite(s) => Some(Pack(f, s, Pow2(f.expBits) - 1, 0))
    case Finite(s, e, m) =>
      var biased := e + f.bias;
      if 1 <= biased <= LastExp(f) then
        var mant := Rounded(f, m);
        if mant < Pow2(f.manBits) then Some(Pack(f, s, biased, mant)) else Some(Pack(f, s, biased + 1, 0))
      else if biased < 1 - f.manBits then Some(Pack(f, s, 0, 0))
      else
        var right := 1 - biased + f.wideBits - f.manBits;
        if right <= 0 then None
        else Some(Pack(f, s, 0, Low(RightShifted(Pow2(f.wideBits) + m + Pow2(right - 1), right), f.manBits)))
  }

  /** The encoder's steps; shifts and masks are quotients and remainders of powers of two. */
  method Encode(f: Format, w: Wide) returns (code: Option<nat>)
    requires FormatOk(f) && WideOk(f, w)
    ensures code == Encoded(f, w)
  {
    hide RightShifted, Low, Pow2;
    if w.NotANumber? || w.Infinite? {
      return Some(Pack(f, w.negative, Pow2(f.expBits) - 1, if w.NotANumber? then 1 else 0));
    }
    var e, m := w.exp, w.man;
    var biased := e + f.bias;
    if biased >= 1 && biased <= LastExp(f) {
      var shift := f.wideBits - f.manBits;
      var mant := RightShifted(m, shift);
      var lsb := mant % 2;
      var round := RightShifted(m, shift - 1) % 2;
      var sticky := Low(m, shift - 1) != 0;
      if round == 1 && (sticky || lsb == 1) {
        mant := mant + 1;
      }
      if RightShifted(mant, f.manBits) != 0 {
        mant := 0;
        biased := biased + 1;
        if biased > LastExp(f) {
          return Some(Pack(f, w.negative, Pow2(f.expBits) - 1, 0));
        }
      }
      SmallLow(if mant < Pow2(f.manBits) then mant else 0, f.manBits);
      return Some(Pack(f, w.negative, biased, Low(mant, f.manBits)));
    }
    if biased < 1 - f.manBits {
      return Some(Pack(f, w.negative, 0, 0));
    }
    var right := 1 - biased + f.wideBits - f.manBits;
    if right <= 0 {
      return None;
    }
    var rounded := RightShifted(Pow2(f.wideBits) + m + Pow2(right - 1), right);
    SmallLow(0, f.manBits);
    if rounded == 0 {
      return Some(Pack(f, w.negative, 0, 0));
    }
    return Some(Pack(f, w.negative, 0, Low(rounded, f.manBits)));
  }

  // ---------------------------------------------------------------- rounding

  /** `q` is the integer nearest to `x / d`, and the even one of two that are equally near (IEEE 754-2008, section 4.3.1). */
  ghost predicate NearestEven(x: int, d: int, q: int) {
    && -d <= 2 * (q * d - x) <= d
    && (2 * (q * d - x) == d || 2 * (q * d - x) == -d ==> q % 2 == 0)
  }

  lemma NearestUnique(x: int, d: nat, p: int, q: int)
    requires d > 0 && NearestEven(x, d, p) && NearestEven(x, d, q)
    ensures p == q
  {
    if p < q {
      Apart(x, d, p, q);
    } else if q < p {
      Apart(x, d, q, p);
    }
  }

  /** Two different integers cannot both be nearest: one of two neighbours is odd. */
  lemma Apart(x: int, d: nat, p: int, q: int)
    requires d > 0 && p < q
    ensures !(NearestEven(x, d, p) && NearestEven(x, d, q))
  {
    assert (q - p) * d >= d by { MulMonotone(1, q - p, d); }
    assert q * d - p * d == (q - p) * d;
    if q - p >= 2 {
      MulMonotone(2, q - p, d);
    }
  }

  /** The guard, sticky and last bits decide the rounding of `m` to a multiple of `2 * h`. */
  lemma GuardBits(m: nat, h: nat)
    requires h > 0
    ensures var mant := m / (2 * h);
            NearestEven(m, 2 * h, if m / h % 2 == 1 && (m % h != 0 || mant % 2 == 1) then mant + 1 else mant)
  {
    var high, rest := m / h, m % h;
    DivMod(m, h);
    var mant, bit := high / 2, high % 2;
    GuardDigits(m, mant, bit, h, rest);
    assert bit * h + rest == if bit == 0 then rest else h + rest;
    DigitsOf(mant, bit * h + rest, 2 * h);
    GuardCore(m, h, mant, bit, rest);
  }

  lemma GuardDigits(m: nat, mant: nat, bit: nat, h: nat, rest: nat)
    requires m == (2 * mant + bit) * h + rest
    ensures m == mant * (2 * h) + (bit * h + rest)
  {
  }

  lemma GuardCore(m: nat, h: nat, mant: nat, bit: nat, rest: nat)
    requires bit < 2 && rest < h && m == mant * (2 * h) + (bit * h + rest)
    ensures NearestEven(m, 2 * h, if bit == 1 && (rest != 0 || mant % 2 == 1) then mant + 1 else mant)
  {
    assert (mant + 1) * (2 * h) == mant * (2 * h) + 2 * h;
    assert bit * h == if bit == 0 then 0 else h;
  }

  lemma {:induction false} Pow2Sum(a: nat, b: nat)
    ensures Pow2(a + b) == Pow2(a) * Pow2(b)
  {
    if a > 0 {
      Pow2Sum(a - 1, b);
      assert 2 * (Pow2(a - 1) * Pow2(b)) == 2 * Pow2(a - 1) * Pow2(b);
    }
  }

  lemma Pow2Even(n: nat)
    requires n > 0
    ensures Pow2(n) == 2 * Pow2(n - 1)
  {
  }

  /** Moving by an even multiple keeps the rounding. */
  lemma NearestShift(x: int, d: nat, q: int, k: nat)
    requires NearestEven(x, d, q) && k % 2 == 0
    ensures NearestEven(k * d + x, d, k + q)
  {
    assert (k + q) * d == k * d + q * d;
  }

  /** The significand is rounded to the nearest, ties to even. */
  lemma RoundedIsNearest(f: Format, m: nat)
    requires FormatOk(f) && m < Pow2(f.wideBits)
    ensures NearestEven(Pow2(f.wideBits) + m, Pow2(f.wideBits - f.manBits), Pow2(f.manBits) + Rounded(f, m))
    ensures Rounded(f, m) <= Pow2(f.manBits)
  {
    hide Pow2, NearestEven, Rounded;
    var shift := f.wideBits - f.manBits;
    var h, d, k := Pow2(shift - 1), Pow2(shift), Pow2(f.manBits);
    Pow2Even(shift);
    Pow2Even(f.manBits);
    Pow2Sum(f.manBits, shift);
    assert d == 2 * h && k * d == Pow2(f.wideBits) && k % 2 == 0;
    GuardBits(m, h);
    RoundedBits(f, m);
    NearestShift(m, d, Rounded(f, m), k);
    MantissaBelow(m, k, d);
  }

  lemma RoundedBits(f: Format, m: nat)
    requires FormatOk(f)
    ensures var shift := f.wideBits - f.manBits; var h, mant := Pow2(shift - 1), m / Pow2(shift);
            Rounded(f, m) == (if m / h % 2 == 1 && (m % h != 0 || mant % 2 == 1) then mant + 1 else mant)
            && mant <= Rounded(f, m) <= mant + 1
  {
    hide Pow2;
  }

  lemma MantissaBelow(m: nat, k: nat, d: nat)
    requires d > 0 && m < k * d
    ensures m / d < k
  {
    DivMod(m, d);
    if m / d >= k {
      MulMonotone(k, m / d, d);
    }
  }

  // ---------------------------------------------------------------- codes

  /** Packing and taking apart. */
  lemma Unpacks(f: Format, s: bool, exp: nat, man: nat)
    requires exp < Pow2(f.expBits) && man < Pow2(f.manBits)
    ensures var v := Pack(f, s, exp, man); IsCode(f, v) && SignOf(f, v) == s && ExpOf(f, v) == exp && ManOf(f, v) == man
  {
    var a, b := Pow2(f.expBits), Pow2(f.manBits);
    var high := (if s then a else 0) + exp;
    var v := Pack(f, s, exp, man);
    hide Pow2;
    assert v == Digits(high, b, man) by {
      assert ((if s then a else 0) + exp) * b == (if s then a else 0) * b + exp * b;
    }
    DigitsOf(high, man, b);
    DigitsBelow(high, man, 2 * a, b);
    DigitsOf(if s then 1 else 0, exp, a);
  }

  /** And putting together again. */
  lemma Packs(f: Format, v: nat)
    requires IsCode(f, v)
    ensures ExpOf(f, v) < Pow2(f.expBits) && ManOf(f, v) < Pow2(f.manBits)
    ensures Pack(f, SignOf(f, v), ExpOf(f, v), ManOf(f, v)) == v
  {
    var a, b := Pow2(f.expBits), Pow2(f.manBits);
    var high := v / b;
    DivMod(v, b);
    MantissaBelow(v, 2 * a, b);
    DivMod(high, a);
    MantissaBelow(high, 2, a);
    hide Pow2;
    assert high == (if SignOf(f, v) then a else 0) + ExpOf(f, v) by {
      SignDigit(high, a);
    }
    assert ((if SignOf(f, v) then a else 0) + ExpOf(f, v)) * b == (if SignOf(f, v) then a else 0) * b + ExpOf(f, v) * b;
  }

  lemma SignDigit(high: nat, a: nat)
    requires a > 0 && high < 2 * a
    ensures high == (if high >= a then a else 0) + high % a
  {
    if high >= a {
      DigitsOf(1, high - a, a);
    } else {
      DigitsOf(0, high, a);
    }
  }

  // ---------------------------------------------------------------- the normal range

  /**
    In the normal range the code's value is the input's, rounded to the nearest with ties to even, in units of the
    last place of the input's binade; a carry goes into the exponent, and out of the last exponent into infinity.
   */
  lemma EncodesNearest(f: Format, w: Wide)
    requires FormatOk(f) && w.Finite? && WideOk(f, w) && 1 <= w.exp + f.bias <= LastExp(f)
    ensures Encoded(f, w).Some?
    ensures var d, x, unit := Decode(f, Encoded(f, w).value), Pow2(f.wideBits) + w.man, Pow2(f.wideBits - f.manBits);
            && !d.NaN? && d.negative == w.negative
            && (d.Number? ==> d.exp >= w.exp - f.manBits && NearestEven(x, unit, d.man * Pow2(d.exp - (w.exp - f.manBits))))
            && (d.Infinity? <==> w.exp + f.bias == LastExp(f) && NearestEven(x, unit, 2 * Pow2(f.manBits)))
  {
    var mant, biased, top := Rounded(f, w.man), w.exp + f.bias, Pow2(f.manBits);
    var x, unit := Pow2(f.wideBits) + w.man, Pow2(f.wideBits - f.manBits);
    RoundedIsNearest(f, w.man);
    assert Pow2(0) == 1 && Pow2(1) == 2;
    hide Rounded, NearestEven, Pow2, SignOf, ExpOf, ManOf, Pack;
    if mant < top {
      Unpacks(f, w.negative, biased, mant);
      if NearestEven(x, unit, 2 * top) {
        NearestUnique(x, unit, 2 * top, top + mant);
      }
    } else {
      Unpacks(f, w.negative, biased + 1, 0);
      assert top + mant == 2 * top;
    }
  }

  /** A decoded number of the binade of `w` or the next, in units of the last place of `w`. */
  ghost function InUnits(f: Format, w: Wide, d: Decoded): int
    requires f.manBits < f.wideBits && w.Finite? && d.Number? && d.exp >= w.exp - f.manBits
  {
    d.man * Pow2(d.exp - (w.exp - f.manBits)) * Pow2(f.wideBits - f.manBits)
  }

  /** The error is at most half of `unit`, and at most one part in `parts` of `x`. */
  ghost predicate Close(x: int, value: int, unit: int, parts: int) {
    -unit <= 2 * (value - x) <= unit && -x <= parts * (value - x) <= x
  }

  /**
    The error of a code in the normal range is at most half a unit in the last place of the code, and so at most one
    part in `2^(manBits + 1)` of the input.
   */
  lemma RelativeError(f: Format, w: Wide)
    requires FormatOk(f) && w.Finite? && WideOk(f, w) && 1 <= w.exp + f.bias <= LastExp(f)
    ensures Encoded(f, w).Some?
    ensures var d := Decode(f, Encoded(f, w).value);
            d.Number? ==>
              d.exp >= w.exp - f.manBits
              && Close(Pow2(f.wideBits) + w.man, InUnits(f, w, d), Pow2(f.wideBits - f.manBits), Pow2(f.manBits + 1))
  {
    EncodesNearest(f, w);
    var d, x, unit := Decode(f, Encoded(f, w).value), Pow2(f.wideBits) + w.man, Pow2(f.wideBits - f.manBits);
    Pow2Sum(f.manBits, f.wideBits - f.manBits);
    Pow2Even(f.manBits + 1);
    hide Pow2, Decode, Encoded, Close;
    if d.Number? {
      HalfToRelative(x, unit, Pow2(f.manBits), d.man * Pow2(d.exp - (w.exp - f.manBits)));
    }
  }

  lemma HalfToRelative(x: int, unit: int, top: nat, q: int)
    requires unit > 0 && NearestEven(x, unit, q) && top * unit <= x
    ensures Close(x, q * unit, unit, 2 * top)
  {
    var e := q * unit - x;
    MulMonotone(2 * (if e < 0 then -e else e), unit, top);
    assert 2 * top * e == 2 * e * top && (-2 * e) * top == -(2 * e * top);
  }

  // ---------------------------------------------------------------- decode, then encode

  /** The place of the leading one. */
  function Log2(n: nat): (h: nat)
    requires n > 0
    ensures Pow2(h) <= n < 2 * Pow2(h)
  {
    if n == 1 then 0 else 1 + Log2(n / 2)
  }

  lemma {:induction false} Log2Is(n: nat, h: nat)
    requires Pow2(h) <= n < 2 * Pow2(h)
    ensures Log2(n) == h
  {
    if h > 0 {
      Log2Is(n / 2, h - 1);
    }
  }

  lemma {:induction false} Pow2Grows(a: nat, b: nat)
    requires a <= b
    ensures Pow2(a) <= Pow2(b)
  {
    if a < b {
      Pow2Grows(a, b - 1);
    }
  }

  /** The wide float that holds a decoded value. */
  ghost function Widened(f: Format, d: Decoded, s: bool): Wide {
    match d
    case NaN => NotANumber(s)
    case Infinity(n) => Infinite(n)
    case Number(n, man, exp) =>
      if man == 0 then Finite(n, f.least, 0)
      else
        var h := Log2(man);
        if h > f.wideBits then NotANumber(s) else Finite(n, exp + h, (man - Pow2(h)) * Pow2(f.wideBits - h))
  }

  /** It holds the value exactly. */
  lemma WidenedExact(f: Format, d: Decoded, s: bool)
    requires d.Number? && 0 < d.man < Pow2(f.wideBits)
    ensures var w, h := Widened(f, d, s), Log2(d.man);
            && w.Finite? && w.negative == d.negative && WideOk(f, w) && h <= f.wideBits
            && Pow2(f.wideBits) + w.man == d.man * Pow2(f.wideBits - h) && w.exp - f.wideBits == d.exp - (f.wideBits - h)
  {
    var h := Log2(d.man);
    if h > f.wideBits {
      Pow2Grows(f.wideBits, h);
    }
    Pow2Sum(h, f.wideBits - h);
    var low, unit := d.man - Pow2(h), Pow2(f.wideBits - h);
    assert d.man * unit == Pow2(h) * unit + low * unit;
    MulBelow(low, Pow2(h), unit);
  }

  lemma MulBelow(a: nat, b: nat, m: nat)
    requires a < b && m > 0
    ensures a * m < b * m
  {
    MulMonotone(a + 1, b, m);
    assert (a + 1) * m == a * m + m;
  }

  /** A normal code's value, widened. */
  lemma WidenedNormal(f: Format, s: bool, exp: nat, man: nat)
    requires FormatOk(f) && 1 <= exp <= LastExp(f) && man < Pow2(f.manBits)
    ensures Widened(f, Number(s, Pow2(f.manBits) + man, exp - f.bias - f.manBits), s)
         == Finite(s, exp - f.bias, man * Pow2(f.wideBits - f.manBits))
  {
    Log2Is(Pow2(f.manBits) + man, f.manBits);
  }

  /** A multiple of the unit is not changed by rounding. */
  lemma RoundedExact(f: Format, man: nat)
    requires FormatOk(f) && man < Pow2(f.manBits)
    ensures Rounded(f, man * Pow2(f.wideBits - f.manBits)) == man
    ensures man * Pow2(f.wideBits - f.manBits) < Pow2(f.wideBits)
  {
    hide Rounded, Pow2, NearestEven;
    var unit, k := Pow2(f.wideBits - f.manBits), Pow2(f.manBits);
    var m := man * unit;
    Pow2Sum(f.manBits, f.wideBits - f.manBits);
    MulBelow(man, k, unit);
    RoundedIsNearest(f, m);
    NearestExact(k, man, unit);
    NearestUnique(Pow2(f.wideBits) + m, unit, k + man, k + Rounded(f, m));
  }

  lemma NearestExact(k: nat, man: nat, unit: nat)
    requires unit > 0
    ensures NearestEven(k * unit + man * unit, unit, k + man)
  {
    assert (k + man) * unit == k * unit + man * unit;
  }

  /** A subnormal code's value, widened, falls back to its mantissa. */
  lemma SubnormalExact(f: Format, s: bool, man: nat)
    requires FormatOk(f) && 0 < man < Pow2(f.manBits)
    ensures Encoded(f, Widened(f, Number(s, man, 1 - f.bias - f.manBits), s)) == Some(Pack(f, s, 0, man))
  {
    var d := Number(s, man, 1 - f.bias - f.manBits);
    var w, h := Widened(f, d, s), Log2(man);
    Pow2Grows(f.manBits, f.wideBits);
    WidenedExact(f, d, s);
    if h >= f.manBits {
      Pow2Grows(f.manBits, h);
    }
    var right: nat := f.wideBits - h;
    assert w.exp + f.bias == h + 1 - f.manBits && 1 - (w.exp + f.bias) + f.wideBits - f.manBits == right;
    Pow2Even(right);
    hide Pow2, Pack, Widened, Log2;
    HalfAdded(man, Pow2(right - 1));
    SmallLow(man, f.manBits);
    RightShiftedIs(man * Pow2(right) + Pow2(right - 1), right);
  }

  lemma RightShiftedIs(a: nat, n: nat)
    ensures RightShifted(a, n) == a / Pow2(n)
  {
  }

  lemma HalfAdded(man: nat, half: nat)
    requires half > 0
    ensures (man * (2 * half) + half) / (2 * half) == man
  {
    DigitsOf(man, half, 2 * half);
  }

  /** Zero, of either sign. */
  lemma ZeroExact(f: Format, s: bool)
    requires FormatOk(f)
    ensures Encoded(f, Widened(f, Number(s, 0, 1 - f.bias - f.manBits), s)) == Some(Pack(f, s, 0, 0))
  {
    hide Pack, Pow2;
  }

  /**
    The round trip: encoding the value of any code gives the code back, subnormals, both zeros and both infinities
    included; a code that is not a number gives one that is not a number, of the same sign.
   */
  lemma EncodesDecoded(f: Format, v: nat)
    requires FormatOk(f) && IsCode(f, v)
    ensures var w := Widened(f, Decode(f, v), SignOf(f, v)); WideOk(f, w) && Encoded(f, w).Some?
    ensures var c := Encoded(f, Widened(f, Decode(f, v), SignOf(f, v))).value;
            && (!Decode(f, v).NaN? ==> c == v)
            && (Decode(f, v).NaN? ==> Decode(f, c).NaN? && SignOf(f, c) == SignOf(f, v))
  {
    var s, exp, man := SignOf(f, v), ExpOf(f, v), ManOf(f, v);
    Packs(f, v);
    var d := Decode(f, v);
    var last := Pow2(f.expBits) - 1;
    Pow2Even(f.expBits);
    Pow2Even(f.manBits);
    hide SignOf, ExpOf, ManOf, Pack, Rounded, Pow2, Log2;
    if exp == last && man != 0 {
      Unpacks(f, s, last, 1);
    } else if exp == last {
    } else if exp > 0 {
      WidenedNormal(f, s, exp, man);
      RoundedExact(f, man);
    } else if man > 0 {
      Pow2Grows(f.manBits, f.wideBits);
      WidenedExact(f, d, s);
      SubnormalExact(f, s, man);
    } else {
      ZeroExact(f, s);
    }
  }

  // ---------------------------------------------------------------- outside the normal range

  /** `q` is a nearest integer to `x / d`, either one of two. */
  ghost predicate Nearest(x: int, d: int, q: int) {
    -d <= 2 * (q * d - x) <= d
  }

  /** The distance by which a number below the normal range is shifted, and the unit of the least subnormal it is counted in. */
  ghost function Right(f: Format, w: Wide): nat
    requires FormatOk(f) && w.Finite? && w.exp + f.bias <= 0
  {
    1 - (w.exp + f.bias) + f.wideBits - f.manBits
  }

  /** The last half unit below the least normal number: the sum carries, and the carry is cut off. */
  ghost predicate CarriesOut(f: Format, w: Wide)
    requires FormatOk(f) && w.Finite?
  {
    w.exp + f.bias == 0 && w.man + Pow2(f.wideBits - f.manBits) >= Pow2(f.wideBits)
  }

  /** Above half the least subnormal, but in a binade that is taken to be too small. */
  ghost predicate CutOff(f: Format, w: Wide)
    requires FormatOk(f) && w.Finite?
  {
    w.exp + f.bias + f.manBits == 0 && w.man > 0
  }

  /** Halfway between an even subnormal and the next: half a unit more is the odd one. */
  ghost predicate TiesUp(f: Format, w: Wide)
    requires FormatOk(f) && w.Finite?
  {
    && 1 - f.manBits <= w.exp + f.bias <= 0
    && (var x, unit := Pow2(f.wideBits) + w.man, Pow2(Right(f, w)); 2 * (x % unit) == unit && x / unit % 2 == 0)
  }

  /**
    Below the normal range the code is a nearest one unless the carry is cut off or the whole binade is, and then
    it is zero. Of two nearest codes it is the even one unless the sum with half a unit reaches an odd one.
   */
  lemma SubnormalNearest(f: Format, w: Wide)
    requires FormatOk(f) && w.Finite? && WideOk(f, w) && w.exp + f.bias <= 0
    ensures Encoded(f, w).Some?
    ensures var d, x, unit := Decode(f, Encoded(f, w).value), Pow2(f.wideBits) + w.man, Pow2(Right(f, w));
            && d.Number? && d.negative == w.negative && d.exp == 1 - f.bias - f.manBits
            && (Nearest(x, unit, d.man) <==> !CarriesOut(f, w) && !CutOff(f, w))
            && (NearestEven(x, unit, d.man) <==> !CarriesOut(f, w) && !CutOff(f, w) && !TiesUp(f, w))
            && (CarriesOut(f, w) || CutOff(f, w) ==> d.man == 0)
  {
    if w.exp + f.bias < 1 - f.manBits {
      TooSmall(f, w);
    } else {
      Gradual(f, w);
    }
  }

  /** Zero is nearest below the half of the least subnormal, and at it. */
  lemma TooSmall(f: Format, w: Wide)
    requires FormatOk(f) && w.Finite? && WideOk(f, w) && w.exp + f.bias < 1 - f.manBits
    ensures Encoded(f, w) == Some(Pack(f, w.negative, 0, 0))
    ensures Decode(f, Pack(f, w.negative, 0, 0)) == Number(w.negative, 0, 1 - f.bias - f.manBits)
    ensures var x, unit := Pow2(f.wideBits) + w.man, Pow2(Right(f, w));
            (Nearest(x, unit, 0) <==> !CutOff(f, w)) && (NearestEven(x, unit, 0) <==> Nearest(x, unit, 0))
  {
    var right := Right(f, w);
    Pow2Even(f.wideBits + 1);
    if w.exp + f.bias + f.manBits == 0 {
      assert right == f.wideBits + 1;
    } else {
      Pow2Even(f.wideBits + 2);
      Pow2Grows(f.wideBits + 2, right);
    }
    hide Pow2, Pack, SignOf, ExpOf, ManOf;
    PowPositive(f);
    Unpacks(f, w.negative, 0, 0);
  }

  lemma PowPositive(f: Format)
    ensures Pow2(f.expBits) > 0 && Pow2(f.manBits) > 0
  {
  }

  lemma Gradual(f: Format, w: Wide)
    requires FormatOk(f) && w.Finite? && WideOk(f, w) && 1 - f.manBits <= w.exp + f.bias <= 0
    ensures Encoded(f, w).Some?
    ensures var d, x, unit := Decode(f, Encoded(f, w).value), Pow2(f.wideBits) + w.man, Pow2(Right(f, w));
            && d.Number? && d.negative == w.negative && d.exp == 1 - f.bias - f.manBits
            && (Nearest(x, unit, d.man) <==> !CarriesOut(f, w))
            && (NearestEven(x, unit, d.man) <==> !CarriesOut(f, w) && !TiesUp(f, w))
            && (CarriesOut(f, w) ==> d.man == 0)
  {
    var right := Right(f, w);
    var x, half, top := Pow2(f.wideBits) + w.man, Pow2(right - 1), Pow2(f.manBits);
    var q := RightShifted(x + half, right);
    RightShiftedIs(x + half, right);
    Pow2Even(right);
    Pow2Grows(f.wideBits + 1, f.manBits + right);
    Pow2Sum(f.manBits, right);
    assert Pow2(f.wideBits + 1) == 2 * Pow2(f.wideBits);
    Pow2Even(f.manBits);
    CarryPlace(f, w);
    hide Pow2, Pack, SignOf, ExpOf, ManOf, RightShifted, NearestEven;
    HalfUp(x, half, q, top);
    HalfUpEven(x, half, q);
    Unpacks(f, w.negative, 0, Low(q, f.manBits));
    if q < top {
      SmallLow(q, f.manBits);
    } else {
      FullLow(f.manBits);
      EvenIsNear(x, 2 * half, 0);
    }
  }

  lemma EvenIsNear(x: int, d: int, q: int)
    ensures NearestEven(x, d, q) ==> Nearest(x, d, q)
  {
  }

  /** Where the sum reaches the least normal number: in the last binade below it only. */
  lemma CarryPlace(f: Format, w: Wide)
    requires FormatOk(f) && w.Finite? && WideOk(f, w) && 1 - f.manBits <= w.exp + f.bias <= 0
    ensures var right := Right(f, w);
            right > 0 && (CarriesOut(f, w) <==> Pow2(f.wideBits) + w.man + Pow2(right - 1) >= Pow2(f.manBits) * Pow2(right))
  {
    var right := Right(f, w);
    Pow2Sum(f.manBits, right);
    Pow2Even(f.wideBits + 1);
    Pow2Even(right);
    if w.exp + f.bias == 0 {
      assert right - 1 == f.wideBits - f.manBits && f.manBits + right == f.wideBits + 1;
    } else {
      Pow2Grows(f.wideBits + 2, f.manBits + right);
      Pow2Even(f.wideBits + 2);
      Pow2Grows(right - 1, f.manBits + right - 2);
      Pow2Even(f.manBits + right);
      Pow2Even(f.manBits + right - 1);
    }
  }

  /** Half a unit more, truncated: the even one of two nearest unless the tie is above an even one. */
  lemma HalfUpEven(x: nat, half: nat, q: nat)
    requires half > 0 && q == (x + half) / (2 * half)
    ensures var d := 2 * half; NearestEven(x, d, q) <==> !(2 * (x % d) == d && x / d % 2 == 0)
  {
    var d := 2 * half;
    var high, rest := x / d, x % d;
    DivMod(x, d);
    if rest < half {
      DigitsOf(high, rest + half, d);
    } else {
      assert x + half == (high + 1) * d + (rest - half);
      DigitsOf(high + 1, rest - half, d);
    }
    HalfUpEvenCore(x, half, high, high * d, rest, q, q * d);
  }

  lemma HalfUpEvenCore(x: nat, half: nat, high: nat, product: nat, rest: nat, q: nat, next: nat)
    requires half > 0 && x == product + rest && rest < 2 * half && next == q * (2 * half)
    requires if rest < half then q == high && next == product else q == high + 1 && next == product + 2 * half
    ensures NearestEven(x, 2 * half, q) <==> !(rest == half && high % 2 == 0)
  {
  }

  lemma FullLow(n: nat)
    ensures Low(Pow2(n), n) == 0
  {
    DigitsOf(1, 0, Pow2(n));
  }

  /** Adding half a unit and truncating rounds to a nearest; below the top it can only just reach it. */
  lemma HalfUp(x: nat, half: nat, q: nat, top: nat)
    requires half > 0 && top > 1 && q == (x + half) / (2 * half) && x < top * (2 * half)
    ensures Nearest(x, 2 * half, q) && q <= top
    ensures q < top <==> x + half < top * (2 * half)
    ensures q == top ==> !Nearest(x, 2 * half, 0)
  {
    var d := 2 * half;
    DivMod(x + half, d);
    MulMonotone(2, top, d);
    if q < top {
      NextMultiple(q, top, d);
    } else if top < q {
      NextMultiple(top, q, d);
    }
    HalfUpCore(x, half, q * d, top * d, (x + half) % d, q, top);
  }

  lemma NextMultiple(a: nat, b: nat, d: nat)
    requires a < b
    ensures a * d + d <= b * d
  {
    MulMonotone(a + 1, b, d);
    assert (a + 1) * d == a * d + d;
  }

  lemma HalfUpCore(x: nat, half: nat, product: nat, limit: nat, rest: nat, q: nat, top: nat)
    requires x + half == product + rest && rest < 2 * half && x < limit && limit >= 4 * half
    requires q < top ==> product + 2 * half <= limit
    requires q > top ==> limit + 2 * half <= product
    requires q == top ==> product == limit
    ensures -2 * half <= 2 * (product - x) <= 2 * half && q <= top
    ensures q < top <==> x + half < limit
    ensures q == top ==> x > half
  {
  }

  /** Above the normal range nothing saturates: whatever is finite and too large becomes a subnormal or zero, or is undefined. */
  lemma OverflowNeverInfinite(f: Format, w: Wide)
    requires FormatOk(f) && w.Finite? && WideOk(f, w) && w.exp + f.bias > LastExp(f) >= 0
    ensures Encoded(f, w).None? <==> w.exp + f.bias > f.wideBits - f.manBits
    ensures Encoded(f, w).Some? ==> Decode(f, Encoded(f, w).value).Number? && Decode(f, Encoded(f, w).value).man < Pow2(f.manBits)
  {
    var right := 1 - (w.exp + f.bias) + f.wideBits - f.manBits;
    hide Pow2, Pack, SignOf, ExpOf, ManOf, RightShifted, Low;
    if right > 0 {
      Unpacks(f, w.negative, 0, Low(RightShifted(Pow2(f.wideBits) + w.man + Pow2(right - 1), right), f.manBits));
    }
  }

  // ---------------------------------------------------------------- the two formats

  /** Powers of two that the formats below need. */
  lemma Powers()
    ensures Pow2(2) == 4 && Pow2(3) == 8 && Pow2(4) == 0x10 && Pow2(5) == 0x20 && Pow2(6) == 0x40
    ensures Pow2(20) == 0x10_0000 && Pow2(21) == 0x20_0000 && Pow2(23) == 0x80_0000
  {
    assert Pow2(2) == 4 && Pow2(4) == 0x10 && Pow2(6) == 0x40;
    Pow2Sum(6, 6);
    Pow2Sum(12, 6);
    Pow2Sum(18, 2);
    Pow2Sum(20, 1);
    Pow2Sum(21, 2);
  }

  /** Both formats are of the kind that the results above are about. */
  lemma BothFormats()
    ensures FormatOk(E4M3) && FormatOk(E5M2) && LastExp(E4M3) == 14 && LastExp(E5M2) == 30
  {
    Powers();
    hide Pow2;
  }

  /** The codes of 1 and of infinity in E5M2: 01111 is the bias and 11111 the last exponent field; 1 decodes to 4 * 2^-2. */
  lemma OneInE5M2()
    ensures FormatOk(E5M2) && Encoded(E5M2, Finite(false, 0, 0)) == Some(0x3C) && Decode(E5M2, 0x3C) == Number(false, 4, -2)
    ensures Encoded(E5M2, Infinite(false)) == Some(0x7C) && Decode(E5M2, 0x7C) == Infinity(false)
  {
    BothFormats();
    Powers();
    hide Pow2, Rounded;
    NoMantissa(E5M2);
    Unpacks(E5M2, false, 15, 0);
    Unpacks(E5M2, false, 31, 0);
  }

  /** And in E4M3, where 1 is 8 * 2^-3. */
  lemma OneInE4M3()
    ensures FormatOk(E4M3) && Encoded(E4M3, Finite(false, 0, 0)) == Some(0x38) && Decode(E4M3, 0x38) == Number(false, 8, -3)
    ensures Encoded(E4M3, Infinite(false)) == Some(0x78) && Decode(E4M3, 0x78) == Infinity(false)
  {
    BothFormats();
    Powers();
    hide Pow2, Rounded;
    NoMantissa(E4M3);
    Unpacks(E4M3, false, 7, 0);
    Unpacks(E4M3, false, 15, 0);
  }

  /** No mantissa needs no rounding. */
  lemma NoMantissa(f: Format)
    requires FormatOk(f)
    ensures Rounded(f, 0) == 0
  {
    RoundedExact(f, 0);
  }

  /** 256 is one binade above the largest E4M3 number, 240; its code is that of zero. */
  lemma OverflowToZero()
    ensures FormatOk(E4M3) && var w := Finite(false, 8, 0);
            WideOk(E4M3, w) && w.exp + E4M3.bias == LastExp(E4M3) + 1 && Encoded(E4M3, w) == Some(0)
    ensures Decode(E4M3, 0) == Number(false, 0, -9)
  {
    BothFormats();
    Powers();
    hide Pow2;
    assert RightShifted(0x80_0000 + 0x20, 6) == 0x2_0000 && Low(0x2_0000, 3) == 0;
    ZeroCode();
  }

  /** In E5M2 every finite number above the last binade is shifted by a distance that is not positive. */
  lemma OverflowUndefined(w: Wide)
    requires w.Finite? && WideOk(E5M2, w) && w.exp + E5M2.bias > LastExp(E5M2)
    ensures FormatOk(E5M2) && Encoded(E5M2, w) == None
  {
    BothFormats();
    hide Pow2;
    OverflowNeverInfinite(E5M2, w);
  }

  /** Just below 2^-9, the least E4M3 subnormal, whose code is 1: the nearest one, but the code is that of zero. */
  lemma LeastToZero()
    ensures FormatOk(E4M3) && var w := Finite(false, -10, 0x7F_FFFF);
            && WideOk(E4M3, w) && CutOff(E4M3, w) && Encoded(E4M3, w) == Some(0)
            && Nearest(Pow2(23) + w.man, Pow2(24), 1) && !Nearest(Pow2(23) + w.man, Pow2(24), 0)
    ensures Decode(E4M3, 1) == Number(false, 1, -9)
  {
    BothFormats();
    Powers();
    Pow2Even(24);
    hide Pow2;
    ZeroCode();
    Unpacks(E4M3, false, 0, 1);
  }

  /** Two and a half units of the least E4M3 subnormal: the even code is 2, but the code is 3. */
  lemma TieToOdd()
    ensures FormatOk(E4M3) && var w := Finite(false, -8, 0x20_0000);
            && WideOk(E4M3, w) && TiesUp(E4M3, w) && Encoded(E4M3, w) == Some(3)
            && NearestEven(Pow2(23) + w.man, Pow2(22), 2) && !NearestEven(Pow2(23) + w.man, Pow2(22), 3)
    ensures Decode(E4M3, 3) == Number(false, 3, -9)
  {
    BothFormats();
    Powers();
    Pow2Even(22);
    hide Pow2;
    assert RightShifted(0x80_0000 + 0x20_0000 + 0x20_0000, 22) == 3 && Low(3, 3) == 3;
    Unpacks(E4M3, false, 0, 3);
  }

  /** The largest number below the least normal E4M3 number, 2^-6, is nearest to that number, but its code is that of zero. */
  lemma SubnormalToZero()
    ensures FormatOk(E4M3) && var w := Finite(false, -7, 0x7F_FFFF);
            && WideOk(E4M3, w) && Encoded(E4M3, w) == Some(0)
            && Nearest(Pow2(23) + w.man, Pow2(21), Pow2(3)) && !Nearest(Pow2(23) + w.man, Pow2(21), 0)
    ensures Decode(E4M3, 8) == Number(false, 8, -9)
  {
    BothFormats();
    Powers();
    hide Pow2;
    assert RightShifted(0x80_0000 + 0x7F_FFFF + 0x10_0000, 21) == 8 && Low(8, 3) == 0;
    ZeroCode();
    Unpacks(E4M3, false, 1, 0);
  }

  lemma ZeroCode()
    ensures Pack(E4M3, false, 0, 0) == 0 && Decode(E4M3, 0) == Number(false, 0, -9)
  {
    Powers();
    hide Pow2;
    Unpacks(E4M3, false, 0, 0);
  }
}
