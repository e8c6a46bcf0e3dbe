/** Strided loops: which elements thread `i` of `step` threads visits, and that each is visited once. */
module Strides {
  /** How many turns `for (e = i; e < n; e += step)` takes. */
  ghost function Turns(i: nat, n: nat, step: nat): nat
    requires step > 0
    decreases if i < n then n - i else 0
  {
    if i < n then 1 + Turns(i + step, n, step) else 0
  }

  /** The element visited on turn `k`. */
  ghost function Visit(i: nat, k: nat, step: nat): nat {
    i + k * step
  }

  lemma VisitNext(i: nat, k: nat, step: nat)
    ensures Visit(i, k + 1, step) == Visit(i, k, step) + step && Visit(i, 0, step) == i
  {
  }

  lemma {:induction false} TurnsBound(i: nat, n: nat, step: nat, k: nat)
    requires step > 0
    ensures k < Turns(i, n, step) <==> Visit(i, k, step) < n
    decreases if i < n then n - i else 0
  {
    if i >= n {
      assert k * step >= 0;
    } else if k > 0 {
      TurnsBound(i + step, n, step, k - 1);
      assert i + step + (k - 1) * step == i + k * step;
    }
  }

  /** Element `e` is visited by thread `e % step`, on turn `e / step`. */
  lemma VisitedBy(e: nat, n: nat, step: nat)
    requires step > 0 && e < n
    ensures e % step < step && e / step < Turns(e % step, n, step) && Visit(e % step, e / step, step) == e
  {
    DivMod(e, step);
    TurnsBound(e % step, n, step, e / step);
  }

  /** Two turns that visit the same element are the same turn of the same thread. */
  lemma VisitedOnce(i: nat, k: nat, j: nat, l: nat, step: nat)
    requires i < step && j < step && Visit(i, k, step) == Visit(j, l, step)
    ensures i == j && k == l
  {
    UniqueDigits(k, i, l, j, step);
  }

  lemma DivMod(e: nat, m: nat)
    requires m > 0
    ensures e == e / m * m + e % m && e % m < m
  {
  }

  /** `high` and then `low`, in base `m`. */
  ghost function Digits(high: nat, m: nat, low: nat): nat { high * m + low }

  /** A number has one quotient and one remainder. */
  lemma UniqueDigits(a: nat, b: nat, c: nat, d: nat, m: nat)
    requires b < m && d < m && Digits(a, m, b) == Digits(c, m, d)
    ensures a == c && b == d
  {
    if a < c {
      assert (c - a) * m >= m by { MulMonotone(1, c - a, m); }
      assert false;
    } else if c < a {
      assert (a - c) * m >= m by { MulMonotone(1, a - c, m); }
      assert false;
    }
  }

  lemma MulMonotone(a: nat, b: nat, m: nat)
    requires a <= b
    ensures a * m <= b * m
  {
  }

  /** A number below `a * m + b` digits: `x < a` and `y < m` put `x * m + y` below `a * m`. */
  lemma DigitsBelow(x: nat, y: nat, a: nat, m: nat)
    requires x < a && y < m
    ensures Digits(x, m, y) < a * m
  {
    MulMonotone(x + 1, a, m);
    assert (x + 1) * m == x * m + m;
  }

  /** Dividing digits back out. */
  lemma DigitsOf(x: nat, y: nat, m: nat)
    requires y < m
    ensures (x * m + y) / m == x && (x * m + y) % m == y
  {
    DivMod(x * m + y, m);
    UniqueDigits((x * m + y) / m, (x * m + y) % m, x, y, m);
  }

  // ---------------------------------------------------------------- thread groups

  /** The group of thread `u`, and its place within the group, counting through groups of `threads`. */
  ghost function GroupOf(u: nat, threads: nat): nat
    requires threads > 0
  {
    u / threads
  }

  ghost function TidOf(u: nat, threads: nat): (r: nat)
    requires threads > 0
    ensures r < threads
  {
    u % threads
  }

  lemma SameThread(t: nat, u: nat, threads: nat)
    requires threads > 0 && GroupOf(t, threads) == GroupOf(u, threads) && TidOf(t, threads) == TidOf(u, threads)
    ensures t == u
  {
    DivMod(t, threads);
    DivMod(u, threads);
  }

  lemma GroupBelow(u: nat, groups: nat, threads: nat)
    requires threads > 0 && u < groups * threads
    ensures GroupOf(u, threads) < groups
  {
    DivMod(u, threads);
    if u / threads >= groups {
      MulMonotone(groups, u / threads, threads);
    }
  }

  /** The thread at place `tid` of a group. */
  lemma ThreadAt(group: nat, tid: nat, groups: nat, threads: nat)
    requires group < groups && tid < threads
    ensures Digits(group, threads, tid) < groups * threads
    ensures GroupOf(Digits(group, threads, tid), threads) == group && TidOf(Digits(group, threads, tid), threads) == tid
  {
    DigitsBelow(group, tid, groups, threads);
    DigitsOf(group, tid, threads);
  }
}
