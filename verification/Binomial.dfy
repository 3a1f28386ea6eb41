/**
 Binomial coefficients, the partial sums of their rows, and the probability that a sequence
 of independent rounds is won at least k times.  Everything the exact paired test relies on.
 */
module Binomial {

  /** math.comb(n, k), by Pascal's rule; 0 outside the row. */
  function Choose(n: nat, k: int): nat {
    if n == 0 then (if k == 0 then 1 else 0)
    else Choose(n - 1, k - 1) + Choose(n - 1, k)
  }

  /** Choose(n, 0) + ... + Choose(n, k). */
  function RowSum(n: nat, k: int): nat
    decreases if k < 0 then 0 else k + 1
  {
    if k < 0 then 0 else RowSum(n, k - 1) + Choose(n, k)
  }

  function Pow2(n: nat): (p: nat)
    ensures p > 0
  {
    if n == 0 then 1 else 2 * Pow2(n - 1)
  }

  /** 0.5 ** n */
  function HalfPow(n: nat): real {
    if n == 0 then 1.0 else 0.5 * HalfPow(n - 1)
  }

  function Factorial(n: nat): nat {
    if n == 0 then 1 else n * Factorial(n - 1)
  }

  lemma {:induction false} ChooseOutsideRow(n: nat, k: int)
    requires k < 0 || n < k
    ensures Choose(n, k) == 0
  {
    if n > 0 {
      ChooseOutsideRow(n - 1, k - 1);
      ChooseOutsideRow(n - 1, k);
    }
  }

  lemma {:induction false} ChooseEnds(n: nat)
    ensures Choose(n, 0) == 1 && Choose(n, n) == 1
  {
    if n > 0 {
      ChooseEnds(n - 1);
      ChooseOutsideRow(n - 1, -1);
      ChooseOutsideRow(n - 1, n);
    }
  }

  /** Pascal's triangle holds the factorial quotients (k + m)! / (k! m!). */
  lemma {:induction false} ChooseIsFactorialQuotient(k: nat, m: nat)
    ensures Choose(k + m, k) * Factorial(k) * Factorial(m) == Factorial(k + m)
    decreases k + m
  {
    ChooseEnds(k + m);
    if k > 0 && m > 0 {
      ChooseIsFactorialQuotient(k - 1, m);
      ChooseIsFactorialQuotient(k, m - 1);
      PascalStep(Choose(k + m - 1, k - 1), Choose(k + m - 1, k), k, m,
                 Factorial(k - 1), Factorial(m - 1), Factorial(k + m - 1), Factorial(k), Factorial(m));
    }
  }

  /** The arithmetic of one Pascal step: x and y are the quotients above, a = k! and b = m! with k + m = n. */
  lemma PascalStep(x: nat, y: nat, k: nat, m: nat, fk: nat, fm: nat, f: nat, a: nat, b: nat)
    requires a == k * fk && b == m * fm
    requires x * fk * b == f && y * a * fm == f
    ensures (x + y) * a * b == (k + m) * f
  {
    assert x * a * b == k * f by {
      assert x * a == k * (x * fk);
      MulAssoc(k, x * fk, b);
    }
    assert y * a * b == m * f by {
      MulAssoc(y * a, m, fm);
      MulAssoc(m, y * a, fm);
    }
    Distribute(x, y, a);
    Distribute(x * a, y * a, b);
  }

  lemma MulAssoc(a: int, b: int, c: int)
    ensures a * b * c == a * (b * c)
  {
  }

  lemma Distribute(a: int, b: int, c: int)
    ensures (a + b) * c == a * c + b * c
  {
  }

  lemma {:induction false} ChoosePositive(n: nat, k: nat)
    requires k <= n
    ensures Choose(n, k) > 0
  {
    if n > 0 {
      if k > 0 { ChoosePositive(n - 1, k - 1); } else { ChoosePositive(n - 1, k); }
    }
  }

  lemma {:induction false} RowSumPascal(n: nat, k: int)
    requires n > 0
    ensures RowSum(n, k) == RowSum(n - 1, k) + RowSum(n - 1, k - 1)
    decreases if k < 0 then 0 else k + 1
  {
    if k >= 0 {
      RowSumPascal(n, k - 1);
    }
    if k == 0 {
      ChooseOutsideRow(n - 1, -1);
    }
  }

  lemma {:induction false} RowSumMonotone(n: nat, j: int, k: int)
    requires j <= k
    ensures RowSum(n, j) <= RowSum(n, k)
    decreases k - j
  {
    if j < k { RowSumMonotone(n, j, k - 1); }
  }

  /** The two tails that meet at k partition the whole row. */
  lemma {:induction false} RowSumComplement(n: nat, k: int)
    ensures RowSum(n, k) + RowSum(n, n - 1 - k) == Pow2(n)
  {
    if n == 0 {
      RowSumOfZero(k);
      RowSumOfZero(-1 - k);
    } else {
      RowSumPascal(n, k);
      RowSumPascal(n, n - 1 - k);
      RowSumComplement(n - 1, k);
      RowSumComplement(n - 1, k - 1);
    }
  }

  lemma {:induction false} RowSumOfZero(k: int)
    ensures RowSum(0, k) == if k < 0 then 0 else 1
    decreases if k < 0 then 0 else k + 1
  {
    if k >= 0 { RowSumOfZero(k - 1); }
  }

  lemma {:induction false} HalfPowIsInverse(n: nat)
    ensures HalfPow(n) * Pow2(n) as real == 1.0
    ensures HalfPow(n) > 0.0
  {
    if n > 0 { HalfPowIsInverse(n - 1); }
  }

  lemma {:induction false} HalfPowIsAShare(n: nat)
    ensures 0.0 < HalfPow(n) <= 1.0
  {
    if n > 0 { HalfPowIsAShare(n - 1); }
  }

  // ---------------------------------------------------------------------------
  // Independent rounds
  // ---------------------------------------------------------------------------

  /** The mean of x and y when x has weight q. */
  ghost function Blend(q: real, x: real, y: real): real {
    q * x + (1.0 - q) * y
  }

  /** Probability of winning at least k of n independent rounds, each won with probability q. */
  ghost function Tail(n: nat, k: int, q: real): real {
    if n == 0 then (if k <= 0 then 1.0 else 0.0)
    else Blend(q, Tail(n - 1, k - 1, q), Tail(n - 1, k, q))
  }

  lemma {:induction false} TailAntitone(n: nat, k: int, q: real)
    requires 0.0 <= q <= 1.0
    ensures Tail(n, k, q) <= Tail(n, k - 1, q)
  {
    if n > 0 {
      TailAntitone(n - 1, k - 1, q);
      TailAntitone(n - 1, k, q);
      Mix(q, Tail(n - 1, k - 1, q), Tail(n - 1, k, q), Tail(n - 1, k - 2, q), Tail(n - 1, k - 1, q));
    }
  }

  /** A convex combination is monotone in what it combines. */
  lemma Mix(q: real, x: real, y: real, x': real, y': real)
    requires 0.0 <= q <= 1.0 && x <= x' && y <= y'
    ensures Blend(q, x, y) <= Blend(q, x', y')
  {
    NonNegativeProduct(q, x' - x);
    NonNegativeProduct(1.0 - q, y' - y);
  }

  lemma BlendMonotone(q: real, r: real, x: real, y: real)
    requires q <= r && y <= x
    ensures Blend(q, x, y) <= Blend(r, x, y)
  {
    NonNegativeProduct(r - q, x - y);
    assert Blend(q, x, y) + (r - q) * (x - y) == Blend(r, x, y);
  }

  lemma NonNegativeProduct(x: real, y: real)
    requires 0.0 <= x && 0.0 <= y
    ensures 0.0 <= x * y
  {
  }

  /** A better player is more likely to win at least k rounds. */
  lemma {:induction false} TailMonotone(n: nat, k: int, q: real, r: real)
    requires 0.0 <= q <= r <= 1.0
    ensures Tail(n, k, q) <= Tail(n, k, r)
  {
    if n > 0 {
      TailMonotone(n - 1, k - 1, q, r);
      TailMonotone(n - 1, k, q, r);
      var win, lose := Tail(n - 1, k - 1, r), Tail(n - 1, k, r);
      Mix(q, Tail(n - 1, k - 1, q), Tail(n - 1, k, q), win, lose);
      TailAntitone(n - 1, k, r);
      BlendMonotone(q, r, win, lose);
    }
  }

  /** The probability of an event that holds in x of the 2 ** n equally likely games. */
  function FairShare(x: nat, n: nat): real {
    x as real * HalfPow(n)
  }

  lemma FairShareIsQuotient(x: nat, n: nat)
    ensures x as real / Pow2(n) as real == FairShare(x, n)
  {
    HalfPowIsInverse(n);
    Quotient(x as real, Pow2(n) as real, HalfPow(n));
  }

  lemma Quotient(x: real, y: real, h: real)
    requires h * y == 1.0 && y != 0.0
    ensures x / y == x * h
  {
    assert (x * h) * y == x * (h * y);
  }

  lemma FairShareAdds(x: nat, y: nat, n: nat)
    ensures FairShare(x + y, n) == FairShare(x, n) + FairShare(y, n)
  {
    var xr, yr, h := x as real, y as real, HalfPow(n);
    assert (x + y) as real == xr + yr;
    assert (xr + yr) * h == xr * h + yr * h;
  }

  lemma FairShareAgainstHalf(x: nat, n: nat)
    ensures 1.0 <= 2.0 * FairShare(x, n) <==> Pow2(n) <= 2 * x
    ensures 0 < x ==> 0.0 < FairShare(x, n)
  {
    HalfPowIsInverse(n);
    Halves(x as real, Pow2(n) as real, HalfPow(n));
  }

  lemma Halves(x: real, p: real, h: real)
    requires h * p == 1.0 && 0.0 < h
    ensures 1.0 <= 2.0 * (x * h) <==> p <= 2.0 * x
    ensures 0.0 < x ==> 0.0 < x * h
  {
    var excess := 2.0 * x - p;
    assert excess * h == 2.0 * (x * h) - 1.0;
    if 0.0 <= excess { PositiveProduct(excess, h); }
    if excess < 0.0 {
      PositiveProduct(-excess, h);
      assert 2.0 * (x * h) - 1.0 < 0.0;
    }
    if 0.0 < x { PositiveProduct(x, h); }
  }

  lemma PositiveProduct(x: real, y: real)
    requires 0.0 <= x && 0.0 < y
    ensures 0.0 <= x * y && (0.0 < x ==> 0.0 < x * y)
  {
  }

  lemma FairShareSplits(x: nat, y: nat, n: nat)
    ensures Blend(0.5, FairShare(x, n), FairShare(y, n)) == FairShare(x + y, n + 1)
  {
    var xr, yr, h := x as real, y as real, HalfPow(n);
    assert (x + y) as real == xr + yr;
    assert (xr + yr) * (0.5 * h) == 0.5 * (xr * h) + 0.5 * (yr * h);
  }

  lemma FairShareMonotone(x: nat, y: nat, n: nat)
    requires x <= y
    ensures FairShare(x, n) <= FairShare(y, n)
  {
    HalfPowIsInverse(n);
    NonNegativeProduct(y as real - x as real, HalfPow(n));
  }

  /** Against a fair coin the tail is a binomial row sum over 2 ** n. */
  lemma {:induction false} FairTail(n: nat, k: int, j: int)
    requires j == n - k
    ensures Tail(n, k, 0.5) == FairShare(RowSum(n, j), n)
  {
    if n == 0 {
      RowSumOfZero(j);
    } else {
      FairTail(n - 1, k - 1, j);
      FairTail(n - 1, k, j - 1);
      RowSumPascal(n, j);
      FairShareSplits(RowSum(n - 1, j), RowSum(n - 1, j - 1), n - 1);
    }
  }
}
