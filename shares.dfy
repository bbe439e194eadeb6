/** Amounts counted in equal shares: `Times(r, k)` is `k` shares of `r`
    written as repeated addition, which keeps sums of prorated charges
    linear, and `TimesIsProduct` ties it back to multiplication. */
module Shares {
  /** `f(1) + ... + f(n)`. */
  function SumReal(f: int -> real, n: int): real
    decreases n
  {
    if n <= 0 then 0.0 else SumReal(f, n - 1) + f(n)
  }

  /** `k` shares of `r`, by repeated addition, so that sums of such
      amounts stay linear. */
  function Times(r: real, k: int): real
    decreases k
  {
    if k <= 0 then 0.0 else Times(r, k - 1) + r
  }

  lemma {:induction false} TimesIsProduct(r: real, k: int)
    requires 0 <= k
    ensures Times(r, k) == r * k as real
  {
    if k > 0 {
      TimesIsProduct(r, k - 1);
    }
  }

  lemma {:induction false} TimesAdd(r: real, a: int, b: int)
    requires 0 <= a && 0 <= b
    ensures Times(r, a) + Times(r, b) == Times(r, a + b)
  {
    if b > 0 {
      TimesAdd(r, a, b - 1);
    }
  }

  /** `n = a + b` shares are `a` shares and then `b` more. */
  lemma TimesSplit(r: real, n: int, a: int, b: int)
    requires 0 <= a && 0 <= b && n == a + b
    ensures Times(r, n) == Times(r, a) + Times(r, b)
  {
    TimesAdd(r, a, b);
  }

  lemma ProductAsShares(x: real, r: real, k: int)
    requires 0 <= k && x == r * k as real
    ensures x == Times(r, k)
  {
    TimesIsProduct(r, k);
  }

  /** Equal amounts at the same rate cost the same. */
  lemma EqualTimes(a: real, b: real, rate: real)
    requires a == b
    ensures a * rate == b * rate
  {
  }

  /** A running cost that adds `b` at `rate` to `a` at `rate` is `a + b`
      at that rate. */
  lemma StepAtRate(total: real, previous: real, a: real, b: real, c: real, rate: real)
    requires previous == a * rate && total == previous + b * rate && c == a + b
    ensures total == c * rate
  {
  }

  /** A per-month column summed over months 1..`n`. */
  function SumTo(column: int -> real, n: int): real
    decreases n
  {
    if n <= 0 then 0.0 else SumTo(column, n - 1) + column(n)
  }

  /** A column that prices every month of another at `rate` sums to that
      column's sum at `rate`. */
  lemma {:induction false} SumToAtRate(amounts: int -> real, costs: int -> real, rate: real, n: int,
                                       amountSum: real, costSum: real)
    requires forall k :: 1 <= k <= n ==> costs(k) == amounts(k) * rate
    requires amountSum == SumTo(amounts, n) && costSum == SumTo(costs, n)
    ensures costSum == amountSum * rate
  {
    if 0 < n {
      SumToAtRate(amounts, costs, rate, n - 1, SumTo(amounts, n - 1), SumTo(costs, n - 1));
      StepAtRate(costSum, SumTo(costs, n - 1), SumTo(amounts, n - 1), amounts(n), amountSum, rate);
    }
  }

  /** Two amounts at a rate cost what their sum costs at that rate. */
  lemma AddAtRate(a: real, b: real, c: real, rate: real)
    requires c == a + b
    ensures a * rate + b * rate == c * rate
  {
  }
}
