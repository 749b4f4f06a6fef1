/** Finite sums over the reals. */
module Sums {

  function Sum(f: nat -> real, n: nat): real {
    if n == 0 then 0.0 else Sum(f, n - 1) + f(n - 1)
  }

  function Abs(x: real): real {
    if x < 0.0 then -x else x
  }

  lemma {:induction false} SumLinear(h: nat -> real, a: real, f: nat -> real, b: real, g: nat -> real, n: nat)
    requires forall i: nat :: i < n ==> h(i) == a * f(i) + b * g(i)
    ensures Sum(h, n) == a * Sum(f, n) + b * Sum(g, n)
  {
    if n > 0 {
      SumLinear(h, a, f, b, g, n - 1);
      Combine(a, Sum(f, n - 1), f(n - 1), Sum(f, n), b, Sum(g, n - 1), g(n - 1), Sum(g, n));
    }
  }

  lemma Combine(a: real, x: real, dx: real, x': real, b: real, y: real, dy: real, y': real)
    requires x' == x + dx && y' == y + dy
    ensures (a * x + b * y) + (a * dx + b * dy) == a * x' + b * y'
  {
    Distribute(a, x, dx);
    Distribute(b, y, dy);
  }

  lemma Distribute(k: real, x: real, y: real)
    ensures k * (x + y) == k * x + k * y
  {
  }

  lemma {:induction false} SumEq(f: nat -> real, g: nat -> real, n: nat)
    requires forall i: nat :: i < n ==> f(i) == g(i)
    ensures Sum(f, n) == Sum(g, n)
  {
    if n > 0 {
      SumEq(f, g, n - 1);
    }
  }

  lemma SumScale(h: nat -> real, k: real, f: nat -> real, n: nat)
    requires forall i: nat :: i < n ==> h(i) == k * f(i)
    ensures Sum(h, n) == k * Sum(f, n)
  {
  }

  lemma {:induction false} SumZero(f: nat -> real, n: nat)
    requires forall i: nat :: i < n ==> f(i) == 0.0
    ensures Sum(f, n) == 0.0
  {
    if n > 0 {
      SumZero(f, n - 1);
    }
  }

  lemma {:induction false} SumMonotone(f: nat -> real, g: nat -> real, n: nat)
    requires forall i: nat :: i < n ==> f(i) <= g(i)
    ensures Sum(f, n) <= Sum(g, n)
  {
    if n > 0 {
      SumMonotone(f, g, n - 1);
    }
  }

  lemma {:induction false} SumNonnegative(f: nat -> real, n: nat)
    requires forall i: nat :: i < n ==> 0.0 <= f(i)
    ensures 0.0 <= Sum(f, n) && forall i: nat :: i < n ==> f(i) <= Sum(f, n)
  {
    if n > 0 {
      SumNonnegative(f, n - 1);
    }
  }

  /** The triangle inequality. */
  lemma {:induction false} SumAbs(f: nat -> real, g: nat -> real, n: nat)
    requires forall i: nat :: i < n ==> Abs(f(i)) <= g(i)
    ensures Abs(Sum(f, n)) <= Sum(g, n)
  {
    if n > 0 {
      SumAbs(f, g, n - 1);
    }
  }

  function RowSum(m: (nat, nat) -> real, i: nat, cols: nat): real {
    Sum((j: nat) => m(i, j), cols)
  }

  function ColumnSum(m: (nat, nat) -> real, j: nat, rows: nat): real {
    Sum((i: nat) => m(i, j), rows)
  }

  /** Summing by rows or by columns comes to the same. */
  lemma {:induction false} SumSwap(m: (nat, nat) -> real, rows: nat, cols: nat)
    ensures Sum((i: nat) => RowSum(m, i, cols), rows) == Sum((j: nat) => ColumnSum(m, j, rows), cols)
    decreases rows
  {
    if rows == 0 {
      SumZero((j: nat) => ColumnSum(m, j, 0), cols);
    } else {
      SumSwap(m, rows - 1, cols);
      SumLinear((j: nat) => ColumnSum(m, j, rows), 1.0, (j: nat) => ColumnSum(m, j, rows - 1),
                1.0, (j: nat) => m(rows - 1, j), cols);
    }
  }

  /** A sum with a single nonzero term. */
  lemma {:induction false} SumOne(f: nat -> real, k: nat, n: nat)
    requires k < n && forall i: nat :: i < n && i != k ==> f(i) == 0.0
    ensures Sum(f, n) == f(k)
    decreases n
  {
    if k == n - 1 {
      SumZero(f, n - 1);
    } else {
      SumOne(f, k, n - 1);
    }
  }

  function Power(x: real, k: nat): real {
    if k == 0 then 1.0 else x * Power(x, k - 1)
  }
}
