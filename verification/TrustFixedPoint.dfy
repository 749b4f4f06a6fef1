/** The vector the power iteration is after: for every positive alpha it exists, it is a
    distribution, and it is the only one. */
module TrustFixedPoint {
  import opened Sums
  import opened EigenTrust
  import opened TrustIteration

  /** A nonnegative matrix whose columns sum to at most `k`, which is less than one. */
  ghost predicate Contracting(m: (nat, nat) -> real, n: nat, k: real) {
    && k < 1.0
    && (forall i: nat, j: nat :: i < n && j < n ==> 0.0 <= m(i, j))
    && (forall j: nat :: j < n ==> ColumnSum(m, j, n) <= k)
  }

  function Dot(m: (nat, nat) -> real, i: nat, x: seq<real>, n: nat): real {
    Sum((j: nat) => m(i, j) * Nth(x, j), n)
  }

  /** x = m x + b */
  ghost predicate Solves(m: (nat, nat) -> real, b: nat -> real, x: seq<real>, n: nat) {
    |x| == n && Nonnegative(x) && forall i: nat :: i < n ==> Nth(x, i) == Dot(m, i, x, n) + b(i)
  }

  /** What row `i` owes to the last unknown when that is solved for and put back. */
  function Factor(m: (nat, nat) -> real, i: nat, last: nat): real {
    if m(last, last) < 1.0 then m(i, last) / (1.0 - m(last, last)) else 0.0
  }

  /** The system in the first `last` unknowns once the next one has been eliminated. */
  function Reduced(m: (nat, nat) -> real, last: nat): (nat, nat) -> real {
    (i: nat, j: nat) => m(i, j) + Factor(m, i, last) * m(last, j)
  }

  function ReducedBy(m: (nat, nat) -> real, b: nat -> real, last: nat): nat -> real {
    (i: nat) => b(i) + Factor(m, i, last) * b(last)
  }

  lemma DiagonalIsLess(m: (nat, nat) -> real, last: nat, k: real)
    requires Contracting(m, last + 1, k)
    ensures m(last, last) < 1.0
  {
    var column := (i: nat) => m(i, last);
    SumNonnegative(column, last + 1);
    assert m(last, last) == column(last) <= ColumnSum(m, last, last + 1);
  }

  lemma FactorFits(m: (nat, nat) -> real, last: nat, k: real, i: nat)
    requires Contracting(m, last + 1, k) && i <= last
    ensures 0.0 <= Factor(m, i, last) && Factor(m, i, last) * (1.0 - m(last, last)) == m(i, last)
  {
    hide Sum;
    DiagonalIsLess(m, last, k);
    Quotient(m(i, last), 1.0 - m(last, last));
  }

  /** The eliminated column is handed on at most once over. */
  lemma FactorsFit(m: (nat, nat) -> real, last: nat, k: real)
    requires Contracting(m, last + 1, k)
    ensures Sum((i: nat) => Factor(m, i, last), last) <= 1.0
  {
    hide Sum;
    DiagonalIsLess(m, last, k);
    var rest := 1.0 - m(last, last);
    var column := (i: nat) => m(i, last);
    forall i: nat | i < last ensures Factor(m, i, last) == (1.0 / rest) * column(i) {
      Quotient(m(i, last), rest);
    }
    SumScale((i: nat) => Factor(m, i, last), 1.0 / rest, column, last);
    SplitLast(column, last);
    assert ColumnSum(m, last, last + 1) == Sum(column, last + 1);
    Quotient(Sum(column, last), rest);
    AtMostOne(Sum(column, last), rest);
  }

  lemma AtMostOne(x: real, y: real)
    requires x <= y && 0.0 < y
    ensures x / y <= 1.0
  {
  }

  lemma SplitLast(f: nat -> real, n: nat)
    ensures Sum(f, n + 1) == Sum(f, n) + f(n)
  {
  }

  lemma ReducedContracts(m: (nat, nat) -> real, last: nat, k: real)
    requires Contracting(m, last + 1, k)
    ensures Contracting(Reduced(m, last), last, k)
  {
    hide Sum, Factor;
    var r := Reduced(m, last);
    FactorsFit(m, last, k);
    var factors := (i: nat) => Factor(m, i, last);
    forall i: nat, j: nat | i < last && j < last ensures 0.0 <= r(i, j) {
      FactorFits(m, last, k, i);
      Product(Factor(m, i, last), m(last, j));
    }
    forall j: nat | j < last ensures ColumnSum(r, j, last) <= k {
      var column := (i: nat) => m(i, j);
      SumLinear((i: nat) => r(i, j), 1.0, column, m(last, j), factors, last);
      Scaled(m(last, j), Sum(factors, last), 1.0);
      SplitLast(column, last);
      assert ColumnSum(m, j, last + 1) == Sum(column, last + 1);
    }
  }

  /** Nonnegative systems of this kind have a nonnegative solution. */
  lemma {:induction false} Solvable(m: (nat, nat) -> real, b: nat -> real, n: nat, k: real) returns (x: seq<real>)
    requires Contracting(m, n, k) && forall i: nat :: i < n ==> 0.0 <= b(i)
    ensures Solves(m, b, x, n)
    decreases n
  {
    if n == 0 {
      x := [];
    } else {
      var last := n - 1;
      ReducedContracts(m, last, k);
      forall i: nat | i < last ensures 0.0 <= ReducedBy(m, b, last)(i) {
        FactorFits(m, last, k, i);
        Product(Factor(m, i, last), b(last));
      }
      var front := Solvable(Reduced(m, last), ReducedBy(m, b, last), last, k);
      x := PutBack(m, b, front, last, k);
    }
  }

  /** Solving the last equation for the last unknown. */
  lemma PutBack(m: (nat, nat) -> real, b: nat -> real, front: seq<real>, last: nat, k: real) returns (x: seq<real>)
    requires Contracting(m, last + 1, k) && 0.0 <= b(last)
    requires Solves(Reduced(m, last), ReducedBy(m, b, last), front, last)
    ensures Solves(m, b, x, last + 1)
  {
    hide Sum, Factor, Dot;
    DiagonalIsLess(m, last, k);
    var rest := 1.0 - m(last, last);
    var known := Dot(m, last, front, last) + b(last);
    var value := known / rest;
    x := front + [value];
    Quotient(known, rest);
    DotNonnegative(m, last, front);
    forall i: nat | i < last + 1 ensures Nth(x, i) == Dot(m, i, x, last + 1) + b(i) && 0.0 <= Nth(x, i) {
      DotSplit(m, i, front, value, last);
      if i < last {
        FactorFits(m, last, k, i);
        ReducedDot(m, i, front, last);
        Swap(Factor(m, i, last), rest, value, known);
        Distribute(Factor(m, i, last), Dot(m, last, front, last), b(last));
        assert Nth(x, i) == Nth(front, i);
      } else {
        Share(m(last, last), value);
        Commute(value, rest);
        assert Nth(x, i) == value;
      }
    }
  }

  lemma DotNonnegative(m: (nat, nat) -> real, last: nat, x: seq<real>)
    requires |x| == last && Nonnegative(x)
    requires forall i: nat, j: nat :: i < last + 1 && j < last + 1 ==> 0.0 <= m(i, j)
    ensures 0.0 <= Dot(m, last, x, last)
  {
    hide Sum;
    forall j: nat | j < last ensures 0.0 <= m(last, j) * Nth(x, j) {
      Product(m(last, j), Nth(x, j));
    }
    SumNonnegative((j: nat) => m(last, j) * Nth(x, j), last);
  }

  lemma DotSplit(m: (nat, nat) -> real, i: nat, front: seq<real>, value: real, last: nat)
    requires |front| == last
    ensures Dot(m, i, front + [value], last + 1) == Dot(m, i, front, last) + m(i, last) * value
  {
    var long := (j: nat) => m(i, j) * Nth(front + [value], j);
    forall j: nat | j < last ensures long(j) == m(i, j) * Nth(front, j) {
      assert Nth(front + [value], j) == Nth(front, j);
    }
    SumEq(long, (j: nat) => m(i, j) * Nth(front, j), last);
    SplitLast(long, last);
  }

  lemma ReducedDot(m: (nat, nat) -> real, i: nat, x: seq<real>, last: nat)
    ensures Dot(Reduced(m, last), i, x, last) == Dot(m, i, x, last) + Factor(m, i, last) * Dot(m, last, x, last)
  {
    hide Factor, Sum;
    var f := Factor(m, i, last);
    forall j: nat | j < last ensures Reduced(m, last)(i, j) * Nth(x, j) == 1.0 * (m(i, j) * Nth(x, j)) + f * (m(last, j) * Nth(x, j)) {
      Expand(m(i, j), f, m(last, j), Nth(x, j));
    }
    SumLinear((j: nat) => Reduced(m, last)(i, j) * Nth(x, j), 1.0, (j: nat) => m(i, j) * Nth(x, j),
              f, (j: nat) => m(last, j) * Nth(x, j), last);
  }

  lemma Expand(a: real, f: real, c: real, x: real)
    ensures (a + f * c) * x == a * x + f * (c * x)
  {
  }

  lemma Swap(f: real, rest: real, value: real, known: real)
    requires value * rest == known
    ensures (f * rest) * value == f * known
  {
  }

  lemma Commute(x: real, y: real)
    ensures x * y == y * x
  {
  }

  // ---------------------------------------------------------------- the fixed point of trust

  function Weights(g: Trust): (nat, nat) -> real {
    (i: nat, j: nat) => (1.0 - g.alpha) * C(g, j, i)
  }

  function Pull(g: Trust): nat -> real {
    (i: nat) => g.alpha * Nth(g.p, i)
  }

  lemma TrustContracts(g: Trust)
    requires Sound(g) && 0.0 < g.alpha
    ensures Contracting(Weights(g), g.n, 1.0 - g.alpha)
  {
    hide C, Sum;
    var k := 1.0 - g.alpha;
    forall i: nat, j: nat | i < g.n && j < g.n ensures 0.0 <= Weights(g)(i, j) {
      RowStochastic(g, j);
      Product(k, C(g, j, i));
    }
    forall j: nat | j < g.n ensures ColumnSum(Weights(g), j, g.n) <= k {
      RowStochastic(g, j);
      SumScale((i: nat) => Weights(g)(i, j), k, (i: nat) => C(g, j, i), g.n);
      assert ColumnSum(Weights(g), j, g.n) == k * 1.0;
    }
  }

  /** A solution of the system is left in place by a step. */
  lemma SolutionIsFixed(g: Trust, t: seq<real>)
    requires Solves(Weights(g), Pull(g), t, g.n)
    ensures Next(g, t) == t
  {
    hide C, Sum, Nth;
    forall j: nat | j < g.n ensures Next(g, t)[j] == t[j] {
      forall i: nat | i < g.n ensures Weights(g)(j, i) * Nth(t, i) == (1.0 - g.alpha) * (C(g, i, j) * Nth(t, i)) {
        Expand(0.0, 1.0 - g.alpha, C(g, i, j), Nth(t, i));
      }
      SumScale((i: nat) => Weights(g)(j, i) * Nth(t, i), 1.0 - g.alpha, (i: nat) => C(g, i, j) * Nth(t, i), g.n);
      InRange(t, j);
    }
  }

  lemma InRange(t: seq<real>, j: nat)
    requires j < |t|
    ensures Nth(t, j) == t[j]
  {
  }

  /** For every positive alpha t = (1 - alpha) C^T t + alpha p has a solution, and it is a
      distribution. */
  lemma FixedPointExists(g: Trust) returns (t: seq<real>)
    requires Sound(g) && 0.0 < g.alpha
    ensures |t| == g.n && Distribution(t) && Next(g, t) == t
  {
    hide C, Sum, Next, Contracting;
    TrustContracts(g);
    forall i: nat | i < g.n ensures 0.0 <= Pull(g)(i) {
      PretrustNonnegative(g, i);
      Product(g.alpha, Nth(g.p, i));
    }
    t := Solvable(Weights(g), Pull(g), g.n, 1.0 - g.alpha);
    SolutionIsFixed(g, t);
    NextTotal(g, t);
    Share(g.alpha, Total(t));
    Cancel(g.alpha, Total(t));
  }

  lemma Cancel(alpha: real, x: real)
    requires 0.0 < alpha && alpha * x == alpha
    ensures x == 1.0
  {
  }

  /** The iterates close in on it geometrically. */
  lemma IteratesApproach(g: Trust) returns (t: seq<real>)
    requires Sound(g) && 0.0 < g.alpha
    ensures |t| == g.n && Distribution(t) && Next(g, t) == t
    ensures forall u: seq<real> :: |u| == g.n && Next(g, u) == u ==> u == t
    ensures forall k: nat :: Distance(Iterate(g, k), t, g.n) <= 2.0 * Power(1.0 - g.alpha, k)
  {
    hide Next, Sound, Distribution, Distance;
    t := FixedPointExists(g);
    forall u: seq<real> | |u| == g.n && Next(g, u) == u ensures u == t {
      FixedPointIsUnique(g, t, u);
    }
    forall k: nat ensures Distance(Iterate(g, k), t, g.n) <= 2.0 * Power(1.0 - g.alpha, k) {
      ApproachesFixedPoint(g, t, k);
    }
  }

  /** So the vector the iteration returns is close to it: geometrically close in the number of
      iterations, and within epsilon (1 - alpha) / alpha when the last change was below epsilon. */
  lemma StoppedIsClose(g: Trust, epsilon: real, maxIter: nat, k: nat) returns (t: seq<real>)
    requires Sound(g) && 0.0 < g.alpha && StopsAt(g, epsilon, maxIter, k)
    ensures |t| == g.n && Distribution(t) && Next(g, t) == t
    ensures Distance(Iterate(g, k), t, g.n) <= 2.0 * Power(1.0 - g.alpha, k)
    ensures k < maxIter || Distance(Iterate(g, k), Iterate(g, k - 1), g.n) < epsilon ==>
              g.alpha * Distance(Iterate(g, k), t, g.n) <= (1.0 - g.alpha) * epsilon
  {
    hide Next, Distribution, Distance, Power;
    t := IteratesApproach(g);
    StoppingBound(g, Iterate(g, k - 1), t);
    AlphaInRange(g);
    if k < maxIter || Distance(Iterate(g, k), Iterate(g, k - 1), g.n) < epsilon {
      assert Iterate(g, k) == Next(g, Iterate(g, k - 1));
      hide Iterate, Sound;
      Relax(g.alpha * Distance(Iterate(g, k), t, g.n), 1.0 - g.alpha, Distance(Iterate(g, k), Iterate(g, k - 1), g.n), epsilon);
    }
  }

  lemma Relax(x: real, k: real, y: real, e: real)
    requires x <= k * y && 0.0 <= k && y <= e
    ensures x <= k * e
  {
    Scaled(k, y, e);
  }
}
