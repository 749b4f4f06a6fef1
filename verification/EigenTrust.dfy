/** Global trust by power iteration (rynmesh/eigentrust.py), over the reals. Peers are their
    positions in the sorted universe, so every rater and ratee is below `n`. */
module EigenTrust {
  import opened Sums

  datatype Score = Score(rater: nat, ratee: nat, value: real)

  datatype Weight = Weight(peer: nat, value: real)

  function Nth(v: seq<real>, i: nat): real {
    if i < |v| then v[i] else 0.0
  }

  function Positive(x: real): real {
    if x > 0.0 then x else 0.0
  }

  function Total(v: seq<real>): real {
    Sum((i: nat) => Nth(v, i), |v|)
  }

  ghost predicate Nonnegative(v: seq<real>) {
    forall i: nat :: i < |v| ==> 0.0 <= Nth(v, i)
  }

  ghost predicate Distribution(v: seq<real>) {
    Nonnegative(v) && Total(v) == 1.0
  }

  function Distance(t: seq<real>, u: seq<real>, n: nat): real {
    Sum((i: nat) => Abs(Nth(t, i) - Nth(u, i)), n)
  }

  // ---------------------------------------------------------------- pre-trust

  /** A mapping in insertion order; no peer has two weights. */
  ghost predicate OnePerPeer(weights: seq<Weight>, n: nat) {
    && (forall w :: w in weights ==> w.peer < n)
    && forall i, j :: 0 <= i < j < |weights| ==> weights[i].peer != weights[j].peer
  }

  function WeightOf(weights: seq<Weight>, peer: nat): real {
    if weights == [] then 0.0
    else if weights[|weights| - 1].peer == peer then weights[|weights| - 1].value
    else WeightOf(weights[..|weights| - 1], peer)
  }

  function TotalWeight(weights: seq<Weight>): real {
    if weights == [] then 0.0
    else TotalWeight(weights[..|weights| - 1]) + Positive(weights[|weights| - 1].value)
  }

  function NormalizePretrust(weights: seq<Weight>, n: nat): (p: seq<real>)
    ensures |p| == n
  {
    if n == 0 then []
    else if TotalWeight(weights) > 0.0
    then seq(n, (i: nat) => Positive(WeightOf(weights, i)) / TotalWeight(weights))
    else seq(n, (i: nat) => 1.0 / n as real)
  }

  lemma {:induction false} WeightsAddUp(weights: seq<Weight>, n: nat)
    requires OnePerPeer(weights, n)
    ensures Sum((i: nat) => Positive(WeightOf(weights, i)), n) == TotalWeight(weights)
    decreases |weights|
  {
    if weights == [] {
      SumZero((i: nat) => Positive(WeightOf(weights, i)), n);
    } else {
      var front, last := weights[..|weights| - 1], weights[|weights| - 1];
      assert forall w :: w in front ==> w in weights;
      assert last in weights;
      WeightsAddUp(front, n);
      Unweighted(front, last.peer);
      var only := (i: nat) => if i == last.peer then Positive(last.value) else 0.0;
      SumOne(only, last.peer, n);
      SumLinear((i: nat) => Positive(WeightOf(weights, i)), 1.0, (i: nat) => Positive(WeightOf(front, i)), 1.0, only, n);
    }
  }

  lemma {:induction false} Unweighted(weights: seq<Weight>, peer: nat)
    requires forall w :: w in weights ==> w.peer != peer
    ensures WeightOf(weights, peer) == 0.0
    decreases |weights|
  {
    if weights != [] {
      assert weights[|weights| - 1] in weights;
      Unweighted(weights[..|weights| - 1], peer);
    }
  }

  lemma OneMore(k: real, x: real, y: real)
    requires y == x + 1.0
    ensures k * y == k * x + k
  {
    Distribute(k, x, 1.0);
  }

  lemma {:induction false} SumConstant(f: nat -> real, k: real, n: nat)
    requires forall i: nat :: i < n ==> f(i) == k
    ensures Sum(f, n) == k * n as real
  {
    if n > 0 {
      SumConstant(f, k, n - 1);
      OneMore(k, (n - 1) as real, n as real);
    }
  }

  lemma AnchoredPretrust(weights: seq<Weight>, n: nat)
    requires n > 0 && OnePerPeer(weights, n) && TotalWeight(weights) > 0.0
    ensures Distribution(NormalizePretrust(weights, n))
  {
    hide WeightOf, TotalWeight, Sum, OnePerPeer;
    var p, total := NormalizePretrust(weights, n), TotalWeight(weights);
    WeightsAddUp(weights, n);
    forall i: nat | i < n ensures Nth(p, i) == (1.0 / total) * Positive(WeightOf(weights, i)) && 0.0 <= Nth(p, i) {
      Quotient(Positive(WeightOf(weights, i)), total);
    }
    SumScale((i: nat) => Nth(p, i), 1.0 / total, (i: nat) => Positive(WeightOf(weights, i)), n);
    Quotient(total, total);
  }

  lemma UniformPretrust(weights: seq<Weight>, n: nat)
    requires n > 0 && TotalWeight(weights) <= 0.0
    ensures Distribution(NormalizePretrust(weights, n))
  {
    hide TotalWeight, Sum;
    var p := NormalizePretrust(weights, n);
    SumConstant((i: nat) => Nth(p, i), 1.0 / n as real, n);
    Quotient(n as real, n as real);
  }

  /** Given weights or not, positive or not, the pre-trust vector is a distribution. */
  lemma PretrustIsDistribution(weights: seq<Weight>, n: nat)
    requires n > 0 && OnePerPeer(weights, n)
    ensures Distribution(NormalizePretrust(weights, n))
  {
    hide Distribution, TotalWeight, NormalizePretrust, OnePerPeer;
    if TotalWeight(weights) > 0.0 {
      AnchoredPretrust(weights, n);
    } else {
      UniformPretrust(weights, n);
    }
  }

  /** With a positive total, everyone's share is its clipped weight. */
  lemma PretrustIsProportional(weights: seq<Weight>, n: nat, i: nat)
    requires TotalWeight(weights) > 0.0 && i < n
    ensures Nth(NormalizePretrust(weights, n), i) * TotalWeight(weights) == Positive(WeightOf(weights, i))
  {
    hide WeightOf, TotalWeight;
    Quotient(Positive(WeightOf(weights, i)), TotalWeight(weights));
  }

  lemma Quotient(x: real, y: real)
    requires y > 0.0
    ensures x / y == (1.0 / y) * x && (0.0 <= x ==> 0.0 <= x / y) && y / y == 1.0 && (x / y) * y == x
  {
  }

  // ---------------------------------------------------------------- the dense definition

  /** What rater i gives to j, negatives clipped. */
  function Given(scores: seq<Score>, i: nat, j: nat): real {
    if scores == [] then 0.0
    else
      var last := scores[|scores| - 1];
      Given(scores[..|scores| - 1], i, j) + if last.rater == i && last.ratee == j then Positive(last.value) else 0.0
  }

  function GivenBy(scores: seq<Score>, i: nat): real {
    if scores == [] then 0.0
    else
      var last := scores[|scores| - 1];
      GivenBy(scores[..|scores| - 1], i) + if last.rater == i then Positive(last.value) else 0.0
  }

  datatype Trust = Trust(n: nat, scores: seq<Score>, p: seq<real>, alpha: real)

  ghost predicate Sound(g: Trust) {
    && |g.p| == g.n && Distribution(g.p) && 0.0 <= g.alpha <= 1.0
    && forall s :: s in g.scores ==> s.rater < g.n && s.ratee < g.n
  }

  predicate Rates(g: Trust, i: nat) {
    GivenBy(g.scores, i) > 0.0
  }

  /** The row-stochastic matrix; a rater without positive trust defers to the pre-trust. */
  function C(g: Trust, i: nat, j: nat): real {
    if Rates(g, i) then Given(g.scores, i, j) / GivenBy(g.scores, i) else Nth(g.p, j)
  }

  /** One entry of (1 - alpha) C^T t + alpha p. */
  function NextAt(g: Trust, t: seq<real>, j: nat): real {
    (1.0 - g.alpha) * Sum((i: nat) => C(g, i, j) * Nth(t, i), g.n) + g.alpha * Nth(g.p, j)
  }

  function Next(g: Trust, t: seq<real>): (r: seq<real>)
    ensures |r| == g.n
  {
    seq(g.n, (j: nat) => NextAt(g, t, j))
  }

  function Iterate(g: Trust, k: nat): seq<real> {
    if k == 0 then g.p else Next(g, Iterate(g, k - 1))
  }

  // ---------------------------------------------------------------- the matrix is row stochastic

  lemma {:induction false} GivenNonnegative(scores: seq<Score>, i: nat, j: nat)
    ensures 0.0 <= Given(scores, i, j)
    decreases |scores|
  {
    if scores != [] {
      GivenNonnegative(scores[..|scores| - 1], i, j);
    }
  }

  lemma GivenLast(front: seq<Score>, last: Score, i: nat, j: nat)
    ensures Given([], i, j) == 0.0 && GivenBy([], i) == 0.0
    ensures Given(front + [last], i, j)
         == Given(front, i, j) + if last.rater == i && last.ratee == j then Positive(last.value) else 0.0
    ensures GivenBy(front + [last], i) == GivenBy(front, i) + if last.rater == i then Positive(last.value) else 0.0
  {
    assert (front + [last])[..|front|] == front;
  }

  lemma {:induction false} GivenAddsUp(scores: seq<Score>, i: nat, n: nat)
    requires forall s :: s in scores ==> s.ratee < n
    ensures Sum((j: nat) => Given(scores, i, j), n) == GivenBy(scores, i)
    decreases |scores|
  {
    hide Given, GivenBy, Sum, Positive;
    if scores == [] {
      forall j: nat | j < n ensures Given(scores, i, j) == 0.0 {
        GivenLast([], Score(0, 0, 0.0), i, j);
      }
      GivenLast([], Score(0, 0, 0.0), i, 0);
      SumZero((j: nat) => Given(scores, i, j), n);
    } else {
      var front, last := scores[..|scores| - 1], scores[|scores| - 1];
      assert scores == front + [last] && last in scores && forall s :: s in front ==> s in scores;
      GivenAddsUp(front, i, n);
      var only := (j: nat) => if last.rater == i && last.ratee == j then Positive(last.value) else 0.0;
      SumOne(only, last.ratee, n);
      forall j: nat | j < n ensures Given(scores, i, j) == 1.0 * Given(front, i, j) + 1.0 * only(j) {
        GivenLast(front, last, i, j);
      }
      GivenLast(front, last, i, 0);
      SumLinear((j: nat) => Given(scores, i, j), 1.0, (j: nat) => Given(front, i, j), 1.0, only, n);
    }
  }

  lemma RowStochastic(g: Trust, i: nat)
    requires Sound(g)
    ensures forall j: nat :: j < g.n ==> 0.0 <= C(g, i, j)
    ensures Sum((j: nat) => C(g, i, j), g.n) == 1.0
  {
    hide Given, GivenBy, Sum, Nth;
    if Rates(g, i) {
      var given := GivenBy(g.scores, i);
      GivenAddsUp(g.scores, i, g.n);
      forall j: nat | j < g.n ensures C(g, i, j) == (1.0 / given) * Given(g.scores, i, j) && 0.0 <= C(g, i, j) {
        GivenNonnegative(g.scores, i, j);
        Quotient(Given(g.scores, i, j), given);
      }
      SumScale((j: nat) => C(g, i, j), 1.0 / given, (j: nat) => Given(g.scores, i, j), g.n);
      Quotient(given, given);
    } else {
      SumEq((j: nat) => C(g, i, j), (j: nat) => Nth(g.p, j), g.n);
    }
  }

  /** Weighting the rows of C and summing everything gives back the weights. */
  lemma MassMoves(g: Trust, w: nat -> real)
    requires Sound(g)
    ensures Sum((j: nat) => ColumnSum((i: nat, j: nat) => C(g, i, j) * w(i), j, g.n), g.n) == Sum(w, g.n)
  {
    hide C, Sum, Sound;
    var m := (i: nat, j: nat) => C(g, i, j) * w(i);
    SumSwap(m, g.n, g.n);
    forall i: nat | i < g.n ensures RowSum(m, i, g.n) == w(i) {
      RowStochastic(g, i);
      SumScale((j: nat) => m(i, j), w(i), (j: nat) => C(g, i, j), g.n);
    }
    SumEq((i: nat) => RowSum(m, i, g.n), w, g.n);
  }

  lemma NextColumn(g: Trust, t: seq<real>, m: (nat, nat) -> real, j: nat)
    requires Sound(g) && Nonnegative(t) && j < g.n
    requires forall i: nat, k: nat :: m(i, k) == C(g, i, k) * Nth(t, i)
    ensures Nth(Next(g, t), j) == (1.0 - g.alpha) * ColumnSum(m, j, g.n) + g.alpha * Nth(g.p, j) && 0.0 <= Nth(Next(g, t), j)
  {
    hide C, Sum;
    SumEq((i: nat) => C(g, i, j) * Nth(t, i), (i: nat) => m(i, j), g.n);
    forall i: nat | i < g.n ensures 0.0 <= m(i, j) {
      RowStochastic(g, i);
      Product(C(g, i, j), Nth(t, i));
    }
    SumNonnegative((i: nat) => m(i, j), g.n);
    Product(1.0 - g.alpha, ColumnSum(m, j, g.n));
    Product(g.alpha, Nth(g.p, j));
  }

  /** A step keeps the share 1 - alpha of what there was and adds alpha. */
  lemma NextTotal(g: Trust, t: seq<real>)
    requires Sound(g) && |t| == g.n && Nonnegative(t)
    ensures Nonnegative(Next(g, t)) && Total(Next(g, t)) == (1.0 - g.alpha) * Total(t) + g.alpha
  {
    hide C, NextAt, Nth, Sum;
    var w := (i: nat) => Nth(t, i);
    var m := (i: nat, j: nat) => C(g, i, j) * w(i);
    MassMoves(g, w);
    forall j: nat | j < g.n
      ensures Nth(Next(g, t), j) == (1.0 - g.alpha) * ColumnSum(m, j, g.n) + g.alpha * Nth(g.p, j) && 0.0 <= Nth(Next(g, t), j)
    {
      NextColumn(g, t, m, j);
    }
    SumLinear((j: nat) => Nth(Next(g, t), j), 1.0 - g.alpha, (j: nat) => ColumnSum(m, j, g.n),
              g.alpha, (j: nat) => Nth(g.p, j), g.n);
  }

  /** Every step turns a distribution into a distribution, so renormalising does nothing. */
  lemma NextIsDistribution(g: Trust, t: seq<real>)
    requires Sound(g) && |t| == g.n && Distribution(t)
    ensures Distribution(Next(g, t))
  {
    hide Next, Total, Nonnegative;
    NextTotal(g, t);
  }

  lemma Product(x: real, y: real)
    requires 0.0 <= x && 0.0 <= y
    ensures 0.0 <= x * y
  {
  }

  lemma {:induction false} IteratesAreDistributions(g: Trust, k: nat)
    requires Sound(g)
    ensures |Iterate(g, k)| == g.n && Distribution(Iterate(g, k))
  {
    if k > 0 {
      IteratesAreDistributions(g, k - 1);
      NextIsDistribution(g, Iterate(g, k - 1));
    }
  }

  // ---------------------------------------------------------------- contraction

  lemma AbsProduct(c: real, x: real, y: real, cx: real, cy: real)
    requires 0.0 <= c && cx == c * x && cy == c * y
    ensures Abs(cx - cy) == c * Abs(x - y)
  {
  }

  /** One column of the step moves by at most the weighted differences in its rows. */
  lemma ColumnMoves(g: Trust, t: seq<real>, u: seq<real>, j: nat)
    requires Sound(g) && j < g.n
    ensures Abs(NextAt(g, t, j) - NextAt(g, u, j))
         <= (1.0 - g.alpha) * Sum((i: nat) => C(g, i, j) * Abs(Nth(t, i) - Nth(u, i)), g.n)
  {
    hide C, Sum, NextAt, Nth, Sound, Abs;
    AlphaInRange(g);
    var at, au := (i: nat) => C(g, i, j) * Nth(t, i), (i: nat) => C(g, i, j) * Nth(u, i);
    var d := (i: nat) => at(i) - au(i);
    var m := (i: nat) => C(g, i, j) * Abs(Nth(t, i) - Nth(u, i));
    forall i: nat | i < g.n ensures Abs(d(i)) <= m(i) {
      RowStochastic(g, i);
      AbsProduct(C(g, i, j), Nth(t, i), Nth(u, i), at(i), au(i));
    }
    SumAbs(d, m, g.n);
    SumLinear(d, 1.0, at, -1.0, au, g.n);
    var k, a, b := 1.0 - g.alpha, Sum(at, g.n), Sum(au, g.n);
    assert Sum(d, g.n) == a - b;
    AbsProduct(k, a, b, k * a, k * b);
    Scaled(k, Abs(a - b), Sum(m, g.n));
    SameStep(g, t, j);
    SameStep(g, u, j);
    assert NextAt(g, t, j) - NextAt(g, u, j) == k * a - k * b;
  }

  lemma SameStep(g: Trust, t: seq<real>, j: nat)
    ensures NextAt(g, t, j) == (1.0 - g.alpha) * Sum((i: nat) => C(g, i, j) * Nth(t, i), g.n) + g.alpha * Nth(g.p, j)
  {
  }

  lemma Scaled(k: real, x: real, y: real)
    requires 0.0 <= k && x <= y
    ensures k * x <= k * y
  {
  }

  /** A step brings any two vectors closer by at least the factor 1 - alpha. */
  lemma StepContracts(g: Trust, t: seq<real>, u: seq<real>)
    requires Sound(g)
    ensures Distance(Next(g, t), Next(g, u), g.n) <= (1.0 - g.alpha) * Distance(t, u, g.n)
  {
    hide C, NextAt, Next, Nth, Sum, Sound;
    var w := (i: nat) => Abs(Nth(t, i) - Nth(u, i));
    var m := (i: nat, j: nat) => C(g, i, j) * w(i);
    MassMoves(g, w);
    var moved := (j: nat) => (1.0 - g.alpha) * ColumnSum(m, j, g.n);
    forall j: nat | j < g.n ensures Abs(Nth(Next(g, t), j) - Nth(Next(g, u), j)) <= moved(j) {
      ColumnMoves(g, t, u, j);
      SumEq((i: nat) => C(g, i, j) * Abs(Nth(t, i) - Nth(u, i)), (i: nat) => m(i, j), g.n);
      NthNext(g, t, j);
      NthNext(g, u, j);
    }
    SumMonotone((j: nat) => Abs(Nth(Next(g, t), j) - Nth(Next(g, u), j)), moved, g.n);
    SumScale(moved, 1.0 - g.alpha, (j: nat) => ColumnSum(m, j, g.n), g.n);
  }

  lemma NthNext(g: Trust, t: seq<real>, j: nat)
    requires j < g.n
    ensures Nth(Next(g, t), j) == NextAt(g, t, j)
  {
  }

  /** Two distributions are at most 2 apart. */
  lemma DistributionsAreClose(t: seq<real>, u: seq<real>, n: nat)
    requires |t| == n && |u| == n && Distribution(t) && Distribution(u)
    ensures 0.0 <= Distance(t, u, n) <= 2.0
  {
    var both := (i: nat) => Nth(t, i) + Nth(u, i);
    SumMonotone((i: nat) => Abs(Nth(t, i) - Nth(u, i)), both, n);
    SumLinear(both, 1.0, (i: nat) => Nth(t, i), 1.0, (i: nat) => Nth(u, i), n);
    SumNonnegative((i: nat) => Abs(Nth(t, i) - Nth(u, i)), n);
  }

  /** The change per iteration shrinks geometrically, whatever the scores. */
  lemma {:induction false} DeltaShrinks(g: Trust, k: nat)
    requires Sound(g)
    ensures Distance(Iterate(g, k + 1), Iterate(g, k), g.n) <= 2.0 * Power(1.0 - g.alpha, k)
  {
    hide C, NextAt, Next, Sound;
    if k == 0 {
      IteratesAreDistributions(g, 1);
      IteratesAreDistributions(g, 0);
      DistributionsAreClose(Iterate(g, 1), Iterate(g, 0), g.n);
    } else {
      DeltaShrinks(g, k - 1);
      StepContracts(g, Iterate(g, k), Iterate(g, k - 1));
      AlphaInRange(g);
      Scaled(1.0 - g.alpha, Distance(Iterate(g, k), Iterate(g, k - 1), g.n), 2.0 * Power(1.0 - g.alpha, k - 1));
      Reassociate(1.0 - g.alpha, Power(1.0 - g.alpha, k - 1));
    }
  }

  lemma AlphaInRange(g: Trust)
    requires Sound(g)
    ensures 0.0 <= g.alpha <= 1.0 && 0.0 <= 1.0 - g.alpha <= 1.0
  {
  }

  lemma Reassociate(k: real, x: real)
    ensures k * (2.0 * x) == 2.0 * (k * x)
  {
  }

  lemma NoSlack(alpha: real, d: real)
    requires 0.0 < alpha && 0.0 <= d <= (1.0 - alpha) * d
    ensures d == 0.0
  {
  }

  /** With any pre-trust pull at all, t = (1 - alpha) C^T t + alpha p has at most one solution. */
  lemma FixedPointIsUnique(g: Trust, t: seq<real>, u: seq<real>)
    requires Sound(g) && 0.0 < g.alpha && |t| == g.n && |u| == g.n
    requires Next(g, t) == t && Next(g, u) == u
    ensures t == u
  {
    hide C, NextAt, Next, Sound, Sum;
    var gap := (i: nat) => Abs(Nth(t, i) - Nth(u, i));
    StepContracts(g, t, u);
    SumNonnegative(gap, g.n);
    NoSlack(g.alpha, Distance(t, u, g.n));
    forall i | 0 <= i < g.n ensures t[i] == u[i] {
      assert 0.0 <= gap(i) <= Sum(gap, g.n);
    }
  }

  /** The iterates approach a fixed point geometrically. */
  lemma {:induction false} ApproachesFixedPoint(g: Trust, fixed: seq<real>, k: nat)
    requires Sound(g) && |fixed| == g.n && Distribution(fixed) && Next(g, fixed) == fixed
    ensures Distance(Iterate(g, k), fixed, g.n) <= 2.0 * Power(1.0 - g.alpha, k)
  {
    hide C, NextAt, Next, Sound;
    if k == 0 {
      IteratesAreDistributions(g, 0);
      DistributionsAreClose(Iterate(g, 0), fixed, g.n);
    } else {
      ApproachesFixedPoint(g, fixed, k - 1);
      StepContracts(g, Iterate(g, k - 1), fixed);
      AlphaInRange(g);
      Scaled(1.0 - g.alpha, Distance(Iterate(g, k - 1), fixed, g.n), 2.0 * Power(1.0 - g.alpha, k - 1));
      Reassociate(1.0 - g.alpha, Power(1.0 - g.alpha, k - 1));
    }
  }

  /** The iterates settle: from step k on no two are further apart than this. */
  lemma {:induction false} IteratesAreCauchy(g: Trust, k: nat, m: nat)
    requires Sound(g)
    ensures Distance(Iterate(g, k + m), Iterate(g, k), g.n) <= 2.0 * Power(1.0 - g.alpha, k)
    decreases k
  {
    hide C, NextAt, Next, Sound;
    if k == 0 {
      IteratesAreDistributions(g, m);
      IteratesAreDistributions(g, 0);
      DistributionsAreClose(Iterate(g, m), Iterate(g, 0), g.n);
    } else {
      IteratesAreCauchy(g, k - 1, m);
      StepContracts(g, Iterate(g, k - 1 + m), Iterate(g, k - 1));
      AlphaInRange(g);
      Scaled(1.0 - g.alpha, Distance(Iterate(g, k - 1 + m), Iterate(g, k - 1), g.n), 2.0 * Power(1.0 - g.alpha, k - 1));
      Reassociate(1.0 - g.alpha, Power(1.0 - g.alpha, k - 1));
    }
  }

  lemma Triangle(t: seq<real>, u: seq<real>, v: seq<real>, n: nat)
    ensures Distance(t, v, n) <= Distance(t, u, n) + Distance(u, v, n)
    ensures Distance(t, u, n) == Distance(u, t, n)
  {
    SumEq((i: nat) => Abs(Nth(t, i) - Nth(u, i)), (i: nat) => Abs(Nth(u, i) - Nth(t, i)), n);
    var both := (i: nat) => Abs(Nth(t, i) - Nth(u, i)) + Abs(Nth(u, i) - Nth(v, i));
    SumMonotone((i: nat) => Abs(Nth(t, i) - Nth(v, i)), both, n);
    SumLinear(both, 1.0, (i: nat) => Abs(Nth(t, i) - Nth(u, i)), 1.0, (i: nat) => Abs(Nth(u, i) - Nth(v, i)), n);
  }

  /** How far a step ends from the fixed point is bounded by how far it moved. */
  lemma StoppingBound(g: Trust, t: seq<real>, fixed: seq<real>)
    requires Sound(g) && Next(g, fixed) == fixed
    ensures g.alpha * Distance(Next(g, t), fixed, g.n) <= (1.0 - g.alpha) * Distance(Next(g, t), t, g.n)
  {
    hide C, NextAt, Next, Sound, Sum;
    var next := Next(g, t);
    StepContracts(g, t, fixed);
    Triangle(t, next, fixed, g.n);
    AlphaInRange(g);
    Scaled(1.0 - g.alpha, Distance(t, fixed, g.n), Distance(next, t, g.n) + Distance(next, fixed, g.n));
    Distribute(1.0 - g.alpha, Distance(next, t, g.n), Distance(next, fixed, g.n));
    Share(g.alpha, Distance(next, fixed, g.n));
  }

  lemma Share(alpha: real, x: real)
    ensures (1.0 - alpha) * x == x - alpha * x
  {
  }

  // ---------------------------------------------------------------- isolation

  /** Nobody outside `group` rates anybody in it positively, and none of it is pre-trusted. */
  ghost predicate Isolated(g: Trust, group: set<nat>) {
    && (forall j :: j in group ==> j < g.n && Nth(g.p, j) == 0.0)
    && (forall s :: s in g.scores && s.ratee in group && s.rater !in group ==> s.value <= 0.0)
  }

  lemma {:induction false} NothingGiven(scores: seq<Score>, i: nat, j: nat)
    requires forall s :: s in scores && s.rater == i && s.ratee == j ==> s.value <= 0.0
    ensures Given(scores, i, j) == 0.0
    decreases |scores|
  {
    if scores != [] {
      assert scores[|scores| - 1] in scores;
      NothingGiven(scores[..|scores| - 1], i, j);
    }
  }

  /** However its members rate each other, an isolated group gets exactly no trust after any
      number of iterations. */
  lemma {:induction false} IsolatedGetNothing(g: Trust, group: set<nat>, k: nat, j: nat)
    requires Isolated(g, group) && j in group
    ensures Nth(Iterate(g, k), j) == 0.0
    decreases k
  {
    if k > 0 {
      var t := Iterate(g, k - 1);
      forall i: nat | i < g.n ensures C(g, i, j) * Nth(t, i) == 0.0 {
        if i in group {
          IsolatedGetNothing(g, group, k - 1, i);
        } else {
          NothingGiven(g.scores, i, j);
        }
      }
      SumZero((i: nat) => C(g, i, j) * Nth(t, i), g.n);
    }
  }

  /** Every peer keeps at least alpha times its own pre-trust, whatever the others say. */
  lemma AnchorsHold(g: Trust, k: nat, j: nat)
    requires Sound(g) && j < g.n
    ensures Nth(Iterate(g, k), j) >= g.alpha * Nth(g.p, j)
  {
    hide C, Sum, Nth, NextAt, Sound;
    AlphaInRange(g);
    if k == 0 {
      PretrustNonnegative(g, j);
      Scaled(Nth(g.p, j), g.alpha, 1.0);
    } else {
      var t := Iterate(g, k - 1);
      IteratesAreDistributions(g, k - 1);
      forall i: nat | i < g.n ensures 0.0 <= C(g, i, j) * Nth(t, i) {
        RowStochastic(g, i);
        Product(C(g, i, j), Nth(t, i));
      }
      SumNonnegative((i: nat) => C(g, i, j) * Nth(t, i), g.n);
      Product(1.0 - g.alpha, Sum((i: nat) => C(g, i, j) * Nth(t, i), g.n));
      SameStep(g, t, j);
      NthNext(g, t, j);
    }
  }

  lemma PretrustNonnegative(g: Trust, j: nat)
    requires Sound(g) && j < g.n
    ensures 0.0 <= Nth(g.p, j)
  {
  }

  /** So real anchors are needed: without a positive weight everybody is an anchor, and no
      group of peers is isolated. */
  lemma WithoutWeightsNobodyIsIsolated(g: Trust, weights: seq<Weight>, group: set<nat>)
    requires g.p == NormalizePretrust(weights, g.n) && TotalWeight(weights) <= 0.0
    ensures Isolated(g, group) ==> group == {}
  {
    hide TotalWeight;
    forall j | j in group ensures !Isolated(g, group) {
      assert j < g.n ==> Nth(g.p, j) == 1.0 / g.n as real;
      Inverse(g.n);
    }
  }

  lemma Inverse(n: nat)
    ensures n > 0 ==> 1.0 / n as real > 0.0
  {
  }
}
