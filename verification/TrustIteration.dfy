/** The sparse power iteration of rynmesh/eigentrust.py, proved to compute the dense one. */
module TrustIteration {
  import opened Sums
  import opened EigenTrust

  /** One column of a rater's row; a row is a dictionary in insertion order. */
  datatype Edge = Edge(to: nat, value: real)

  type Row = seq<Edge>

  function Cell(row: Row, j: nat): real {
    if row == [] then 0.0
    else Cell(row[..|row| - 1], j) + if row[|row| - 1].to == j then row[|row| - 1].value else 0.0
  }

  lemma CellAppend(row: Row, e: Edge, j: nat)
    ensures Cell(row + [e], j) == Cell(row, j) + if e.to == j then e.value else 0.0
  {
  }

  // ---------------------------------------------------------------- building the rows

  function Position(row: Row, j: nat): (k: nat)
    ensures k <= |row| && (k < |row| ==> row[k].to == j)
    ensures forall m :: 0 <= m < k ==> row[m].to != j
  {
    if row == [] || row[0].to == j then 0 else 1 + Position(row[1..], j)
  }

  /** Column `j` of the row is credited with `s`, starting from zero. */
  function Credit(row: Row, j: nat, s: real): Row {
    var k := Position(row, j);
    if k < |row| then row[k := Edge(j, row[k].value + s)] else row + [Edge(j, s)]
  }

  lemma {:induction false} CellUpdate(row: Row, k: nat, s: real, j: nat)
    requires k < |row|
    ensures Cell(row[k := Edge(row[k].to, row[k].value + s)], j) == Cell(row, j) + if row[k].to == j then s else 0.0
    decreases |row|
  {
    var front := row[..|row| - 1];
    var changed := row[k := Edge(row[k].to, row[k].value + s)];
    if k < |front| {
      CellUpdate(front, k, s, j);
      assert changed[..|row| - 1] == front[k := Edge(row[k].to, row[k].value + s)];
    } else {
      assert changed[..|row| - 1] == front;
    }
  }

  lemma CreditAdds(row: Row, j: nat, s: real, c: nat)
    ensures Cell(Credit(row, j, s), c) == Cell(row, c) + if j == c then s else 0.0
  {
    hide Cell;
    var k := Position(row, j);
    if k < |row| {
      CellUpdate(row, k, s, c);
    } else {
      CellAppend(row, Edge(j, s), c);
    }
  }

  ghost predicate InRange(row: Row, n: nat) {
    forall e :: e in row ==> e.to < n
  }

  lemma CreditInRange(row: Row, j: nat, s: real, n: nat)
    requires InRange(row, n) && j < n
    ensures InRange(Credit(row, j, s), n)
  {
  }

  /** Row `i` holds what rater `i` gave, and `sum` what it gave in all. */
  ghost predicate Holds(row: Row, sum: real, scores: seq<Score>, i: nat) {
    sum == GivenBy(scores, i) && forall j: nat :: Cell(row, j) == Given(scores, i, j)
  }

  lemma HoldsMore(row: Row, sum: real, scores: seq<Score>, s: Score, i: nat)
    requires Holds(row, sum, scores, i)
    ensures var counts := s.rater == i && s.value > 0.0;
            Holds(if counts then Credit(row, s.ratee, s.value) else row, if counts then sum + s.value else sum, scores + [s], i)
  {
    hide Cell, Credit;
    assert (scores + [s])[..|scores|] == scores;
    forall j: nat
      ensures s.rater == i && s.value > 0.0 ==>
                Cell(Credit(row, s.ratee, s.value), j) == Cell(row, j) + if s.ratee == j then s.value else 0.0
    {
      CreditAdds(row, s.ratee, s.value, j);
    }
  }

  method BuildRows(g: Trust) returns (raw: seq<Row>, sums: seq<real>)
    requires forall s :: s in g.scores ==> s.rater < g.n && s.ratee < g.n
    ensures |raw| == g.n && |sums| == g.n
    ensures forall i: nat :: i < g.n ==> Holds(raw[i], sums[i], g.scores, i) && InRange(raw[i], g.n)
  {
    hide Holds, InRange, Credit;
    raw := seq(g.n, (_: nat) => []);
    sums := seq(g.n, (_: nat) => 0.0);
    forall i: nat | i < g.n ensures Holds(raw[i], sums[i], g.scores[..0], i) && InRange(raw[i], g.n) {
      HoldsNothing(i, g.n);
      assert g.scores[..0] == [];
    }
    var k := 0;
    while k < |g.scores|
      invariant k <= |g.scores| && |raw| == g.n && |sums| == g.n
      invariant forall i: nat :: i < g.n ==> Holds(raw[i], sums[i], g.scores[..k], i) && InRange(raw[i], g.n)
    {
      var s := g.scores[k];
      assert s in g.scores && g.scores[..k + 1] == g.scores[..k] + [s];
      forall i: nat | i < g.n
        ensures var counts := s.rater == i && s.value > 0.0;
                Holds(if counts then Credit(raw[i], s.ratee, s.value) else raw[i], if counts then sums[i] + s.value else sums[i],
                      g.scores[..k + 1], i)
      {
        HoldsMore(raw[i], sums[i], g.scores[..k], s, i);
      }
      CreditInRange(raw[s.rater], s.ratee, s.value, g.n);
      if s.value > 0.0 {
        sums := sums[s.rater := sums[s.rater] + s.value];
        raw := raw[s.rater := Credit(raw[s.rater], s.ratee, s.value)];
      }
      k := k + 1;
    }
    assert g.scores[..k] == g.scores;
  }

  lemma HoldsNothing(i: nat, n: nat)
    ensures Holds([], 0.0, [], i) && InRange([], n)
  {
  }

  function Divide(row: Row, d: real): (r: Row)
    requires d > 0.0
    ensures |r| == |row| && forall k :: 0 <= k < |row| ==> r[k] == Edge(row[k].to, row[k].value / d)
  {
    seq(|row|, k requires 0 <= k < |row| => Edge(row[k].to, row[k].value / d))
  }

  lemma {:induction false} DivideCells(row: Row, d: real, j: nat)
    requires d > 0.0
    ensures Cell(Divide(row, d), j) == Cell(row, j) / d
    decreases |row|
  {
    if row != [] {
      var front := row[..|row| - 1];
      DivideCells(front, d, j);
      assert Divide(row, d)[..|row| - 1] == Divide(front, d);
      DivideSum(Cell(front, j), row[|row| - 1].value, d);
    }
  }

  lemma DivideSum(x: real, y: real, d: real)
    requires d > 0.0
    ensures (x + y) / d == x / d + y / d && 0.0 / d == 0.0
  {
  }

  /** The raters with no positive trust among the first k. */
  function Stranded(g: Trust, k: nat): seq<nat> {
    if k == 0 then [] else Stranded(g, k - 1) + if Rates(g, k - 1) then [] else [k - 1]
  }

  /** The normalised sparse rows stand for the matrix C. */
  ghost predicate Compiled(g: Trust, rows: seq<Row>, stranded: seq<nat>) {
    && |rows| == g.n && stranded == Stranded(g, g.n)
    && forall i: nat :: i < g.n ==> CompiledRow(g, rows[i], i)
  }

  ghost predicate CompiledRow(g: Trust, row: Row, i: nat) {
    && InRange(row, g.n)
    && (Rates(g, i) ==> forall j: nat :: j < g.n ==> Cell(row, j) == C(g, i, j))
    && (!Rates(g, i) ==> row == [])
  }

  lemma NormalizedRow(g: Trust, raw: Row, sum: real, i: nat)
    requires Holds(raw, sum, g.scores, i) && InRange(raw, g.n)
    ensures if sum > 0.0 then Rates(g, i) && CompiledRow(g, Divide(raw, sum), i) else !Rates(g, i) && CompiledRow(g, [], i)
  {
    hide Cell;
    if sum > 0.0 {
      forall j: nat | j < g.n ensures Cell(Divide(raw, sum), j) == C(g, i, j) {
        DivideCells(raw, sum, j);
      }
    }
  }

  method Normalize(g: Trust, raw: seq<Row>, sums: seq<real>) returns (rows: seq<Row>, stranded: seq<nat>)
    requires |raw| == g.n && |sums| == g.n
    requires forall i: nat :: i < g.n ==> Holds(raw[i], sums[i], g.scores, i) && InRange(raw[i], g.n)
    ensures Compiled(g, rows, stranded)
  {
    hide Holds, InRange, CompiledRow, Rates;
    rows, stranded := [], [];
    var i := 0;
    while i < g.n
      invariant i <= g.n && |rows| == i && stranded == Stranded(g, i)
      invariant forall k: nat :: k < i ==> CompiledRow(g, rows[k], k)
    {
      NormalizedRow(g, raw[i], sums[i], i);
      if sums[i] > 0.0 {
        rows := rows + [Divide(raw[i], sums[i])];
      } else {
        rows := rows + [[]];
        stranded := stranded + [i];
      }
      i := i + 1;
    }
  }

  // ---------------------------------------------------------------- one iteration

  function StrandedMass(g: Trust, t: seq<real>, k: nat): real {
    Sum((i: nat) => if Rates(g, i) then 0.0 else Nth(t, i), k)
  }

  function ActiveMass(g: Trust, t: seq<real>, j: nat, k: nat): real {
    Sum((i: nat) => if Rates(g, i) then C(g, i, j) * Nth(t, i) else 0.0, k)
  }

  function Gather(t: seq<real>, raters: seq<nat>): real {
    if raters == [] then 0.0 else Gather(t, raters[..|raters| - 1]) + Nth(t, raters[|raters| - 1])
  }

  lemma GatherLast(t: seq<real>, front: seq<nat>, i: nat)
    ensures Gather(t, []) == 0.0 && Gather(t, front + [i]) == Gather(t, front) + Nth(t, i)
  {
    assert (front + [i])[..|front|] == front;
  }

  lemma StrandedNext(g: Trust, t: seq<real>, k: nat)
    ensures Stranded(g, 0) == [] && StrandedMass(g, t, 0) == 0.0
    ensures Stranded(g, k + 1) == if Rates(g, k) then Stranded(g, k) else Stranded(g, k) + [k]
    ensures StrandedMass(g, t, k + 1) == StrandedMass(g, t, k) + if Rates(g, k) then 0.0 else Nth(t, k)
  {
    hide Rates, Nth;
    assert Stranded(g, k) + [] == Stranded(g, k);
  }

  lemma {:induction false} GatherStranded(g: Trust, t: seq<real>, k: nat)
    ensures Gather(t, Stranded(g, k)) == StrandedMass(g, t, k)
    ensures forall i :: i in Stranded(g, k) ==> i < k
    decreases k
  {
    hide Rates, Nth, Gather, Stranded, StrandedMass;
    if k == 0 {
      StrandedNext(g, t, 0);
      GatherLast(t, [], 0);
    } else {
      GatherStranded(g, t, k - 1);
      StrandedNext(g, t, k - 1);
      GatherLast(t, Stranded(g, k - 1), k - 1);
    }
  }

  method GatherMass(g: Trust, t: seq<real>, stranded: seq<nat>) returns (mass: real)
    requires |t| == g.n && stranded == Stranded(g, g.n)
    ensures mass == StrandedMass(g, t, g.n)
  {
    hide Stranded, StrandedMass;
    GatherStranded(g, t, g.n);
    mass := 0.0;
    var k := 0;
    while k < |stranded|
      invariant k <= |stranded| && mass == Gather(t, stranded[..k])
    {
      assert stranded[k] in stranded && stranded[..k + 1][..k] == stranded[..k];
      mass := mass + t[stranded[k]];
      k := k + 1;
    }
    assert stranded[..k] == stranded;
  }

  lemma NoShare(k: real, mass: real, p: real)
    ensures mass == 0.0 ==> k * mass * p == 0.0
    ensures p == 0.0 ==> k * p == 0.0
  {
  }

  method SpreadStranded(g: Trust, base: seq<real>, t: seq<real>, stranded: seq<nat>) returns (r: seq<real>)
    requires |base| == g.n && |g.p| == g.n && |t| == g.n && stranded == Stranded(g, g.n)
    requires forall i: nat :: i < g.n ==> 0.0 <= Nth(g.p, i) && 0.0 <= Nth(t, i)
    ensures |r| == g.n
    ensures forall j: nat :: j < g.n ==> r[j] == base[j] + (1.0 - g.alpha) * StrandedMass(g, t, g.n) * g.p[j]
  {
    hide Stranded, StrandedMass;
    var mass := GatherMass(g, t, stranded);
    NoStrandedMass(g, t);
    r := base;
    if mass > 0.0 {
      var contrib := (1.0 - g.alpha) * mass;
      var j := 0;
      while j < g.n
        invariant j <= g.n && |r| == g.n
        invariant forall c: nat :: c < j ==> r[c] == base[c] + contrib * g.p[c]
        invariant forall c: nat :: j <= c < g.n ==> r[c] == base[c]
      {
        assert Nth(g.p, j) >= 0.0;
        NoShare(contrib, mass, g.p[j]);
        if g.p[j] > 0.0 {
          r := r[j := r[j] + contrib * g.p[j]];
        }
        j := j + 1;
      }
    } else {
      forall j: nat | j < g.n ensures (1.0 - g.alpha) * mass * g.p[j] == 0.0 {
        NoShare(1.0 - g.alpha, mass, g.p[j]);
      }
    }
  }

  lemma NoStrandedMass(g: Trust, t: seq<real>)
    requires forall i: nat :: i < g.n ==> 0.0 <= Nth(t, i)
    ensures 0.0 <= StrandedMass(g, t, g.n)
  {
    SumNonnegative((i: nat) => if Rates(g, i) then 0.0 else Nth(t, i), g.n);
  }

  lemma NextEdge(row: Row, k: nat, mul: real, j: nat)
    requires k < |row|
    ensures mul * Cell(row[..k + 1], j) == mul * Cell(row[..k], j) + if row[k].to == j then mul * row[k].value else 0.0
  {
    hide Cell;
    assert row[..k + 1] == row[..k] + [row[k]];
    CellAppend(row[..k], row[k], j);
    Distribute(mul, Cell(row[..k], j), if row[k].to == j then row[k].value else 0.0);
    assert mul * 0.0 == 0.0;
  }

  lemma NoEdges(mul: real, j: nat)
    ensures mul * Cell([], j) == 0.0
  {
  }

  method SpreadRow(base: seq<real>, row: Row, mul: real) returns (r: seq<real>)
    requires InRange(row, |base|)
    ensures |r| == |base| && forall j: nat :: j < |base| ==> r[j] == base[j] + mul * Cell(row, j)
  {
    hide Cell;
    r := base;
    var k := 0;
    forall j: nat | j < |base| ensures mul * Cell(row[..k], j) == 0.0 {
      assert row[..k] == [];
      NoEdges(mul, j);
    }
    while k < |row|
      invariant k <= |row| && |r| == |base|
      invariant forall j: nat :: j < |base| ==> r[j] == base[j] + mul * Cell(row[..k], j)
    {
      assert row[k] in row;
      var e := row[k];
      forall j: nat | j < |base|
        ensures mul * Cell(row[..k + 1], j) == mul * Cell(row[..k], j) + if e.to == j then mul * e.value else 0.0
      {
        NextEdge(row, k, mul, j);
      }
      r := r[e.to := r[e.to] + mul * e.value];
      k := k + 1;
    }
    assert row[..k] == row;
  }

  lemma ActiveNext(g: Trust, t: seq<real>, i: nat, j: nat)
    ensures ActiveMass(g, t, j, i + 1) == ActiveMass(g, t, j, i) + if Rates(g, i) then C(g, i, j) * Nth(t, i) else 0.0
  {
    hide C, Rates, Nth;
  }

  lemma RowCell(g: Trust, row: Row, i: nat, j: nat)
    requires CompiledRow(g, row, i) && j < g.n
    ensures Cell(row, j) == if Rates(g, i) then C(g, i, j) else 0.0
  {
    hide C, Rates;
  }

  lemma Associate(x: real, y: real, z: real)
    ensures x * (y * z) == (x * z) * y
  {
  }

  lemma ActiveStep(g: Trust, t: seq<real>, row: Row, i: nat, j: nat)
    requires CompiledRow(g, row, i) && j < g.n
    ensures var mul := (1.0 - g.alpha) * Nth(t, i);
            (1.0 - g.alpha) * ActiveMass(g, t, j, i + 1) == (1.0 - g.alpha) * ActiveMass(g, t, j, i) + mul * Cell(row, j)
    ensures Nth(t, i) == 0.0 ==> ActiveMass(g, t, j, i + 1) == ActiveMass(g, t, j, i)
  {
    hide CompiledRow, ActiveMass, Cell, Nth, C, Rates;
    ActiveNext(g, t, i, j);
    RowCell(g, row, i, j);
    Distribute(1.0 - g.alpha, ActiveMass(g, t, j, i), Cell(row, j) * Nth(t, i));
    Associate(1.0 - g.alpha, Cell(row, j), Nth(t, i));
  }

  method SpreadActive(g: Trust, base: seq<real>, t: seq<real>, rows: seq<Row>) returns (r: seq<real>)
    requires |base| == g.n && |t| == g.n && |rows| == g.n && forall i: nat :: i < g.n ==> CompiledRow(g, rows[i], i)
    ensures |r| == g.n
    ensures forall j: nat :: j < g.n ==> r[j] == base[j] + (1.0 - g.alpha) * ActiveMass(g, t, j, g.n)
  {
    hide CompiledRow, ActiveMass, Cell;
    r := base;
    forall j: nat | j < g.n ensures ActiveMass(g, t, j, 0) == 0.0 {
      NoActiveMass(g, t, j);
    }
    var i := 0;
    while i < g.n
      invariant i <= g.n && |r| == g.n
      invariant forall j: nat :: j < g.n ==> r[j] == base[j] + (1.0 - g.alpha) * ActiveMass(g, t, j, i)
    {
      forall j: nat | j < g.n
        ensures (1.0 - g.alpha) * ActiveMass(g, t, j, i + 1)
             == (1.0 - g.alpha) * ActiveMass(g, t, j, i) + (1.0 - g.alpha) * t[i] * Cell(rows[i], j)
        ensures t[i] == 0.0 ==> ActiveMass(g, t, j, i + 1) == ActiveMass(g, t, j, i)
      {
        ActiveStep(g, t, rows[i], i, j);
      }
      RowInRange(g, rows[i], i);
      if t[i] != 0.0 {
        r := SpreadRow(r, rows[i], (1.0 - g.alpha) * t[i]);
      }
      i := i + 1;
    }
  }

  lemma NoActiveMass(g: Trust, t: seq<real>, j: nat)
    ensures ActiveMass(g, t, j, 0) == 0.0
  {
  }

  lemma RowInRange(g: Trust, row: Row, i: nat)
    requires CompiledRow(g, row, i)
    ensures InRange(row, g.n)
  {
  }

  /** The stranded and the active raters together are the dense product. */
  lemma MassesMakeNext(g: Trust, t: seq<real>, j: nat)
    requires j < g.n && |g.p| == g.n
    ensures NextAt(g, t, j) == g.alpha * g.p[j] + (1.0 - g.alpha) * StrandedMass(g, t, g.n) * g.p[j]
                               + (1.0 - g.alpha) * ActiveMass(g, t, j, g.n)
  {
    hide Rates, Sum;
    var active := (i: nat) => if Rates(g, i) then C(g, i, j) * Nth(t, i) else 0.0;
    var idle := (i: nat) => if Rates(g, i) then 0.0 else Nth(t, i);
    SumLinear((i: nat) => C(g, i, j) * Nth(t, i), 1.0, active, Nth(g.p, j), idle, g.n);
    var k, a, b, pj := 1.0 - g.alpha, ActiveMass(g, t, j, g.n), StrandedMass(g, t, g.n), Nth(g.p, j);
    Distribute(k, a, pj * b);
    assert k * (pj * b) == k * b * pj;
  }

  method RenormalizeTotal(v: seq<real>) returns (r: seq<real>)
    requires Distribution(v)
    ensures r == v
  {
    var total := Total(v);
    r := v;
    if total > 0.0 {
      r := seq(|v|, i requires 0 <= i < |v| => v[i] / total);
      assert r == v;
    }
  }

  /** The body of the loop computes the dense step exactly. */
  method IterateOnce(g: Trust, rows: seq<Row>, stranded: seq<nat>, t: seq<real>) returns (next: seq<real>)
    requires Sound(g) && Compiled(g, rows, stranded) && |t| == g.n && Distribution(t)
    ensures next == Next(g, t)
  {
    hide NextAt, ActiveMass, StrandedMass, Total, Sum, CompiledRow;
    next := seq(g.n, j requires 0 <= j < g.n => g.alpha * g.p[j]);
    next := SpreadStranded(g, next, t, stranded);
    next := SpreadActive(g, next, t, rows);
    forall j: nat | j < g.n ensures next[j] == NextAt(g, t, j) {
      MassesMakeNext(g, t, j);
    }
    assert next == Next(g, t);
    NextIsDistribution(g, t);
    next := RenormalizeTotal(next);
  }

  datatype TrustError = BadAlpha | BadEpsilon | BadIterations

  datatype Outcome = Converged(t: seq<real>) | Rejected(error: TrustError)

  /** The k-th iterate is the first to move by less than epsilon, or the last one allowed. */
  ghost predicate StopsAt(g: Trust, epsilon: real, maxIter: nat, k: nat) {
    && 1 <= k <= maxIter
    && (k < maxIter ==> Distance(Iterate(g, k), Iterate(g, k - 1), g.n) < epsilon)
    && forall m: nat :: 1 <= m < k ==> Distance(Iterate(g, m), Iterate(g, m - 1), g.n) >= epsilon
  }

  method EigenTrustOf(n: nat, scores: seq<Score>, pretrusted: seq<Weight>, alpha: real, epsilon: real, maxIter: int)
    returns (out: Outcome)
    requires OnePerPeer(pretrusted, n) && forall s :: s in scores ==> s.rater < n && s.ratee < n
    ensures alpha < 0.0 || alpha > 1.0 ==> out == Rejected(BadAlpha)
    ensures 0.0 <= alpha <= 1.0 && epsilon <= 0.0 ==> out == Rejected(BadEpsilon)
    ensures 0.0 <= alpha <= 1.0 && epsilon > 0.0 && maxIter < 1 ==> out == Rejected(BadIterations)
    ensures 0.0 <= alpha <= 1.0 && epsilon > 0.0 && maxIter >= 1 && n == 0 ==> out == Converged([])
    ensures 0.0 <= alpha <= 1.0 && epsilon > 0.0 && maxIter >= 1 && n > 0 ==>
              var g := Trust(n, scores, NormalizePretrust(pretrusted, n), alpha);
              && out.Converged? && |out.t| == n && Distribution(out.t)
              && exists k: nat :: StopsAt(g, epsilon, maxIter, k) && out.t == Iterate(g, k)
  {
    hide Distance, Next, Distribution, OnePerPeer;
    if alpha < 0.0 || alpha > 1.0 {
      return Rejected(BadAlpha);
    }
    if epsilon <= 0.0 {
      return Rejected(BadEpsilon);
    }
    if maxIter < 1 {
      return Rejected(BadIterations);
    }
    if n == 0 {
      return Converged([]);
    }
    var g := Trust(n, scores, NormalizePretrust(pretrusted, n), alpha);
    PretrustIsDistribution(pretrusted, n);
    var raw, sums := BuildRows(g);
    var rows, stranded := Normalize(g, raw, sums);
    var t := g.p;
    var k := 0;
    while k < maxIter
      invariant 0 <= k <= maxIter && t == Iterate(g, k)
      invariant forall m: nat :: 1 <= m <= k ==> Distance(Iterate(g, m), Iterate(g, m - 1), g.n) >= epsilon
    {
      IteratesAreDistributions(g, k);
      var next := IterateOnce(g, rows, stranded, t);
      var delta := Distance(next, t, n);
      t := next;
      k := k + 1;
      if delta < epsilon {
        IteratesAreDistributions(g, k);
        assert StopsAt(g, epsilon, maxIter, k);
        return Converged(t);
      }
    }
    IteratesAreDistributions(g, k);
    assert StopsAt(g, epsilon, maxIter, k);
    out := Converged(t);
  }
}
