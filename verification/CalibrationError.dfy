/** The reliability table and the expected calibration error, and the bound that ties the error to the Brier score. */
module CalibrationError {
  import opened Options

  /** One scored forecast: the number that stood, strictly inside (0,1), and whether it came true. */
  datatype Row = Row(p: real, outcome: bool)

  predicate Honest(rows: seq<Row>) {
    forall r :: r in rows ==> 0.0 < r.p < 1.0
  }

  function Hit(r: Row): real {
    if r.outcome then 1.0 else 0.0
  }

  function Brier(r: Row): real {
    (r.p - Hit(r)) * (r.p - Hit(r))
  }

  // ---------------------------------------------------------------- buckets

  /** Which of `k` equal intervals of [0,1] a probability falls into. */
  function BucketOf(p: real, k: nat): nat
    requires 0.0 < p < 1.0 && k > 0
  {
    var i := (p * k as real).Floor;
    if i < k - 1 then i else k - 1
  }

  /** Below certainty the clamp at the last bucket never acts: a row is in the interval its probability lies in. */
  lemma BucketHoldsItsRows(p: real, k: nat)
    requires 0.0 < p < 1.0 && k > 0
    ensures BucketOf(p, k) as real <= p * k as real < BucketOf(p, k) as real + 1.0
  {
    BelowTheTop(p, k as real);
  }

  lemma BelowTheTop(p: real, k: real)
    requires p < 1.0 && k > 0.0
    ensures p * k < k
  {
    PositiveProduct(1.0 - p, k);
  }

  datatype Bucket = Bucket(count: nat, sum: real, hits: nat)

  const NO_ROWS := Bucket(0, 0.0, 0)

  function Put(b: Bucket, r: Row): Bucket {
    Bucket(b.count + 1, b.sum + r.p, b.hits + (if r.outcome then 1 else 0))
  }

  /** The rows that fall into bucket `i`, counted and summed. */
  function Tally(rows: seq<Row>, i: nat, k: nat): (b: Bucket)
    requires Honest(rows) && k > 0
    ensures b.hits <= b.count && 0.0 <= b.sum <= b.count as real
  {
    if rows == [] then NO_ROWS
    else
      var r := rows[|rows| - 1];
      var before := Tally(rows[..|rows| - 1], i, k);
      if BucketOf(r.p, k) == i then Put(before, r) else before
  }

  /** The reliability table, one bucket after another and empty ones included. */
  method CalibrationBuckets(rows: seq<Row>, k: nat) returns (buckets: seq<Bucket>)
    requires Honest(rows) && k > 0
    ensures |buckets| == k
    ensures forall i :: 0 <= i < k ==> buckets[i] == Tally(rows, i, k)
  {
    buckets := seq(k, _ => NO_ROWS);
    for n := 0 to |rows|
      invariant |buckets| == k && Honest(rows[..n])
      invariant forall i :: 0 <= i < k ==> buckets[i] == Tally(rows[..n], i, k)
    {
      var r := rows[n];
      assert r in rows && rows[..n + 1][..n] == rows[..n] && rows[..n + 1][n] == r;
      var index := BucketOf(r.p, k);
      buckets := buckets[index := Put(buckets[index], r)];
    }
    assert rows[..|rows|] == rows;
  }

  function CountUpTo(rows: seq<Row>, m: nat, k: nat): nat
    requires Honest(rows) && k > 0
  {
    if m == 0 then 0 else CountUpTo(rows, m - 1, k) + Tally(rows, m - 1, k).count
  }

  lemma {:induction false} CountGrows(rows: seq<Row>, m: nat, k: nat)
    requires Honest(rows) && k > 0 && rows != [] && Honest(rows[..|rows| - 1])
    ensures CountUpTo(rows, m, k) ==
            CountUpTo(rows[..|rows| - 1], m, k) + if BucketOf(rows[|rows| - 1].p, k) < m then 1 else 0
  {
    if m > 0 { CountGrows(rows, m - 1, k); }
  }

  lemma {:induction false} NoRowsNoCount(m: nat, k: nat)
    requires k > 0
    ensures CountUpTo([], m, k) == 0
  {
    if m > 0 { NoRowsNoCount(m - 1, k); }
  }

  /** The buckets partition the rows: every row is counted, in exactly one bucket. */
  lemma {:induction false} BucketsPartition(rows: seq<Row>, k: nat)
    requires Honest(rows) && k > 0
    ensures CountUpTo(rows, k, k) == |rows|
  {
    if rows == [] {
      NoRowsNoCount(k, k);
    } else {
      BucketsPartition(rows[..|rows| - 1], k);
      CountGrows(rows, k, k);
    }
  }

  // ---------------------------------------------------------------- the error

  function Abs(x: real): (r: real)
    ensures r >= 0.0 && (r == x || r == -x)
  {
    if x < 0.0 then -x else x
  }

  /** How far a bucket's stated probabilities are, in total, from its outcomes. */
  function Gap(b: Bucket): real {
    b.sum - b.hits as real
  }

  function GapUpTo(rows: seq<Row>, m: nat, k: nat): real
    requires Honest(rows) && k > 0
  {
    if m == 0 then 0.0 else GapUpTo(rows, m - 1, k) + Abs(Gap(Tally(rows, m - 1, k)))
  }

  /** The total distance between number and outcome, row by row. */
  function Distance(rows: seq<Row>): real {
    if rows == [] then 0.0
    else Distance(rows[..|rows| - 1]) + Abs(rows[|rows| - 1].p - Hit(rows[|rows| - 1]))
  }

  function BrierSum(rows: seq<Row>): real {
    if rows == [] then 0.0 else BrierSum(rows[..|rows| - 1]) + Brier(rows[|rows| - 1])
  }

  /** `mean` is the average of a list of `count` numbers that add up to `sum`. */
  predicate IsMean(sum: real, count: nat, mean: real) {
    sum == count as real * mean
  }

  lemma {:induction false} GapGrows(rows: seq<Row>, m: nat, k: nat)
    requires Honest(rows) && k > 0 && rows != [] && Honest(rows[..|rows| - 1])
    ensures var r := rows[|rows| - 1];
            GapUpTo(rows, m, k) <=
              GapUpTo(rows[..|rows| - 1], m, k) + if BucketOf(r.p, k) < m then Abs(r.p - Hit(r)) else 0.0
  {
    if m > 0 { GapGrows(rows, m - 1, k); }
  }

  lemma {:induction false} NoRowsNoGap(m: nat, k: nat)
    requires k > 0
    ensures GapUpTo([], m, k) == 0.0
  {
    if m > 0 { NoRowsNoGap(m - 1, k); }
  }

  lemma {:induction false} GapIsAtMostDistance(rows: seq<Row>, k: nat)
    requires Honest(rows) && k > 0
    ensures GapUpTo(rows, k, k) <= Distance(rows)
  {
    if rows == [] {
      NoRowsNoGap(k, k);
    } else {
      GapIsAtMostDistance(rows[..|rows| - 1], k);
      GapGrows(rows, k, k);
    }
  }

  lemma {:induction false} GapIsNotNegative(rows: seq<Row>, m: nat, k: nat)
    requires Honest(rows) && k > 0
    ensures 0.0 <= GapUpTo(rows, m, k)
  {
    if m > 0 { GapIsNotNegative(rows, m - 1, k); }
  }

  lemma {:induction false} DistanceIsAtMostCount(rows: seq<Row>)
    requires Honest(rows)
    ensures 0.0 <= Distance(rows) <= |rows| as real
  {
    if rows != [] {
      DistanceIsAtMostCount(rows[..|rows| - 1]);
    }
  }

  /** The square of a sum of `count` numbers is at most `count` times the sum of their squares. */
  predicate CauchySchwarz(sum: real, count: nat, squares: real) {
    0.0 <= sum && 0.0 <= squares && sum * sum <= count as real * squares
  }

  lemma CauchyStep(sum: real, count: nat, squares: real, x: real)
    requires CauchySchwarz(sum, count, squares) && 0.0 <= x
    ensures CauchySchwarz(sum + x, count + 1, squares + x * x)
  {
    var n, cross := count as real, 2.0 * sum * x;
    assert (sum + x) * (sum + x) == sum * sum + cross + x * x;
    assert (n + 1.0) * (squares + x * x) == n * squares + n * (x * x) + squares + x * x;
    CrossTerm(sum, squares, n, x);
    SquareIsNotNegative(x);
  }

  lemma CrossTerm(a: real, b: real, n: real, x: real)
    requires n >= 0.0 && a >= 0.0 && b >= 0.0 && a * a <= n * b
    ensures 2.0 * a * x <= n * (x * x) + b
  {
    if n == 0.0 {
      SquareOfZero(a);
    } else {
      var y := n * x - a;
      SquareIsNotNegative(y);
      assert y * y == n * (n * (x * x)) - n * (2.0 * a * x) + a * a;
      assert n * (2.0 * a * x) <= n * (n * (x * x) + b);
      CancelFactor(n, 2.0 * a * x, n * (x * x) + b);
    }
  }

  lemma PositiveProduct(a: real, b: real)
    requires a > 0.0 && b > 0.0
    ensures a * b > 0.0
  {
  }

  lemma SquareOfZero(a: real)
    requires a >= 0.0
    ensures a == 0.0 || a * a > 0.0
  {
    if a > 0.0 { PositiveProduct(a, a); }
  }

  lemma SquareIsNotNegative(y: real)
    ensures y * y >= 0.0
  {
    if y > 0.0 {
      PositiveProduct(y, y);
    } else if y < 0.0 {
      PositiveProduct(-y, -y);
      assert (-y) * (-y) == y * y;
    } else {
      assert y * y == 0.0 * y;
    }
  }

  lemma CancelFactor(n: real, u: real, v: real)
    requires n > 0.0 && n * u <= n * v
    ensures u <= v
  {
    if u > v { PositiveProduct(n, u - v); }
  }

  lemma {:induction false} DistanceSquared(rows: seq<Row>)
    requires Honest(rows)
    ensures CauchySchwarz(Distance(rows), |rows|, BrierSum(rows))
  {
    if rows != [] {
      var front, r := rows[..|rows| - 1], rows[|rows| - 1];
      DistanceSquared(front);
      var x := Abs(r.p - Hit(r));
      assert Brier(r) == x * x;
      CauchyStep(Distance(front), |front|, BrierSum(front), x);
    }
  }

  lemma SquaresGrow(g: real, d: real)
    requires 0.0 <= g <= d
    ensures g * g <= d * d
  {
    assert d * d - g * g == (d - g) * (d + g);
  }

  /** The error of a table of `k` buckets: the buckets' gaps, averaged over the rows. */
  predicate IsError(rows: seq<Row>, k: nat, error: real)
    requires Honest(rows) && k > 0
  {
    IsMean(GapUpTo(rows, k, k), |rows|, error)
  }

  predicate Bounded(gap: real, distance: real, count: nat, squares: real) {
    0.0 <= gap <= distance <= count as real && CauchySchwarz(distance, count, squares)
  }

  lemma SumsAreBounded(rows: seq<Row>, k: nat)
    requires Honest(rows) && k > 0
    ensures Bounded(GapUpTo(rows, k, k), Distance(rows), |rows|, BrierSum(rows))
  {
    GapIsNotNegative(rows, k, k);
    GapIsAtMostDistance(rows, k);
    DistanceIsAtMostCount(rows);
    DistanceSquared(rows);
  }

  /** The expected calibration error lies in [0,1], and its square is at most the mean Brier score. */
  lemma ErrorIsBounded(rows: seq<Row>, k: nat, error: real, brier: real)
    requires Honest(rows) && k > 0 && rows != []
    requires IsError(rows, k, error) && IsMean(BrierSum(rows), |rows|, brier)
    ensures 0.0 <= error <= 1.0 && error * error <= brier
  {
    SumsAreBounded(rows, k);
    MeansAreBounded(GapUpTo(rows, k, k), Distance(rows), |rows|, BrierSum(rows), error, brier);
  }

  lemma MeansAreBounded(gap: real, distance: real, count: nat, squares: real, e: real, m: real)
    requires count > 0 && Bounded(gap, distance, count, squares)
    requires IsMean(gap, count, e) && IsMean(squares, count, m)
    ensures 0.0 <= e <= 1.0 && e * e <= m
  {
    Quotients(gap, distance, squares, count as real, e, m);
  }

  lemma Quotients(g: real, d: real, s: real, n: real, e: real, m: real)
    requires n > 0.0 && 0.0 <= g <= d <= n && d * d <= n * s
    requires g == n * e && s == n * m
    ensures 0.0 <= e <= 1.0 && e * e <= m
  {
    CancelFactor(n, 0.0, e);
    CancelFactor(n, e, 1.0);
    SquaresGrow(g, d);
    assert g * g == n * (n * (e * e));
    CancelFactor(n, n * (e * e), n * m);
    CancelFactor(n, e * e, m);
  }

  // ---------------------------------------------------------------- computing it bucket by bucket

  /** A bucket's share of the error, as the loop adds it: weight times |mean - rate|. */
  function Share(b: Bucket, total: nat): real
    requires total > 0 && b.count > 0
  {
    (b.count as real / total as real) * Abs(b.sum / b.count as real - b.hits as real / b.count as real)
  }

  lemma ShareIsGap(b: Bucket, total: nat)
    requires total > 0 && b.count > 0
    ensures IsMean(Abs(Gap(b)), total, Share(b, total))
  {
    var n, t := b.count as real, total as real;
    var mean, rate := b.sum / n, b.hits as real / n;
    assert mean * n == b.sum && rate * n == b.hits as real;
    assert Gap(b) == (mean - rate) * n;
    AbsScales(mean - rate, n);
    assert Abs(Gap(b)) == Abs(mean - rate) * n;
    assert t * (n / t) == n;
    assert t * ((n / t) * Abs(mean - rate)) == (t * (n / t)) * Abs(mean - rate);
  }

  lemma AbsScales(x: real, n: real)
    requires n > 0.0
    ensures Abs(x * n) == Abs(x) * n
  {
    if x < 0.0 { assert x * n < 0.0; } else { assert x * n >= 0.0; }
  }

  lemma OneMoreBucket(rows: seq<Row>, m: nat, k: nat, sum: real)
    requires Honest(rows) && k > 0 && rows != [] && IsMean(GapUpTo(rows, m, k), |rows|, sum)
    ensures var b := Tally(rows, m, k);
            IsMean(GapUpTo(rows, m + 1, k), |rows|, sum + if b.count == 0 then 0.0 else Share(b, |rows|))
  {
    var b := Tally(rows, m, k);
    if b.count != 0 {
      ShareIsGap(b, |rows|);
      MeansAdd(GapUpTo(rows, m, k), sum, Abs(Gap(b)), Share(b, |rows|), |rows|);
    }
  }

  lemma MeansAdd(x: real, a: real, y: real, b: real, count: nat)
    requires IsMean(x, count, a) && IsMean(y, count, b)
    ensures IsMean(x + y, count, a + b)
  {
  }

  method ExpectedCalibrationError(rows: seq<Row>, k: nat) returns (error: Option<real>)
    requires Honest(rows) && k > 0
    ensures error.None? <==> rows == []
    ensures rows != [] ==> IsError(rows, k, error.value)
  {
    if rows == [] { return None; }
    var total := |rows|;
    var buckets := CalibrationBuckets(rows, k);
    var sum := 0.0;
    for i := 0 to k
      invariant IsMean(GapUpTo(rows, i, k), total, sum)
    {
      OneMoreBucket(rows, i, k, sum);
      if buckets[i].count != 0 {
        sum := sum + Share(buckets[i], total);
      }
    }
    return Some(sum);
  }
}
