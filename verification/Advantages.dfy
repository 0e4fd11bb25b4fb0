/** Per-prompt baselines and the advantages built on them, in exact arithmetic. */
module Advantages {
  import opened Wrappers
  import opened Seqs
  import Arith

  // A standard deviation is represented by its square.

  function RSum(xs: seq<real>): real {
    if |xs| == 0 then 0.0 else RSum(xs[..|xs| - 1]) + xs[|xs| - 1]
  }

  // Multiplication under a name, so that proofs can treat it as unknown.
  function Product(c: real, x: real): real {
    c * x
  }

  function Square(x: real): real {
    Product(x, x)
  }

  function SumSquares(xs: seq<real>): real {
    if |xs| == 0 then 0.0 else SumSquares(xs[..|xs| - 1]) + Square(xs[|xs| - 1])
  }

  // ---------------------------------------------------------------- the statistics of one prompt group

  // The reward of a valid response, to the first or second power, else 0.
  function Term(x: real, valid: bool, square: bool): real {
    if !valid then 0.0 else if square then Square(x) else x
  }

  // Row i of the mask matrix times the rewards: all valid rewards, without the i-th for leave-one-out.
  function RowSum(xs: seq<real>, valid: seq<bool>, i: nat, leaveOut: bool, square: bool): real
    requires |valid| == |xs|
  {
    if |xs| == 0 then 0.0
    else
      var n := |xs| - 1;
      RowSum(xs[..n], valid[..n], i, leaveOut, square)
      + if leaveOut && n == i then 0.0 else Term(xs[n], valid[n], square)
  }

  function CountValid(valid: seq<bool>): nat {
    if |valid| == 0 then 0 else CountValid(valid[..|valid| - 1]) + if valid[|valid| - 1] then 1 else 0
  }

  function NumValid(valid: seq<bool>, leaveOut: bool): int {
    CountValid(valid) - if leaveOut then 1 else 0
  }

  function BaselineOf(xs: seq<real>, valid: seq<bool>, i: nat, leaveOut: bool): real
    requires i < |xs| == |valid|
  {
    if CountValid(valid) <= 1 then xs[i]
    else RowSum(xs, valid, i, leaveOut, false) / NumValid(valid, leaveOut) as real
  }

  // The square of the standard deviation; a negative one has no root and becomes 0 (nan_to_num).
  // None where the correction divides by zero: leave-one-out with two valid responses.
  function SquaredStdOf(xs: seq<real>, valid: seq<bool>, i: nat, leaveOut: bool): Option<real>
    requires i < |xs| == |valid|
  {
    var n := NumValid(valid, leaveOut);
    if CountValid(valid) <= 1 then Some(0.0)
    else if n == 1 then None
    else Some(RootOrZero(Spread(RowSum(xs, valid, i, leaveOut, false), RowSum(xs, valid, i, leaveOut, true), n as real)))
  }

  // The corrected variance from the sum and the sum of squares of n rewards.
  function Spread(sum: real, squares: real, n: real): real
    requires n != 0.0 && n != 1.0
  {
    (squares / n - sum / n * (sum / n)) * (n / (n - 1.0))
  }

  function RootOrZero(v: real): real {
    if v < 0.0 then 0.0 else v
  }

  // ---------------------------------------------------------------- algebra of sums

  function Minus(xs: seq<real>, b: real): (r: seq<real>)
    ensures |r| == |xs| && forall i :: 0 <= i < |xs| ==> r[i] == xs[i] - b
  {
    seq(|xs|, i requires 0 <= i < |xs| => xs[i] - b)
  }

  function Scale(xs: seq<real>, c: real): (r: seq<real>)
    ensures |r| == |xs| && forall i :: 0 <= i < |xs| ==> r[i] == Product(c, xs[i])
  {
    seq(|xs|, i requires 0 <= i < |xs| => Product(c, xs[i]))
  }

  lemma {:induction false} SumMinus(xs: seq<real>, b: real)
    ensures RSum(Minus(xs, b)) == RSum(xs) - |xs| as real * b
  {
    if |xs| > 0 {
      var n := |xs| - 1;
      SumMinus(xs[..n], b);
      assert Minus(xs, b)[..n] == Minus(xs[..n], b);
      Distribute(n as real, 1.0, b);
    }
  }

  lemma Distribute(x: real, y: real, z: real)
    ensures (x + y) * z == x * z + y * z
  {
  }

  lemma {:induction false} SumScale(xs: seq<real>, c: real)
    ensures RSum(Scale(xs, c)) == Product(c, RSum(xs))
  {
    if |xs| > 0 {
      var n := |xs| - 1;
      SumScale(xs[..n], c);
      ScalePrefix(xs, c, n);
      Distribute(RSum(xs[..n]), xs[n], c);
    }
  }

  lemma ScalePrefix(xs: seq<real>, c: real, n: nat)
    requires n <= |xs|
    ensures Scale(xs, c)[..n] == Scale(xs[..n], c)
  {
    hide Product;
  }

  // The sum of squared deviations from b, from the sum and the sum of squares of n values.
  function Expanded(squares: real, sum: real, n: real, b: real): real {
    squares - 2.0 * b * sum + n * (b * b)
  }

  lemma {:induction false} SumSquaresMinus(xs: seq<real>, b: real)
    ensures SumSquares(Minus(xs, b)) == Expanded(SumSquares(xs), RSum(xs), |xs| as real, b)
  {
    hide Square, Expanded;
    if |xs| == 0 {
      ExpandedZero(b);
    } else {
      var n := |xs| - 1;
      SumSquaresMinus(xs[..n], b);
      assert Minus(xs, b)[..n] == Minus(xs[..n], b);
      SquareStep(xs[n], b, SumSquares(xs[..n]), RSum(xs[..n]), n as real);
    }
  }

  lemma ExpandedZero(b: real)
    ensures Expanded(0.0, 0.0, 0.0, b) == 0.0
  {
  }

  lemma SquareStep(x: real, b: real, q: real, s: real, n: real)
    ensures Expanded(q, s, n, b) + Square(x - b) == Expanded(q + Square(x), s + x, n + 1.0, b)
  {
  }

  ghost predicate AllZero(xs: seq<real>) {
    forall i :: 0 <= i < |xs| ==> xs[i] == 0.0
  }

  ghost predicate AllEqual(xs: seq<real>) {
    forall a, b :: 0 <= a < b < |xs| ==> xs[a] == xs[b]
  }

  lemma {:induction false} SumSquaresZero(xs: seq<real>)
    ensures SumSquares(xs) >= 0.0
    ensures SumSquares(xs) == 0.0 <==> AllZero(xs)
  {
    if |xs| > 0 {
      var n := |xs| - 1;
      SumSquaresZero(xs[..n]);
      SquareZero(xs[n]);
      if SumSquares(xs) == 0.0 {
        forall i | 0 <= i < |xs| ensures xs[i] == 0.0 {
          if i < n { assert xs[..n][i] == 0.0; }
        }
      }
    }
  }

  lemma SquareZero(x: real)
    ensures Square(x) >= 0.0 && (Square(x) == 0.0 <==> x == 0.0)
  {
    hide Square;
    if x > 0.0 {
      SquarePositive(x);
    } else if x < 0.0 {
      SquareNegative(x);
    } else {
      assert Square(0.0) == 0.0 by { SquareOfZero(); }
    }
  }

  lemma SquareOfZero()
    ensures Square(0.0) == 0.0
  {
  }

  lemma SquarePositive(x: real)
    requires x > 0.0
    ensures Square(x) > 0.0
  {
    hide Product;
    PositiveProduct(x, x);
  }

  lemma SquareNegative(x: real)
    requires x < 0.0
    ensures Square(x) > 0.0
  {
    hide Square;
    SquarePositive(-x);
    SameSquare(x);
  }

  lemma SameSquare(x: real)
    ensures Square(-x) == Square(x)
  {
  }

  lemma PositiveProduct(x: real, y: real)
    requires x > 0.0 && y > 0.0
    ensures Product(x, y) > 0.0
  {
  }

  // ---------------------------------------------------------------- all responses valid

  ghost predicate AllValid(valid: seq<bool>) {
    forall i :: 0 <= i < |valid| ==> valid[i]
  }

  lemma {:induction false} CountAllValid(valid: seq<bool>)
    requires AllValid(valid)
    ensures CountValid(valid) == |valid|
  {
    if |valid| > 0 {
      CountAllValid(valid[..|valid| - 1]);
    }
  }

  lemma {:induction false} RowSumAll(xs: seq<real>, valid: seq<bool>, i: nat, leaveOut: bool)
    requires |valid| == |xs| && AllValid(valid)
    ensures RowSum(xs, valid, i, leaveOut, false) == RSum(xs) - if leaveOut && i < |xs| then xs[i] else 0.0
    ensures RowSum(xs, valid, i, leaveOut, true) == SumSquares(xs) - if leaveOut && i < |xs| then Square(xs[i]) else 0.0
  {
    hide Square;
    if |xs| > 0 {
      var n := |xs| - 1;
      RowSumAll(xs[..n], valid[..n], i, leaveOut);
    }
  }

  // The advantages of one group: reward minus baseline.
  function GroupAdvantages(xs: seq<real>, valid: seq<bool>, leaveOut: bool): (r: seq<real>)
    requires |valid| == |xs|
    ensures |r| == |xs| && forall i :: 0 <= i < |xs| ==> r[i] == xs[i] - BaselineOf(xs, valid, i, leaveOut)
  {
    seq(|xs|, i requires 0 <= i < |xs| => xs[i] - BaselineOf(xs, valid, i, leaveOut))
  }

  lemma MeanBaseline(xs: seq<real>, valid: seq<bool>, i: nat)
    requires i < |xs| == |valid| && AllValid(valid)
    ensures BaselineOf(xs, valid, i, false) == RSum(xs) / |xs| as real
  {
    CountAllValid(valid);
    RowSumAll(xs, valid, i, false);
    if |xs| == 1 {
      assert xs[..0] == [];
      assert RSum(xs) == xs[0];
      hide RSum, RowSum;
    } else {
      hide RSum, RowSum;
    }
  }

  lemma MeanAdvantages(xs: seq<real>, valid: seq<bool>)
    requires |xs| == |valid| && |xs| > 0 && AllValid(valid)
    ensures GroupAdvantages(xs, valid, false) == Minus(xs, RSum(xs) / |xs| as real)
  {
    hide BaselineOf, RSum;
    forall i | 0 <= i < |xs| ensures BaselineOf(xs, valid, i, false) == RSum(xs) / |xs| as real {
      MeanBaseline(xs, valid, i);
    }
  }

  lemma QuotientTimes(s: real, n: real)
    requires n != 0.0
    ensures n * (s / n) == s
  {
  }

  lemma MeanAdvantagesSumToZero(xs: seq<real>, valid: seq<bool>)
    requires |xs| == |valid| && |xs| > 0 && AllValid(valid)
    ensures RSum(GroupAdvantages(xs, valid, false)) == 0.0
  {
    hide RSum, GroupAdvantages;
    MeanAdvantages(xs, valid);
    SumMinus(xs, RSum(xs) / |xs| as real);
    QuotientTimes(RSum(xs), |xs| as real);
  }

  // x - (s - x) / (n - 1) == n / (n - 1) * (x - s / n)
  lemma LeaveOneOutScales(x: real, s: real, n: real)
    requires n > 1.0
    ensures x - (s - x) / (n - 1.0) == n / (n - 1.0) * (x - s / n)
  {
    var a, b, c := (s - x) / (n - 1.0), s / n, n / (n - 1.0);
    QuotientTimes(s - x, n - 1.0);
    QuotientTimes(s, n);
    QuotientTimes(n, n - 1.0);
    LeaveOneOutProduct(x, a, b, c, s, n);
    CancelFactor(n - 1.0, x - a, c * (x - b));
  }

  lemma LeaveOneOutProduct(x: real, a: real, b: real, c: real, s: real, n: real)
    requires (n - 1.0) * a == s - x && n * b == s && (n - 1.0) * c == n
    ensures (n - 1.0) * (x - a) == (n - 1.0) * (c * (x - b))
  {
    assert (n - 1.0) * (x - a) == (n - 1.0) * x - (n - 1.0) * a;
    assert (n - 1.0) * (c * (x - b)) == ((n - 1.0) * c) * (x - b) == n * x - n * b;
  }

  lemma CancelFactor(f: real, x: real, y: real)
    requires f != 0.0 && f * x == f * y
    ensures x == y
  {
    assert f * (x - y) == 0.0;
  }

  // The leave-one-out advantage is n / (n - 1) times the mean-baseline advantage.
  lemma LeaveOneOutAdvantages(xs: seq<real>, valid: seq<bool>)
    requires |xs| == |valid| && |xs| >= 2 && AllValid(valid)
    ensures var n := |xs| as real;
            GroupAdvantages(xs, valid, true) == Scale(GroupAdvantages(xs, valid, false), n / (n - 1.0))
  {
    hide RSum, RowSum, BaselineOf, Product;
    var c := |xs| as real / (|xs| as real - 1.0);
    forall i | 0 <= i < |xs|
      ensures xs[i] - BaselineOf(xs, valid, i, true) == Product(c, xs[i] - BaselineOf(xs, valid, i, false))
    {
      LeaveOneOutAdvantage(xs, valid, i);
    }
  }

  lemma LeaveOneOutAdvantage(xs: seq<real>, valid: seq<bool>, i: nat)
    requires i < |xs| == |valid| && |xs| >= 2 && AllValid(valid)
    ensures var n := |xs| as real;
            xs[i] - BaselineOf(xs, valid, i, true) == Product(n / (n - 1.0), xs[i] - BaselineOf(xs, valid, i, false))
  {
    hide RSum, RowSum;
    CountAllValid(valid);
    RowSumAll(xs, valid, i, true);
    MeanBaseline(xs, valid, i);
    LeaveOneOutScales(xs[i], RSum(xs), |xs| as real);
  }

  // Under both baselines the advantages of a prompt group sum to zero.
  lemma AdvantagesSumToZero(xs: seq<real>, valid: seq<bool>, leaveOut: bool)
    requires |xs| == |valid| && |xs| > 0 && AllValid(valid)
    ensures RSum(GroupAdvantages(xs, valid, leaveOut)) == 0.0
  {
    hide GroupAdvantages, Scale;
    if !leaveOut {
      MeanAdvantagesSumToZero(xs, valid);
    } else if |xs| == 1 {
      SingleAdvantage(xs, valid, leaveOut);
    } else {
      var n := |xs| as real;
      LeaveOneOutAdvantages(xs, valid);
      MeanAdvantagesSumToZero(xs, valid);
      SumScale(GroupAdvantages(xs, valid, false), n / (n - 1.0));
    }
  }

  lemma SingleAdvantage(xs: seq<real>, valid: seq<bool>, leaveOut: bool)
    requires |xs| == |valid| == 1
    ensures RSum(GroupAdvantages(xs, valid, leaveOut)) == 0.0
  {
    var a := GroupAdvantages(xs, valid, leaveOut);
    assert valid[..0] == [];
    assert CountValid(valid) <= 1;
    assert BaselineOf(xs, valid, 0, leaveOut) == xs[0];
    assert a[..0] == [];
  }

  // ---------------------------------------------------------------- the standard deviation of the mean baseline

  // (q / n - (s / n)^2) * n / (n - 1) == (q - 2 (s / n) s + n (s / n)^2) / (n - 1)
  lemma VarianceForm(q: real, s: real, n: real)
    requires n > 1.0
    ensures Spread(s, q, n) == Expanded(q, s, n, s / n) / (n - 1.0)
  {
    var m, a, c := s / n, q / n, n / (n - 1.0);
    QuotientTimes(s, n);
    QuotientTimes(q, n);
    QuotientTimes(n, n - 1.0);
    var d := (q - 2.0 * m * s + n * (m * m)) / (n - 1.0);
    QuotientTimes(q - 2.0 * m * s + n * (m * m), n - 1.0);
    VarianceProduct(a, m, c, d, q, s, n);
    CancelFactor(n - 1.0, (a - m * m) * c, d);
  }

  lemma VarianceProduct(a: real, m: real, c: real, d: real, q: real, s: real, n: real)
    requires n * m == s && n * a == q && (n - 1.0) * c == n && (n - 1.0) * d == q - 2.0 * m * s + n * (m * m)
    ensures (n - 1.0) * ((a - m * m) * c) == (n - 1.0) * d
  {
    assert (n - 1.0) * ((a - m * m) * c) == (a - m * m) * ((n - 1.0) * c);
    assert (a - m * m) * n == n * a - n * (m * m);
    assert m * s == m * (n * m) == n * (m * m);
  }

  lemma QuotientSign(x: real, y: real)
    requires y > 0.0 && x >= 0.0
    ensures x / y >= 0.0 && (x / y == 0.0 <==> x == 0.0)
  {
    QuotientTimes(x, y);
    if x / y < 0.0 {
      PositiveProduct(-(x / y), y);
    }
  }

  // For the mean baseline of a group of at least two, the squared std is the sample variance; it is
  // not negative, and it is zero exactly when all rewards of the group are equal.
  lemma SquaredStdIsSampleVariance(xs: seq<real>, valid: seq<bool>, i: nat)
    requires i < |xs| == |valid| && |xs| >= 2 && AllValid(valid)
    ensures var n := |xs| as real;
            SquaredStdOf(xs, valid, i, false) == Some(SumSquares(Minus(xs, RSum(xs) / n)) / (n - 1.0))
    ensures SquaredStdOf(xs, valid, i, false).value >= 0.0
    ensures SquaredStdOf(xs, valid, i, false).value == 0.0 <==> AllEqual(xs)
  {
    hide RSum, RowSum, SumSquares, Spread, AllZero, AllEqual, Minus;
    var n := |xs| as real;
    var deviations := Minus(xs, RSum(xs) / n);
    CountAllValid(valid);
    RowSumAll(xs, valid, i, false);
    SpreadIsVariance(xs);
    SumSquaresZero(deviations);
    QuotientSign(SumSquares(deviations), n - 1.0);
    AllEqualIffMean(xs);
  }

  lemma SpreadIsVariance(xs: seq<real>)
    requires |xs| >= 2
    ensures var n := |xs| as real;
            Spread(RSum(xs), SumSquares(xs), n) == SumSquares(Minus(xs, RSum(xs) / n)) / (n - 1.0)
  {
    hide RSum, SumSquares, Minus, Spread, Expanded;
    var n := |xs| as real;
    SumSquaresMinus(xs, RSum(xs) / n);
    VarianceForm(SumSquares(xs), RSum(xs), n);
  }

  lemma {:induction false} SumOfEqual(xs: seq<real>, c: real)
    requires forall i :: 0 <= i < |xs| ==> xs[i] == c
    ensures RSum(xs) == |xs| as real * c
  {
    if |xs| > 0 {
      SumOfEqual(xs[..|xs| - 1], c);
      Distribute((|xs| - 1) as real, 1.0, c);
    }
  }

  lemma AllEqualIffMean(xs: seq<real>)
    requires |xs| > 0
    ensures AllZero(Minus(xs, RSum(xs) / |xs| as real)) <==> AllEqual(xs)
  {
    hide RSum;
    var mean := RSum(xs) / |xs| as real;
    if AllEqual(xs) {
      forall i | 0 <= i < |xs| ensures xs[i] == xs[0] {
      }
      SumOfEqual(xs, xs[0]);
      QuotientTimes(RSum(xs), |xs| as real);
      CancelFactor(|xs| as real, mean, xs[0]);
    }
    if AllZero(Minus(xs, mean)) {
      forall a, b | 0 <= a < b < |xs| ensures xs[a] == xs[b] {
        assert Minus(xs, mean)[a] == 0.0 && Minus(xs, mean)[b] == 0.0;
      }
    }
  }

  // With the mean baseline every response of a prompt has the same standard deviation.
  lemma {:induction false} SameRowSum(xs: seq<real>, valid: seq<bool>, i: nat, j: nat, square: bool)
    requires |valid| == |xs|
    ensures RowSum(xs, valid, i, false, square) == RowSum(xs, valid, j, false, square)
  {
    if |xs| > 0 {
      SameRowSum(xs[..|xs| - 1], valid[..|xs| - 1], i, j, square);
    }
  }

  lemma SameStd(xs: seq<real>, valid: seq<bool>, i: nat, j: nat)
    requires i < |xs| == |valid| && j < |xs|
    ensures SquaredStdOf(xs, valid, i, false) == SquaredStdOf(xs, valid, j, false)
  {
    hide RowSum, Spread;
    SameRowSum(xs, valid, i, j, false);
    SameRowSum(xs, valid, i, j, true);
  }

  // ---------------------------------------------------------------- the standard deviation of leave-one-out

  function Others(xs: seq<real>, i: nat): (r: seq<real>)
    requires i < |xs|
    ensures |r| == |xs| - 1
  {
    xs[..i] + xs[i + 1..]
  }

  lemma {:induction false} SumConcat(a: seq<real>, b: seq<real>)
    ensures RSum(a + b) == RSum(a) + RSum(b)
    ensures SumSquares(a + b) == SumSquares(a) + SumSquares(b)
  {
    hide Square;
    if |b| == 0 {
      assert a + b == a;
    } else {
      var n := |b| - 1;
      SumConcat(a, b[..n]);
      assert (a + b)[..|a + b| - 1] == a + b[..n];
    }
  }

  lemma SumOthers(xs: seq<real>, i: nat)
    requires i < |xs|
    ensures RSum(Others(xs, i)) == RSum(xs) - xs[i]
    ensures SumSquares(Others(xs, i)) == SumSquares(xs) - Square(xs[i])
  {
    hide RSum, SumSquares, Square;
    var a, x, b := xs[..i], xs[i], xs[i + 1..];
    assert xs == (a + [x]) + b;
    SumThree(a, x, b);
    SumConcat(a, b);
  }

  lemma SumThree(a: seq<real>, x: real, b: seq<real>)
    ensures RSum(a + [x] + b) == RSum(a) + x + RSum(b)
    ensures SumSquares(a + [x] + b) == SumSquares(a) + Square(x) + SumSquares(b)
  {
    hide RSum, SumSquares, Square;
    SumConcat(a + [x], b);
    SumConcat(a, [x]);
    SumOne(x);
  }

  lemma SumOne(x: real)
    ensures RSum([x]) == x && SumSquares([x]) == Square(x)
  {
    hide Square;
    assert [x][..0] == [];
  }

  // The leave-one-out std of a response is zero exactly when all the other rewards are equal.
  lemma LeaveOneOutStdZero(xs: seq<real>, valid: seq<bool>, i: nat)
    requires i < |xs| == |valid| && |xs| >= 3 && AllValid(valid)
    ensures SquaredStdOf(xs, valid, i, true).Some? && SquaredStdOf(xs, valid, i, true).value >= 0.0
    ensures SquaredStdOf(xs, valid, i, true).value == 0.0 <==> AllEqual(Others(xs, i))
  {
    hide RSum, RowSum, SumSquares, Spread, AllZero, AllEqual, Minus, Square, Others;
    var others := Others(xs, i);
    var n := |others| as real;
    var deviations := Minus(others, RSum(others) / n);
    CountAllValid(valid);
    RowSumAll(xs, valid, i, true);
    SumOthers(xs, i);
    SpreadIsVariance(others);
    SumSquaresZero(deviations);
    QuotientSign(SumSquares(deviations), n - 1.0);
    AllEqualIffMean(others);
  }

  ghost predicate ZeroStd(xs: seq<real>, valid: seq<bool>, i: nat)
    requires i < |xs| == |valid|
  {
    SquaredStdOf(xs, valid, i, true) == Some(0.0)
  }

  // Under leave-one-out a prompt's responses are kept or dropped together if and only if its rewards
  // are all equal or no single response is the only one that differs.
  lemma LeaveOneOutKeepsTogether(xs: seq<real>, valid: seq<bool>)
    requires |xs| == |valid| && |xs| >= 3 && AllValid(valid)
    ensures (forall i, j :: 0 <= i < |xs| && 0 <= j < |xs| ==> (ZeroStd(xs, valid, i) <==> ZeroStd(xs, valid, j)))
       <==> AllEqual(xs) || forall i :: 0 <= i < |xs| ==> !AllEqual(Others(xs, i))
  {
    hide SquaredStdOf, ZeroStd;
    forall i | 0 <= i < |xs| ensures ZeroStd(xs, valid, i) <==> AllEqual(Others(xs, i)) {
      ZeroStdIs(xs, valid, i);
    }
    if AllEqual(xs) {
      forall i | 0 <= i < |xs| ensures AllEqual(Others(xs, i)) {
      }
    } else if AllEqual(Others(xs, 0)) && AllEqual(Others(xs, 1)) && AllEqual(Others(xs, 2)) {
      EqualOthers(xs);
    }
    hide AllEqual, Others;
  }

  lemma ZeroStdIs(xs: seq<real>, valid: seq<bool>, i: nat)
    requires i < |xs| == |valid| && |xs| >= 3 && AllValid(valid)
    ensures ZeroStd(xs, valid, i) <==> AllEqual(Others(xs, i))
  {
    hide SquaredStdOf, AllEqual, Others;
    LeaveOneOutStdZero(xs, valid, i);
  }

  lemma EqualOthers(xs: seq<real>)
    requires |xs| >= 3 && AllEqual(Others(xs, 0)) && AllEqual(Others(xs, 1))
    ensures AllEqual(xs)
  {
    forall a | 1 <= a < |xs| ensures xs[a] == xs[1] {
      assert Others(xs, 0)[a - 1] == xs[a] && Others(xs, 0)[0] == xs[1];
    }
    assert Others(xs, 1)[0] == xs[0] && Others(xs, 1)[1] == xs[2];
  }

  // Three responses of which one differs: it alone has zero leave-one-out std.
  lemma LeaveOneOutSplits()
    ensures ZeroStd([1.0, 0.0, 0.0], [true, true, true], 0)
    ensures !ZeroStd([1.0, 0.0, 0.0], [true, true, true], 1)
  {
    var xs, valid := [1.0, 0.0, 0.0], [true, true, true];
    assert Others(xs, 0) == [0.0, 0.0] && Others(xs, 1) == [1.0, 0.0];
    assert Others(xs, 1)[0] != Others(xs, 1)[1];
    hide ZeroStd, Others;
    ZeroStdIs(xs, valid, 0);
    ZeroStdIs(xs, valid, 1);
  }

  // ---------------------------------------------------------------- the loop over the prompts

  // The first n positions whose prompt is p.
  function Matching<P(==)>(prompts: seq<P>, p: P, n: nat): (r: seq<nat>)
    requires n <= |prompts|
    ensures Below(r, n)
  {
    if n == 0 then []
    else Matching(prompts, p, n - 1) + if prompts[n - 1] == p then [n - 1] else []
  }

  lemma {:induction false} MatchingMeaning<P>(prompts: seq<P>, p: P, n: nat)
    requires n <= |prompts|
    ensures forall k :: 0 <= k < |Matching(prompts, p, n)| ==> prompts[Matching(prompts, p, n)[k]] == p
    ensures forall a, b :: 0 <= a < b < |Matching(prompts, p, n)| ==> Matching(prompts, p, n)[a] < Matching(prompts, p, n)[b]
  {
    if n > 0 {
      MatchingMeaning(prompts, p, n - 1);
    }
  }

  // Position i of the batch is its rank among the earlier matches.
  lemma {:induction false} RankOf<P>(prompts: seq<P>, i: nat, n: nat)
    requires i < n <= |prompts|
    ensures var k := |Matching(prompts, prompts[i], i)|;
            k < |Matching(prompts, prompts[i], n)| && Matching(prompts, prompts[i], n)[k] == i
    decreases n
  {
    if i < n - 1 {
      RankOf(prompts, i, n - 1);
    }
  }

  // The rewards and the validity of the responses to one prompt.
  function Of<P(==), X>(prompts: seq<P>, p: P, values: seq<X>): (r: seq<X>)
    requires |values| == |prompts|
    ensures |r| == |Matching(prompts, p, |prompts|)|
  {
    Gather(values, Matching(prompts, p, |prompts|))
  }

  function BaselineAt<P(==)>(prompts: seq<P>, rewards: seq<real>, valid: seq<bool>, leaveOut: bool, i: nat): real
    requires i < |prompts| == |rewards| == |valid|
  {
    RankOf(prompts, i, |prompts|);
    BaselineOf(Of(prompts, prompts[i], rewards), Of(prompts, prompts[i], valid), |Matching(prompts, prompts[i], i)|, leaveOut)
  }

  function SquaredStdAt<P(==)>(prompts: seq<P>, rewards: seq<real>, valid: seq<bool>, leaveOut: bool, i: nat): Option<real>
    requires i < |prompts| == |rewards| == |valid|
  {
    RankOf(prompts, i, |prompts|);
    SquaredStdOf(Of(prompts, prompts[i], rewards), Of(prompts, prompts[i], valid), |Matching(prompts, prompts[i], i)|, leaveOut)
  }

  // torch.unique: every prompt of the batch once.
  ghost predicate IsUnique<P>(unique: seq<P>, prompts: seq<P>) {
    && (forall a, b :: 0 <= a < b < |unique| ==> unique[a] != unique[b])
    && (forall i :: 0 <= i < |prompts| ==> prompts[i] in unique)
  }

  method MatchingPositions<P(==)>(prompts: seq<P>, p: P) returns (idx: seq<nat>)
    ensures idx == Matching(prompts, p, |prompts|)
  {
    idx := [];
    for i := 0 to |prompts|
      invariant idx == Matching(prompts, p, i)
    {
      if prompts[i] == p {
        idx := idx + [i];
      }
    }
  }

  // The product of the mask matrix and the valid rewards (or their squares).
  method MatMul(xs: seq<real>, valid: seq<bool>, leaveOut: bool, square: bool) returns (sums: seq<real>)
    requires |valid| == |xs|
    ensures |sums| == |xs| && forall i :: 0 <= i < |xs| ==> sums[i] == RowSum(xs, valid, i, leaveOut, square)
  {
    sums := [];
    for i := 0 to |xs|
      invariant |sums| == i && forall k :: 0 <= k < i ==> sums[k] == RowSum(xs, valid, k, leaveOut, square)
    {
      var sum := 0.0;
      for j := 0 to |xs|
        invariant sum == RowSum(xs[..j], valid[..j], i, leaveOut, square)
      {
        assert xs[..j + 1][..j] == xs[..j] && valid[..j + 1][..j] == valid[..j];
        if !(leaveOut && j == i) {
          sum := sum + Term(xs[j], valid[j], square);
        }
      }
      assert xs[..|xs|] == xs && valid[..|xs|] == valid;
      sums := sums + [sum];
    }
  }

  // The two statistics of one group, as the branches on the number of valid responses give them.
  method GroupStatistics(xs: seq<real>, valid: seq<bool>, leaveOut: bool) returns (baselines: seq<real>, stds: seq<Option<real>>)
    requires |valid| == |xs|
    ensures |baselines| == |stds| == |xs|
    ensures forall i :: 0 <= i < |xs| ==> baselines[i] == BaselineOf(xs, valid, i, leaveOut)
    ensures forall i :: 0 <= i < |xs| ==> stds[i] == SquaredStdOf(xs, valid, i, leaveOut)
  {
    hide RowSum, Spread;
    if CountValid(valid) <= 1 {
      return xs, seq(|xs|, _ => Some(0.0));
    }
    var n := NumValid(valid, leaveOut);
    var sums := MatMul(xs, valid, leaveOut, false);
    var squares := MatMul(xs, valid, leaveOut, true);
    baselines := seq(|xs|, i requires 0 <= i < |xs| && |sums| == |xs| && n != 0 => sums[i] / n as real);
    stds := seq(|xs|, i requires 0 <= i < |xs| && |sums| == |squares| == |xs| && n != 0 =>
                        if n == 1 then None else Some(RootOrZero(Spread(sums[i], squares[i], n as real))));
  }

  // Writes the statistics of one group to its positions.
  method WriteGroup(idx: seq<nat>, baselines: seq<real>, stds: seq<Option<real>>,
                    baseline: array<real>, std: array<Option<real>>)
    requires |idx| == |baselines| == |stds| && baseline.Length == std.Length && Below(idx, baseline.Length)
    requires forall a, b :: 0 <= a < b < |idx| ==> idx[a] < idx[b]
    modifies baseline, std
    ensures forall k :: 0 <= k < |idx| ==> baseline[idx[k]] == baselines[k] && std[idx[k]] == stds[k]
    ensures forall i :: 0 <= i < baseline.Length && i !in idx ==> baseline[i] == old(baseline[i]) && std[i] == old(std[i])
  {
    for k := 0 to |idx|
      invariant forall a :: 0 <= a < k ==> baseline[idx[a]] == baselines[a] && std[idx[a]] == stds[a]
      invariant forall i :: 0 <= i < baseline.Length && i !in idx ==> baseline[i] == old(baseline[i]) && std[i] == old(std[i])
    {
      baseline[idx[k]], std[idx[k]] := baselines[k], stds[k];
    }
  }

  // The statistics of position i are in place.
  ghost predicate Done<P>(prompts: seq<P>, rewards: seq<real>, valid: seq<bool>, leaveOut: bool,
                              baseline: seq<real>, std: seq<Option<real>>, i: nat)
    requires i < |prompts| == |rewards| == |valid| == |baseline| == |std|
  {
    && baseline[i] == BaselineAt(prompts, rewards, valid, leaveOut, i)
    && std[i] == SquaredStdAt(prompts, rewards, valid, leaveOut, i)
  }

  method CalculateBaselineAndStd<P(==)>(prompts: seq<P>, unique: seq<P>, rewards: seq<real>, valid: seq<bool>, leaveOut: bool)
    returns (baseline: array<real>, std: array<Option<real>>)
    requires |rewards| == |valid| == |prompts| && IsUnique(unique, prompts)
    ensures fresh(baseline) && fresh(std) && baseline.Length == std.Length == |prompts|
    ensures forall i :: 0 <= i < |prompts| ==> Done(prompts, rewards, valid, leaveOut, baseline[..], std[..], i)
  {
    hide Done, Matching, BaselineOf, SquaredStdOf;
    baseline := new real[|prompts|](_ => 0.0);
    std := new Option<real>[|prompts|](_ => Some(0.0));
    for u := 0 to |unique|
      invariant forall i :: 0 <= i < |prompts| && prompts[i] in unique[..u] ==>
                  Done(prompts, rewards, valid, leaveOut, baseline[..], std[..], i)
    {
      var p := unique[u];
      var idx := MatchingPositions(prompts, p);
      MatchingMeaning(prompts, p, |prompts|);
      var baselines, stds := GroupStatistics(Gather(rewards, idx), Gather(valid, idx), leaveOut);
      ghost var before, before' := baseline[..], std[..];
      WriteGroup(idx, baselines, stds, baseline, std);
      forall i | 0 <= i < |prompts| && prompts[i] in unique[..u + 1]
        ensures Done(prompts, rewards, valid, leaveOut, baseline[..], std[..], i)
      {
        if prompts[i] == p {
          GroupDone(prompts, rewards, valid, leaveOut, baseline[..], std[..], baselines, stds, i);
        } else {
          KeepsDone(prompts, rewards, valid, leaveOut, before, before', baseline[..], std[..], i, idx);
        }
      }
    }
  }

  lemma GroupDone<P>(prompts: seq<P>, rewards: seq<real>, valid: seq<bool>, leaveOut: bool,
                         baseline: seq<real>, std: seq<Option<real>>, baselines: seq<real>, stds: seq<Option<real>>, i: nat)
    requires i < |prompts| == |rewards| == |valid| == |baseline| == |std|
    requires var idx := Matching(prompts, prompts[i], |prompts|);
             && |baselines| == |stds| == |idx|
             && (forall k :: 0 <= k < |idx| ==> baselines[k] == BaselineOf(Gather(rewards, idx), Gather(valid, idx), k, leaveOut))
             && (forall k :: 0 <= k < |idx| ==> stds[k] == SquaredStdOf(Gather(rewards, idx), Gather(valid, idx), k, leaveOut))
             && (forall k :: 0 <= k < |idx| ==> baseline[idx[k]] == baselines[k] && std[idx[k]] == stds[k])
    ensures Done(prompts, rewards, valid, leaveOut, baseline, std, i)
  {
    hide Matching, BaselineOf, SquaredStdOf;
    RankOf(prompts, i, |prompts|);
  }

  lemma KeepsDone<P>(prompts: seq<P>, rewards: seq<real>, valid: seq<bool>, leaveOut: bool,
                         baseline: seq<real>, std: seq<Option<real>>, baseline': seq<real>, std': seq<Option<real>>,
                         i: nat, idx: seq<nat>)
    requires i < |prompts| == |rewards| == |valid| == |baseline| == |std| == |baseline'| == |std'|
    requires Done(prompts, rewards, valid, leaveOut, baseline, std, i)
    requires forall k :: 0 <= k < |idx| ==> idx[k] < |prompts| && prompts[idx[k]] != prompts[i]
    requires forall j :: 0 <= j < |prompts| && j !in idx ==> baseline'[j] == baseline[j] && std'[j] == std[j]
    ensures Done(prompts, rewards, valid, leaveOut, baseline', std', i)
  {
  }

  // Position by position, the advantages of a prompt's responses are those of its group.
  lemma BatchAdvantages<P>(prompts: seq<P>, rewards: seq<real>, valid: seq<bool>, leaveOut: bool, p: P, k: nat)
    requires |rewards| == |valid| == |prompts| && k < |Matching(prompts, p, |prompts|)|
    ensures var i := Matching(prompts, p, |prompts|)[k];
            && i < |prompts| && prompts[i] == p
            && rewards[i] - BaselineAt(prompts, rewards, valid, leaveOut, i)
               == GroupAdvantages(Of(prompts, p, rewards), Of(prompts, p, valid), leaveOut)[k]
            && SquaredStdAt(prompts, rewards, valid, leaveOut, i)
               == SquaredStdOf(Of(prompts, p, rewards), Of(prompts, p, valid), k, leaveOut)
  {
    hide BaselineOf, SquaredStdOf, Matching;
    var idx := Matching(prompts, p, |prompts|);
    MatchingMeaning(prompts, p, |prompts|);
    RankOf(prompts, idx[k], |prompts|);
    var r := |Matching(prompts, p, idx[k])|;
    assert idx[r] == idx[k];
  }

  // With the mean baseline the responses to one prompt have one standard deviation.
  lemma SamePromptSameStd<P>(prompts: seq<P>, rewards: seq<real>, valid: seq<bool>, i: nat, j: nat)
    requires i < |prompts| == |rewards| == |valid| && j < |prompts| && prompts[i] == prompts[j]
    ensures SquaredStdAt(prompts, rewards, valid, false, i) == SquaredStdAt(prompts, rewards, valid, false, j)
  {
    hide Matching, SquaredStdOf;
    RankOf(prompts, i, |prompts|);
    RankOf(prompts, j, |prompts|);
    SameStd(Of(prompts, prompts[i], rewards), Of(prompts, prompts[i], valid),
            |Matching(prompts, prompts[i], i)|, |Matching(prompts, prompts[j], j)|);
  }

  // ---------------------------------------------------------------- GRPO

  const EPSILON := 0.000001

  // Rewards minus baselines, divided by the std where it is positive, the same for each of the
  // `tokens` tokens of a response.
  method ComputeAdvantage<P(==)>(prompts: seq<P>, unique: seq<P>, rewards: seq<real>, leaveOut: bool, normalize: bool,
                                 root: real -> real, tokens: nat)
    returns (expanded: seq<seq<real>>)
    requires |rewards| == |prompts| && IsUnique(unique, prompts)
    ensures |expanded| == |prompts| && forall i :: 0 <= i < |prompts| ==> |expanded[i]| == tokens
    ensures forall i, t :: 0 <= i < |prompts| && 0 <= t < tokens ==>
              var centred := rewards[i] - BaselineAt(prompts, rewards, Ones(|prompts|), leaveOut, i);
              var std := SquaredStdAt(prompts, rewards, Ones(|prompts|), leaveOut, i);
              if normalize && std.Some? && root(std.value) > 0.0
              then expanded[i][t] * (root(std.value) + 0.000001) == centred
              else expanded[i][t] == centred
  {
    hide BaselineAt, SquaredStdAt;
    var baseline, std := CalculateBaselineAndStd(prompts, unique, rewards, Ones(|prompts|), leaveOut);
    var advantages := new real[|prompts|](_ => 0.0);
    for i := 0 to |prompts|
      invariant forall j :: 0 <= j < i ==>
                  advantages[j] == (rewards[j] - BaselineAt(prompts, rewards, Ones(|prompts|), leaveOut, j))
                                   / Divisor(SquaredStdAt(prompts, rewards, Ones(|prompts|), leaveOut, j), normalize, root)
      invariant forall j :: 0 <= j < |prompts| ==> Done(prompts, rewards, Ones(|prompts|), leaveOut, baseline[..], std[..], j)
    {
      assert Done(prompts, rewards, Ones(|prompts|), leaveOut, baseline[..], std[..], i);
      advantages[i] := (rewards[i] - baseline[i]) / Divisor(std[i], normalize, root);
    }
    var column := advantages[..];
    forall i | 0 <= i < |prompts|
      ensures column[i] * Divisor(SquaredStdAt(prompts, rewards, Ones(|prompts|), leaveOut, i), normalize, root)
           == rewards[i] - BaselineAt(prompts, rewards, Ones(|prompts|), leaveOut, i)
    {
      QuotientTimes(rewards[i] - BaselineAt(prompts, rewards, Ones(|prompts|), leaveOut, i),
                    Divisor(SquaredStdAt(prompts, rewards, Ones(|prompts|), leaveOut, i), normalize, root));
    }
    expanded := seq(|prompts|, i requires 0 <= i < |prompts| && |column| == |prompts| => seq(tokens, _ => column[i]));
  }

  function Ones(n: nat): (r: seq<bool>)
    ensures |r| == n && AllValid(r)
  {
    seq(n, _ => true)
  }

  // 1 where nothing is normalised: the std is zero or not defined.
  function Divisor(squaredStd: Option<real>, normalize: bool, root: real -> real): (d: real)
    ensures d != 0.0
  {
    if normalize && squaredStd.Some? && root(squaredStd.value) > 0.0 then root(squaredStd.value) + EPSILON else 1.0
  }

  // Dividing a whole group by one number.
  function Normalized(xs: seq<real>, d: real): (r: seq<real>)
    requires d != 0.0
    ensures |r| == |xs| && forall i :: 0 <= i < |xs| ==> r[i] == xs[i] / d
  {
    seq(|xs|, i requires 0 <= i < |xs| => xs[i] / d)
  }

  lemma {:induction false} SumNormalized(xs: seq<real>, d: real)
    requires d != 0.0
    ensures RSum(Normalized(xs, d)) == RSum(xs) / d
  {
    if |xs| > 0 {
      var n := |xs| - 1;
      SumNormalized(xs[..n], d);
      NormalizedPrefix(xs, d, n);
      QuotientSum(RSum(xs[..n]), xs[n], d);
    }
  }

  lemma NormalizedPrefix(xs: seq<real>, d: real, n: nat)
    requires d != 0.0 && n <= |xs|
    ensures Normalized(xs, d)[..n] == Normalized(xs[..n], d)
  {
    forall i | 0 <= i < n ensures Normalized(xs, d)[i] == Normalized(xs[..n], d)[i] {
      assert xs[..n][i] == xs[i];
    }
  }

  lemma QuotientSum(x: real, y: real, d: real)
    requires d != 0.0
    ensures (x + y) / d == x / d + y / d
  {
    QuotientTimes(x, d);
    QuotientTimes(y, d);
    QuotientTimes(x + y, d);
    CancelFactor(d, (x + y) / d, x / d + y / d);
  }

  // With the mean baseline the normalised advantages of a prompt still sum to zero: one divisor
  // serves the whole group.
  lemma NormalizedSumToZero(xs: seq<real>, valid: seq<bool>, normalize: bool, root: real -> real, i: nat)
    requires i < |xs| == |valid| && AllValid(valid)
    ensures RSum(Normalized(GroupAdvantages(xs, valid, false), Divisor(SquaredStdOf(xs, valid, i, false), normalize, root))) == 0.0
  {
    hide Divisor, SquaredStdOf, GroupAdvantages, RSum, Normalized;
    var d := Divisor(SquaredStdOf(xs, valid, i, false), normalize, root);
    MeanAdvantagesSumToZero(xs, valid);
    SumNormalized(GroupAdvantages(xs, valid, false), d);
  }

  // ---------------------------------------------------------------- Reinforce++

  // A value for every token of every sample: the sample's, less the token's penalty.
  function TokenAdvantages(samples: seq<real>, tokens: nat, penalty: seq<real>): (r: seq<real>)
    requires tokens > 0 ==> |penalty| == |samples| * tokens
    ensures tokens > 0 ==> |r| == |penalty|
    ensures tokens > 0 ==> forall q :: 0 <= q < |r| ==> 0 <= q / tokens < |samples| && r[q] == samples[q / tokens] - penalty[q]
  {
    if tokens == 0 then []
    else
      RowInRange(|samples|, tokens);
      seq(|penalty|, q requires 0 <= q < |penalty| && 0 <= q / tokens < |samples| => samples[q / tokens] - penalty[q])
  }

  lemma RowInRange(n: nat, tokens: nat)
    requires tokens > 0
    ensures forall q :: 0 <= q < n * tokens ==> 0 <= q / tokens < n
  {
    forall q | 0 <= q < n * tokens ensures 0 <= q / tokens < n {
      Arith.QuotientBelow(q, n, tokens);
    }
  }

  // Sums over the tokens that the mask keeps.
  function MaskedSum(xs: seq<real>, mask: seq<bool>): real
    requires |mask| == |xs|
  {
    if |xs| == 0 then 0.0
    else MaskedSum(xs[..|xs| - 1], mask[..|xs| - 1]) + if mask[|xs| - 1] then xs[|xs| - 1] else 0.0
  }

  function Squares(xs: seq<real>): (r: seq<real>)
    ensures |r| == |xs| && forall i :: 0 <= i < |xs| ==> r[i] == Square(xs[i])
  {
    seq(|xs|, i requires 0 <= i < |xs| => Square(xs[i]))
  }

  lemma {:induction false} MaskedMinus(xs: seq<real>, mask: seq<bool>, b: real)
    requires |mask| == |xs|
    ensures MaskedSum(Minus(xs, b), mask) == MaskedSum(xs, mask) - Product(CountValid(mask) as real, b)
  {
    hide Product;
    if |xs| == 0 {
      ProductStep(0.0, b);
    } else {
      var n := |xs| - 1;
      MaskedMinus(xs[..n], mask[..n], b);
      assert Minus(xs, b)[..n] == Minus(xs[..n], b);
      ProductStep(CountValid(mask[..n]) as real, b);
    }
  }

  lemma ProductStep(n: real, b: real)
    ensures Product(n + 1.0, b) == Product(n, b) + b && Product(0.0, b) == 0.0
  {
  }

  lemma {:induction false} MaskedScale(xs: seq<real>, mask: seq<bool>, c: real)
    requires |mask| == |xs|
    ensures MaskedSum(Scale(xs, c), mask) == Product(c, MaskedSum(xs, mask))
  {
    hide Product;
    if |xs| == 0 {
      ProductZero(c);
    } else {
      var n := |xs| - 1;
      MaskedScale(xs[..n], mask[..n], c);
      ScalePrefix(xs, c, n);
      ProductSum(c, MaskedSum(xs[..n], mask[..n]), xs[n]);
    }
  }

  lemma ProductZero(c: real)
    ensures Product(c, 0.0) == 0.0
  {
  }

  lemma ProductSum(c: real, x: real, y: real)
    ensures Product(c, x + y) == Product(c, x) + Product(c, y)
  {
  }

  lemma SquareOfProduct(c: real, x: real)
    ensures Square(Product(c, x)) == Product(Square(c), Square(x))
  {
  }

  lemma SquaresScale(xs: seq<real>, c: real)
    ensures Squares(Scale(xs, c)) == Scale(Squares(xs), Square(c))
  {
    hide Product, Square;
    forall i | 0 <= i < |xs| ensures Square(Product(c, xs[i])) == Product(Square(c), Square(xs[i])) {
      SquareOfProduct(c, xs[i]);
    }
  }

  const MIN_VARIANCE := 0.00000001

  function AtLeastMin(v: real): real {
    if v < MIN_VARIANCE then MIN_VARIANCE else v
  }

  // rsqrt on positive reals.
  ghost predicate IsReciprocalRoot(rsqrt: real -> real) {
    forall x :: x > 0.0 ==> rsqrt(x) > 0.0 && Product(Square(rsqrt(x)), x) == 1.0
  }

  function MaskedMean(xs: seq<real>, mask: seq<bool>): real
    requires |mask| == |xs| && CountValid(mask) > 0
  {
    MaskedSum(xs, mask) / CountValid(mask) as real
  }

  function MaskedVariance(xs: seq<real>, mask: seq<bool>): real
    requires |mask| == |xs| && CountValid(mask) > 0
  {
    MaskedSum(Squares(Minus(xs, MaskedMean(xs, mask))), mask) / CountValid(mask) as real
  }

  function Standardized(xs: seq<real>, mask: seq<bool>, rsqrt: real -> real): (r: seq<real>)
    requires |mask| == |xs| && CountValid(mask) > 0
    ensures |r| == |xs|
  {
    Scale(Minus(xs, MaskedMean(xs, mask)), rsqrt(AtLeastMin(MaskedVariance(xs, mask))))
  }

  method SumKept(xs: seq<real>, mask: seq<bool>) returns (sum: real)
    requires |mask| == |xs|
    ensures sum == MaskedSum(xs, mask)
  {
    sum := 0.0;
    for i := 0 to |xs|
      invariant sum == MaskedSum(xs[..i], mask[..i])
    {
      assert xs[..i + 1][..i] == xs[..i] && mask[..i + 1][..i] == mask[..i];
      if mask[i] {
        sum := sum + xs[i];
      }
    }
    assert xs[..|xs|] == xs && mask[..|xs|] == mask;
  }

  // The token advantages of Reinforce++: rewards less their mean baseline when asked for, less the
  // KL penalty, then normalised over all kept tokens. None stands for NaN in every place, which is
  // what the divisions by zero give when the mask is empty.
  method ReinforcePlusPlus<P(==)>(
      prompts: seq<P>, unique: seq<P>, rewards: seq<real>, minusBaseline: bool, tokens: nat, penalty: seq<real>,
      mask: seq<bool>, rsqrt: real -> real)
    returns (r: Option<seq<real>>)
    requires |rewards| == |prompts| && IsUnique(unique, prompts)
    requires tokens > 0 && |penalty| == |mask| == |rewards| * tokens
    ensures r.Some? <==> CountValid(mask) > 0
    ensures r.Some? ==> r.value == Standardized(TokenAdvantages(SampleValues(prompts, rewards, minusBaseline), tokens, penalty), mask, rsqrt)
  {
    hide MaskedSum, BaselineAt, SampleValues;
    var samples := rewards;
    if minusBaseline {
      var baseline, std := CalculateBaselineAndStd(prompts, unique, rewards, Ones(|prompts|), false);
      samples := seq(|rewards|, i requires 0 <= i < |rewards| && baseline.Length == |rewards| reads baseline => rewards[i] - baseline[i]);
      forall i | 0 <= i < |rewards| ensures samples[i] == SampleValues(prompts, rewards, minusBaseline)[i] {
        assert Done(prompts, rewards, Ones(|prompts|), false, baseline[..], std[..], i);
      }
    }
    assert samples == SampleValues(prompts, rewards, minusBaseline);
    var adv := TokenAdvantages(samples, tokens, penalty);
    var count := CountValid(mask);
    if count == 0 {
      return None;
    }
    var sum := SumKept(adv, mask);
    var mean := sum / count as real;
    var squares := SumKept(Squares(Minus(adv, mean)), mask);
    var rstd := rsqrt(AtLeastMin(squares / count as real));
    return Some(Scale(Minus(adv, mean), rstd));
  }

  function SampleValues<P(==)>(prompts: seq<P>, rewards: seq<real>, minusBaseline: bool): (r: seq<real>)
    requires |rewards| == |prompts|
    ensures |r| == |rewards|
    ensures minusBaseline ==> forall i :: 0 <= i < |r| ==> r[i] == rewards[i] - BaselineAt(prompts, rewards, Ones(|prompts|), false, i)
    ensures !minusBaseline ==> r == rewards
  {
    if minusBaseline then
      seq(|rewards|, i requires 0 <= i < |rewards| => rewards[i] - BaselineAt(prompts, rewards, Ones(|prompts|), false, i))
    else rewards
  }

  // Standardising moves all tokens together and stretches their distances by one positive factor, the
  // reciprocal root of the variance, clamped at 1e-8.
  lemma StandardizedDistances(xs: seq<real>, mask: seq<bool>, rsqrt: real -> real, p: nat, q: nat)
    requires |mask| == |xs| && CountValid(mask) > 0 && IsReciprocalRoot(rsqrt) && p < |xs| && q < |xs|
    ensures var r, v := Standardized(xs, mask, rsqrt), MaskedVariance(xs, mask);
            && (xs[p] < xs[q] <==> r[p] < r[q])
            && (r[p] - r[q]) * (r[p] - r[q]) * (if v < 0.00000001 then 0.00000001 else v) == (xs[p] - xs[q]) * (xs[p] - xs[q])
  {
    hide MaskedMean, MaskedVariance, CountValid, IsReciprocalRoot, Standardized, Product;
    var v := AtLeastMin(MaskedVariance(xs, mask));
    var mean, c := MaskedMean(xs, mask), rsqrt(v);
    ReciprocalRootOf(rsqrt, v);
    StandardizedAt(xs, mask, rsqrt, p);
    StandardizedAt(xs, mask, rsqrt, q);
    Stretched(xs[p] - mean, xs[q] - mean, c, v);
  }

  lemma ReciprocalRootOf(rsqrt: real -> real, v: real)
    requires IsReciprocalRoot(rsqrt) && v > 0.0
    ensures rsqrt(v) > 0.0 && rsqrt(v) * rsqrt(v) * v == 1.0
  {
    assert Product(Square(rsqrt(v)), v) == 1.0;
  }

  lemma StandardizedAt(xs: seq<real>, mask: seq<bool>, rsqrt: real -> real, p: nat)
    requires |mask| == |xs| && CountValid(mask) > 0 && p < |xs|
    ensures Standardized(xs, mask, rsqrt)[p]
         == Product(rsqrt(AtLeastMin(MaskedVariance(xs, mask))), xs[p] - MaskedMean(xs, mask))
  {
    hide MaskedMean, MaskedVariance, AtLeastMin, Product, CountValid;
  }

  lemma Stretched(x: real, y: real, c: real, v: real)
    requires c > 0.0 && c * c * v == 1.0
    ensures x < y <==> Product(c, x) < Product(c, y)
    ensures (Product(c, x) - Product(c, y)) * (Product(c, x) - Product(c, y)) * v == (x - y) * (x - y)
  {
    var d := x - y;
    assert c * x - c * y == c * d;
    if x < y { ScaleLess(x, y, c); }
    if y < x { ScaleLess(y, x, c); }
    assert (c * d) * (c * d) == (c * c) * (d * d);
    assert (c * c) * (d * d) * v == (c * c * v) * (d * d);
  }

  lemma ScaleLess(x: real, y: real, c: real)
    requires c > 0.0 && x < y
    ensures c * x < c * y
  {
  }

  // Over the kept tokens the mean is 0 and the second moment is the ratio of the variance to its
  // clamped value: at most 1, and 1 exactly when the clamp does not bite.
  lemma StandardizedMoments(xs: seq<real>, mask: seq<bool>, rsqrt: real -> real)
    requires |mask| == |xs| && CountValid(mask) > 0 && IsReciprocalRoot(rsqrt)
    ensures MaskedMean(Standardized(xs, mask, rsqrt), mask) == 0.0
    ensures 0.0 <= SecondMoment(Standardized(xs, mask, rsqrt), mask) <= 1.0
    ensures SecondMoment(Standardized(xs, mask, rsqrt), mask) == 1.0 <==> MaskedVariance(xs, mask) >= 0.00000001
  {
    hide MaskedSum, CountValid, Product, Square, MaskedVariance, MaskedMean, SecondMoment, Standardized;
    ZeroMean(xs, mask, rsqrt);
    SecondMomentIs(xs, mask, rsqrt);
    var v := MaskedVariance(xs, mask);
    VarianceNonNegative(xs, mask);
    SquareZero(rsqrt(AtLeastMin(v)));
    ClampedRatio(Square(rsqrt(AtLeastMin(v))), v);
  }

  function SecondMoment(xs: seq<real>, mask: seq<bool>): real
    requires |mask| == |xs| && CountValid(mask) > 0
  {
    MaskedSum(Squares(xs), mask) / CountValid(mask) as real
  }

  lemma ZeroMean(xs: seq<real>, mask: seq<bool>, rsqrt: real -> real)
    requires |mask| == |xs| && CountValid(mask) > 0
    ensures MaskedMean(Standardized(xs, mask, rsqrt), mask) == 0.0
  {
    hide MaskedSum, CountValid, Product, MaskedVariance;
    var rstd := rsqrt(AtLeastMin(MaskedVariance(xs, mask)));
    CenteredSum(xs, mask);
    MaskedScale(Minus(xs, MaskedMean(xs, mask)), mask, rstd);
    ProductZero(rstd);
    ZeroQuotient(CountValid(mask) as real);
  }

  lemma ZeroQuotient(n: real)
    requires n != 0.0
    ensures 0.0 / n == 0.0
  {
  }

  lemma SecondMomentIs(xs: seq<real>, mask: seq<bool>, rsqrt: real -> real)
    requires |mask| == |xs| && CountValid(mask) > 0
    ensures SecondMoment(Standardized(xs, mask, rsqrt), mask)
         == Product(Square(rsqrt(AtLeastMin(MaskedVariance(xs, mask)))), MaskedVariance(xs, mask))
  {
    hide MaskedSum, CountValid, Product, Square, AtLeastMin, MaskedMean;
    var centered, rstd := Minus(xs, MaskedMean(xs, mask)), rsqrt(AtLeastMin(MaskedVariance(xs, mask)));
    SquaresScale(centered, rstd);
    MaskedScale(Squares(centered), mask, Square(rstd));
    ProductQuotient(Square(rstd), MaskedSum(Squares(centered), mask), CountValid(mask) as real);
  }

  lemma CenteredSum(xs: seq<real>, mask: seq<bool>)
    requires |mask| == |xs| && CountValid(mask) > 0
    ensures MaskedSum(Minus(xs, MaskedMean(xs, mask)), mask) == 0.0
  {
    hide MaskedSum, CountValid;
    var mean := MaskedMean(xs, mask);
    MaskedMinus(xs, mask, mean);
    QuotientTimes(MaskedSum(xs, mask), CountValid(mask) as real);
  }

  lemma ProductQuotient(c: real, x: real, n: real)
    requires n != 0.0
    ensures Product(c, x) / n == Product(c, x / n)
  {
    QuotientTimes(c * x, n);
    QuotientTimes(x, n);
    QuotientScaled(c, x / n, x, n);
    CancelFactor(n, Product(c, x) / n, Product(c, x / n));
  }

  lemma QuotientScaled(c: real, q: real, x: real, n: real)
    requires n * q == x
    ensures n * (c * q) == c * x
  {
    assert n * (c * q) == c * (n * q);
  }

  lemma {:induction false} MaskedSquaresNonNegative(xs: seq<real>, mask: seq<bool>)
    requires |mask| == |xs|
    ensures MaskedSum(Squares(xs), mask) >= 0.0
  {
    if |xs| > 0 {
      var n := |xs| - 1;
      MaskedSquaresNonNegative(xs[..n], mask[..n]);
      assert Squares(xs)[..n] == Squares(xs[..n]);
      SquareZero(xs[n]);
    }
  }

  lemma VarianceNonNegative(xs: seq<real>, mask: seq<bool>)
    requires |mask| == |xs| && CountValid(mask) > 0
    ensures MaskedVariance(xs, mask) >= 0.0
  {
    hide MaskedSum, CountValid;
    MaskedSquaresNonNegative(Minus(xs, MaskedMean(xs, mask)), mask);
    QuotientSign(MaskedSum(Squares(Minus(xs, MaskedMean(xs, mask))), mask), CountValid(mask) as real);
  }

  // s is the reciprocal of the clamped variance.
  lemma ClampedRatio(s: real, v: real)
    requires v >= 0.0 && s >= 0.0 && Product(s, AtLeastMin(v)) == 1.0
    ensures 0.0 <= Product(s, v) <= 1.0 && (Product(s, v) == 1.0 <==> v >= MIN_VARIANCE)
  {
    var m := AtLeastMin(v);
    if v < MIN_VARIANCE {
      hide Product;
      SmallerProduct(s, v, m);
    }
  }

  lemma SmallerProduct(s: real, v: real, m: real)
    requires s >= 0.0 && 0.0 <= v < m && Product(s, m) == 1.0
    ensures 0.0 <= Product(s, v) < 1.0
  {
    if s > 0.0 {
      PositiveProduct(s, m - v);
    }
    if s > 0.0 && v > 0.0 {
      PositiveProduct(s, v);
    }
    ProductSum(s, m - v, v);
  }
}
