/** Mean and population variance of a list of scores, as numpy's `mean`
    and `std` (with its default ddof = 0) compute them, over exact reals.
    The square root is not definable here; it is a parameter constrained by
    `IsSqrt`. */
module Stats {

  function Sum(s: seq<real>): real {
    if s == [] then 0.0 else s[0] + Sum(s[1..])
  }

  function Mean(s: seq<real>): real
    requires |s| > 0
  {
    Sum(s) / (|s| as real)
  }

  /** Sum of squared deviations from `m`. */
  function SquaredDeviation(s: seq<real>, m: real): real {
    if s == [] then 0.0 else (s[0] - m) * (s[0] - m) + SquaredDeviation(s[1..], m)
  }

  /** Population variance: the mean squared deviation from the mean. */
  function Variance(s: seq<real>): real
    requires |s| > 0
  {
    SquaredDeviation(s, Mean(s)) / (|s| as real)
  }

  /** What is assumed of numpy's square root on the non-negative reals: it is
      never negative, it is zero exactly at zero, and it squares back to its
      argument. */
  ghost predicate IsSqrt(sqrt: real -> real) {
    forall v :: 0.0 <= v ==> 0.0 <= sqrt(v) && (sqrt(v) == 0.0 <==> v == 0.0) && sqrt(v) * sqrt(v) == v
  }

  predicate AllEqual(s: seq<real>) {
    forall i :: 0 <= i < |s| ==> s[i] == s[0]
  }

  function Abs(x: real): real { if x >= 0.0 then x else -x }

  function Magnitude(x: real): real { if x < 0.0 then 0.0 - x else x }

  /** A non-zero value has a positive square, stated through the product of
      two separately defined magnitudes, a form the arithmetic solver keeps
      apart from the square itself. */
  lemma SquarePositive(x: real)
    requires x != 0.0
    ensures x * x == Abs(x) * Magnitude(x)
    ensures Abs(x) * Magnitude(x) > 0.0
  {
    ProductPositive(Abs(x), Magnitude(x));
    if x < 0.0 {
      assert Abs(x) == -x && Magnitude(x) == -x;
    }
  }

  lemma ProductPositive(a: real, b: real)
    requires a > 0.0 && b > 0.0
    ensures a * b > 0.0
  {
  }

  lemma SquareNonNegative(x: real)
    ensures x * x >= 0.0
  {
  }

  /** The squared deviation is never negative, and positive as soon as one
      value differs from `m`. */
  lemma {:induction false} SquaredDeviationPositive(s: seq<real>, m: real)
    ensures SquaredDeviation(s, m) >= 0.0
    ensures (exists i :: 0 <= i < |s| && s[i] != m) ==> SquaredDeviation(s, m) > 0.0
  {
    if s != [] {
      SquaredDeviationPositive(s[1..], m);
      var d := s[0] - m;
      var rest := SquaredDeviation(s[1..], m);
      assert SquaredDeviation(s, m) == d * d + rest;
      if d != 0.0 {
        SquarePositive(d);
      } else {
        SquareNonNegative(d);
        if exists i :: 0 <= i < |s| && s[i] != m {
          var i :| 0 <= i < |s| && s[i] != m;
          assert s[1..][i - 1] != m;
        }
      }
    }
  }

  /** Values all equal to `m` have no squared deviation from it. */
  lemma {:induction false} SquaredDeviationZero(s: seq<real>, m: real)
    requires forall i :: 0 <= i < |s| ==> s[i] == m
    ensures SquaredDeviation(s, m) == 0.0
  {
    if s != [] {
      forall i | 0 <= i < |s| - 1 ensures s[1..][i] == m {
        assert s[1..][i] == s[i + 1];
      }
      SquaredDeviationZero(s[1..], m);
      var d := s[0] - m;
      assert d == 0.0;
      assert d * d == 0.0;
    }
  }

  lemma {:induction false} SumConstant(s: seq<real>, c: real)
    requires forall i :: 0 <= i < |s| ==> s[i] == c
    ensures Sum(s) == (|s| as real) * c
  {
    if s != [] {
      forall i | 0 <= i < |s| - 1 ensures s[1..][i] == c {
        assert s[1..][i] == s[i + 1];
      }
      SumConstant(s[1..], c);
    }
  }

  /** The variance is never negative, and it is zero exactly when all the
      values are equal. */
  lemma VarianceZero(s: seq<real>)
    requires |s| > 0
    ensures Variance(s) >= 0.0
    ensures Variance(s) == 0.0 <==> AllEqual(s)
  {
    var n := |s| as real;
    var m := Mean(s);
    var d := SquaredDeviation(s, m);
    SquaredDeviationPositive(s, m);
    if AllEqual(s) {
      SumConstant(s, s[0]);
      CancelFactor(s[0], n);
      SquaredDeviationZero(s, m);
    } else {
      var i :| 0 <= i < |s| && s[i] != s[0];
      if s[i] != m {
        assert exists j :: 0 <= j < |s| && s[j] != m;
      } else {
        assert s[0] != m;
      }
    }
    QuotientSign(d, n);
  }

  lemma CancelFactor(c: real, n: real)
    requires n > 0.0
    ensures (n * c) / n == c
  {
  }

  /** Dividing by a positive number keeps the sign. */
  lemma QuotientSign(a: real, n: real)
    requires n > 0.0
    ensures a >= 0.0 ==> a / n >= 0.0
    ensures a == 0.0 <==> a / n == 0.0
  {
  }

  /** Every value shifted by `m`. */
  function Deviations(s: seq<real>, m: real): (r: seq<real>)
    ensures |r| == |s|
  {
    seq(|s|, i requires 0 <= i < |s| => s[i] - m)
  }

  /** Every value divided by `sd`. */
  function Scaled(s: seq<real>, sd: real): (r: seq<real>)
    requires sd != 0.0
    ensures |r| == |s|
  {
    seq(|s|, i requires 0 <= i < |s| => s[i] / sd)
  }

  /** Every value shifted by `m` and scaled by `1 / sd`. */
  function Standardized(s: seq<real>, m: real, sd: real): (r: seq<real>)
    requires sd != 0.0
    ensures |r| == |s|
    ensures forall i :: 0 <= i < |s| ==> r[i] == (s[i] - m) / sd
  {
    Scaled(Deviations(s, m), sd)
  }

  lemma SumOfQuotients(a: real, b: real, d: real)
    requires d != 0.0
    ensures a / d + b / d == (a + b) / d
  {
  }

  /** Shifting every value by `m` shifts the sum by n * m. */
  lemma {:induction false} SumDeviations(s: seq<real>, m: real)
    ensures Sum(Deviations(s, m)) == Sum(s) - (|s| as real) * m
  {
    if s != [] {
      var k := (|s| - 1) as real;
      assert Deviations(s, m)[1..] == Deviations(s[1..], m);
      SumDeviations(s[1..], m);
      assert (|s| as real) * m == k * m + m;
    }
  }

  /** Dividing every value by `sd` divides the sum by `sd`. */
  lemma {:induction false} SumScaled(s: seq<real>, sd: real)
    requires sd != 0.0
    ensures Sum(Scaled(s, sd)) == Sum(s) / sd
  {
    if s != [] {
      assert Scaled(s, sd)[1..] == Scaled(s[1..], sd);
      SumScaled(s[1..], sd);
      SumOfQuotients(s[0], Sum(s[1..]), sd);
    }
  }

  /** Values standardised about their own mean have mean zero. */
  lemma StandardizedMeanZero(s: seq<real>, sd: real)
    requires |s| > 0 && sd != 0.0
    ensures Mean(Standardized(s, Mean(s), sd)) == 0.0
  {
    var n := |s| as real;
    var m := Mean(s);
    var d := Deviations(s, m);
    assert n * m == Sum(s);
    SumDeviations(s, m);
    assert Sum(d) == 0.0;
    SumScaled(d, sd);
    assert Standardized(s, m, sd) == Scaled(d, sd);
    assert Sum(Standardized(s, m, sd)) == 0.0;
  }

  /** The square of a quotient is the quotient of the squares. */
  lemma QuotientSquare(x: real, sd: real)
    requires sd != 0.0
    ensures (x / sd) * (x / sd) == (x * x) / (sd * sd)
    ensures (x / sd - 0.0) * (x / sd - 0.0) == ((x - 0.0) * (x - 0.0)) / (sd * sd)
  {
    var q := x / sd;
    var sq := sd * sd;
    SquarePositive(sd);
    assert q * sd == x;
    ProductOfSquares(q, sd);
    assert (q * q) * sq == x * x;
    CancelFactor(q * q, sq);
    assert x / sd - 0.0 == x / sd && x - 0.0 == x;
  }

  lemma ProductOfSquares(a: real, b: real)
    ensures (a * a) * (b * b) == (a * b) * (a * b)
  {
  }

  /** Shifting every value by `m` turns deviations from `m` into deviations
      from zero. */
  lemma {:induction false} SquaredDeviationShift(s: seq<real>, m: real)
    ensures SquaredDeviation(Deviations(s, m), 0.0) == SquaredDeviation(s, m)
  {
    if s != [] {
      assert Deviations(s, m)[1..] == Deviations(s[1..], m);
      SquaredDeviationShift(s[1..], m);
      assert Deviations(s, m)[0] - 0.0 == s[0] - m;
    }
  }

  /** The squared deviation of one value from `m`. */
  function DeviationSquare(x: real, m: real): real {
    (x - m) * (x - m)
  }

  /** The squares of the deviations from `m`, one per value. */
  function SquaresAbout(s: seq<real>, m: real): (r: seq<real>)
    ensures |r| == |s|
    ensures forall i :: 0 <= i < |s| ==> r[i] == DeviationSquare(s[i], m)
  {
    seq(|s|, i requires 0 <= i < |s| => DeviationSquare(s[i], m))
  }

  /** The squared deviation is the sum of the squares. */
  lemma {:induction false} SquaredDeviationSum(s: seq<real>, m: real)
    ensures SquaredDeviation(s, m) == Sum(SquaresAbout(s, m))
  {
    if s != [] {
      assert SquaresAbout(s, m)[1..] == SquaresAbout(s[1..], m);
      SquaredDeviationSum(s[1..], m);
    }
  }

  /** Dividing every value by `sd` divides the squared deviation from zero by
      the square of `sd`. */
  lemma SquaredDeviationScaled(s: seq<real>, sd: real, v: real)
    requires sd != 0.0 && v > 0.0 && sd * sd == v
    ensures SquaredDeviation(Scaled(s, sd), 0.0) == SquaredDeviation(s, 0.0) / v
  {
    var t := Scaled(s, sd);
    var squares := SquaresAbout(s, 0.0);
    forall i | 0 <= i < |s| ensures SquaresAbout(t, 0.0)[i] == Scaled(squares, v)[i] {
      QuotientSquareBy(s[i], sd, v);
    }
    assert SquaresAbout(t, 0.0) == Scaled(squares, v);
    SquaredDeviationSum(t, 0.0);
    SquaredDeviationSum(s, 0.0);
    SumScaled(squares, v);
  }

  /** The square of x / sd deviates from zero by x's square over v = sd². */
  lemma QuotientSquareBy(x: real, sd: real, v: real)
    requires sd != 0.0 && v > 0.0 && sd * sd == v
    ensures DeviationSquare(x / sd, 0.0) == DeviationSquare(x, 0.0) / v
  {
    QuotientSquare(x, sd);
  }

  /** Dividing twice is dividing by the product. */
  lemma DivideTwice(a: real, n: real, v: real)
    requires n > 0.0 && v > 0.0
    ensures (a / v) / n == (a / n) / v
  {
  }

  /** Values standardised about their own mean by a square root of their
      variance have variance one. */
  lemma StandardizedVarianceOne(s: seq<real>, sd: real)
    requires |s| > 0 && sd != 0.0
    requires sd * sd == Variance(s)
    ensures Variance(Standardized(s, Mean(s), sd)) == 1.0
  {
    var n := |s| as real;
    var m := Mean(s);
    var t := Standardized(s, m, sd);
    StandardizedMeanZero(s, sd);
    assert Mean(t) == 0.0;
    assert t == Scaled(Deviations(s, m), sd);
    var v := Variance(s);
    SquarePositive(sd);
    assert v > 0.0;
    SquaredDeviationScaled(Deviations(s, m), sd, v);
    SquaredDeviationShift(s, m);
    assert SquaredDeviation(t, 0.0) == SquaredDeviation(s, m) / v;
    DivideTwice(SquaredDeviation(s, m), n, v);
    assert Variance(t) == v / v;
  }
}
