/** `_normalize_scores`: per-source Z-score standardisation.  Lists of fewer
    than two items and lists whose scores all coincide are left alone;
    otherwise every score x becomes (x - mean) / std, with numpy's population
    standard deviation. */
module ScoreNormalization {
  import opened Schema
  import opened Stats

  /** `[r.score for r in results]` */
  function Scores(items: seq<ResultItem>): (r: seq<real>)
    ensures |r| == |items|
    ensures forall i :: 0 <= i < |items| ==> r[i] == items[i].score
  {
    seq(|items|, i requires 0 <= i < |items| => items[i].score)
  }

  /** Standard deviation of the scores, through the given square root. */
  function StdDev(items: seq<ResultItem>, sqrt: real -> real): real
    requires |items| > 0
  {
    sqrt(Variance(Scores(items)))
  }

  /** Every item with its score replaced by (score - m) / sd. */
  function Rescored(items: seq<ResultItem>, m: real, sd: real): (r: seq<ResultItem>)
    requires sd != 0.0
    ensures |r| == |items|
    ensures forall i :: 0 <= i < |items| ==> SameButScore(r[i], items[i])
  {
    seq(|items|, i requires 0 <= i < |items| => items[i].(score := (items[i].score - m) / sd))
  }

  /** The list `_normalize_scores` leaves behind. */
  function Normalized(items: seq<ResultItem>, sqrt: real -> real): seq<ResultItem> {
    if |items| < 2 then items
    else
      var sd := StdDev(items, sqrt);
      if sd == 0.0 then items else Rescored(items, Mean(Scores(items)), sd)
  }

  /** The standard deviation is zero exactly when all the scores are equal,
      and positive otherwise. */
  lemma StdDevZero(items: seq<ResultItem>, sqrt: real -> real)
    requires IsSqrt(sqrt) && |items| > 0
    ensures StdDev(items, sqrt) >= 0.0
    ensures StdDev(items, sqrt) == 0.0 <==> AllEqual(Scores(items))
  {
    VarianceZero(Scores(items));
  }

  /** Normalisation keeps the length, the order of the items and every field
      but the score. */
  lemma NormalizedShape(items: seq<ResultItem>, sqrt: real -> real)
    ensures |Normalized(items, sqrt)| == |items|
    ensures forall i :: 0 <= i < |items| ==> SameButScore(Normalized(items, sqrt)[i], items[i])
  {
  }

  /** A list of fewer than two items, or one whose scores all coincide, is
      returned unchanged; any other list is standardised with a positive
      standard deviation. */
  lemma NormalizedCases(items: seq<ResultItem>, sqrt: real -> real)
    requires IsSqrt(sqrt)
    ensures (|items| < 2 || AllEqual(Scores(items))) ==> Normalized(items, sqrt) == items
    ensures !(|items| < 2 || AllEqual(Scores(items))) ==>
      && StdDev(items, sqrt) > 0.0
      && Normalized(items, sqrt) == Rescored(items, Mean(Scores(items)), StdDev(items, sqrt))
  {
    if |items| >= 2 {
      StdDevZero(items, sqrt);
    }
  }

  lemma DivideByPositive(a: real, b: real, d: real)
    requires d > 0.0
    ensures a < b <==> a / d < b / d
    ensures a == b <==> a / d == b / d
    ensures a / d > 0.0 <==> a > 0.0
  {
  }

  /** Standardising keeps the relative order of any two scores, ties included. */
  lemma NormalizedOrder(items: seq<ResultItem>, sqrt: real -> real, i: int, j: int)
    requires IsSqrt(sqrt)
    requires 0 <= i < |items| && 0 <= j < |items|
    ensures items[i].score < items[j].score <==> Normalized(items, sqrt)[i].score < Normalized(items, sqrt)[j].score
    ensures items[i].score == items[j].score <==> Normalized(items, sqrt)[i].score == Normalized(items, sqrt)[j].score
  {
    NormalizedCases(items, sqrt);
    if !(|items| < 2 || AllEqual(Scores(items))) {
      var m := Mean(Scores(items));
      DivideByPositive(items[i].score - m, items[j].score - m, StdDev(items, sqrt));
    }
  }

  /** After standardising, a score is positive exactly when it was above the
      list's mean. */
  lemma NormalizedSign(items: seq<ResultItem>, sqrt: real -> real, i: int)
    requires IsSqrt(sqrt)
    requires 0 <= i < |items| && |items| >= 2 && !AllEqual(Scores(items))
    ensures Normalized(items, sqrt)[i].score > 0.0 <==> items[i].score > Mean(Scores(items))
  {
    NormalizedCases(items, sqrt);
    DivideByPositive(items[i].score - Mean(Scores(items)), 0.0, StdDev(items, sqrt));
  }

  lemma RescoredScores(items: seq<ResultItem>, m: real, sd: real)
    requires sd != 0.0
    ensures Scores(Rescored(items, m, sd)) == Standardized(Scores(items), m, sd)
  {
  }

  /** Standardised scores are centred: their mean is zero. */
  lemma NormalizedMeanZero(items: seq<ResultItem>, sqrt: real -> real)
    requires IsSqrt(sqrt)
    requires |items| >= 2 && !AllEqual(Scores(items))
    ensures Mean(Scores(Normalized(items, sqrt))) == 0.0
  {
    NormalizedCases(items, sqrt);
    var m := Mean(Scores(items));
    RescoredScores(items, m, StdDev(items, sqrt));
    StandardizedMeanZero(Scores(items), StdDev(items, sqrt));
  }

  /** Standardised scores have unit (population) variance. */
  lemma NormalizedUnitVariance(items: seq<ResultItem>, sqrt: real -> real)
    requires IsSqrt(sqrt)
    requires |items| >= 2 && !AllEqual(Scores(items))
    ensures Variance(Scores(Normalized(items, sqrt))) == 1.0
  {
    NormalizedCases(items, sqrt);
    var scores := Scores(items);
    var sd := StdDev(items, sqrt);
    VarianceZero(scores);
    assert sd * sd == Variance(scores);
    RescoredScores(items, Mean(scores), sd);
    StandardizedVarianceOne(scores, sd);
  }

  /** In place over the shared result objects: the scores are read, then each
      item's score is rewritten in turn. */
  method NormalizeScores(a: array<ResultItem>, sqrt: real -> real)
    modifies a
    ensures a[..] == Normalized(old(a[..]), sqrt)
  {
    if a.Length < 2 {
      return;
    }
    var scores := Scores(a[..]);
    var mean := Mean(scores);
    var std := sqrt(Variance(scores));
    if std == 0.0 {
      return;
    }
    for i := 0 to a.Length
      invariant a[..i] == Rescored(old(a[..]), mean, std)[..i]
      invariant a[i..] == old(a[..])[i..]
    {
      a[i] := a[i].(score := (a[i].score - mean) / std);
      assert a[..i + 1] == a[..i] + [a[i]];
    }
    assert a[..] == a[..a.Length];
  }
}
