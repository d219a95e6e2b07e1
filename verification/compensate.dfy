/**
 * The "division by 0 Chart.js" compensation: a full level window whose
 * samples sum to zero, or whose mean equals its oldest sample, has its
 * newest sample nudged up by 0.1 so the chart's value range is not empty.
 * It is a rendering workaround, not a statistical correction.
 */
module Compensation {
  import opened PyNum
  import opened Window

  /** Index of the newest sample of a full level window. */
  const Newest: nat := LevelCap - 1

  /** How much the compensation can add to the newest sample: nothing, one bump or two. */
  predicate IsNudge(d: real) {
    d == 0.0 || d == 0.1 || d == 0.2
  }

  /** Every sample has the value of the oldest one: the chart would be a flat line. */
  predicate Flat(w: seq<Num>) {
    |w| > 0 && AllEqual(w, Val(w[0]))
  }

  /**
   * `if sum(w) == 0: w[9] += 0.1`, then, with the updated sum,
   * `if sum(w) / 10 == w[0]: w[9] += 0.1`; only for a window of exactly ten.
   */
  function Compensate(w: seq<Num>): (r: seq<Num>)
    ensures |r| == |w|
    ensures forall k :: 0 <= k < |w| && k != Newest ==> r[k] == w[k]
    ensures |w| != LevelCap ==> r == w
    ensures |w| == LevelCap ==>
              IsNudge(Val(r[Newest]) - Val(w[Newest]))
    ensures |w| == LevelCap && Val(Sum(w)) != 0.0 && Val(DivBy(Sum(w), LevelCap)) != Val(w[0]) ==>
              r == w
    ensures |w| == LevelCap && Val(Sum(w)) != 0.0 && Val(DivBy(Sum(w), LevelCap)) == Val(w[0]) ==>
              Val(r[Newest]) == Val(w[Newest]) + 0.1
  {
    if |w| != LevelCap then w
    else
      var w1 := if Val(Sum(w)) == 0.0 then w[Newest := Bump(w[Newest])] else w;
      if Val(DivBy(Sum(w1), LevelCap)) == Val(w1[0]) then w1[Newest := Bump(w1[Newest])] else w1
  }

  /** The value of the sum of a full window, split at its newest sample. */
  lemma SumOfFull(w: seq<Num>)
    requires |w| == LevelCap
    ensures Val(Sum(w)) == Val(Sum(w[..Newest])) + Val(w[Newest])
  {
    assert w == w[..Newest] + [w[Newest]];
    SumSnoc(w[..Newest], w[Newest]);
  }

  /**
   * A full window summing to zero gets 0.1 added to its newest sample, and
   * a second 0.1 exactly when its oldest sample is 0.01 (the mean after the
   * first bump).
   */
  lemma CompensateZeroSum(w: seq<Num>)
    requires |w| == LevelCap && Val(Sum(w)) == 0.0
    ensures Val(Compensate(w)[Newest])
            == Val(w[Newest]) + (if Val(w[0]) == 0.01 then 0.2 else 0.1)
  {
    var w1 := w[Newest := Bump(w[Newest])];
    SumOfFull(w);
    SumOfFull(w1);
    assert w1[..Newest] == w[..Newest];
    SumIsInt(w1);
    assert !w1[Newest].Int?;
    assert Val(Sum(w1)) == 0.1;
    assert Val(DivBy(Sum(w1), LevelCap)) == 0.01;
  }

  /**
   * A full flat window of value `c` keeps every sample but the newest, which
   * becomes `c + 0.1`, whether `c` is zero or not.
   */
  lemma CompensateFlat(w: seq<Num>)
    requires |w| == LevelCap && Flat(w)
    ensures Compensate(w)[..Newest] == w[..Newest]
    ensures Val(Compensate(w)[Newest]) == Val(w[0]) + 0.1
  {
    var c := Val(w[0]);
    SumAllEqual(w, c);
    if c == 0.0 {
      CompensateZeroSum(w);
    } else {
      FlatMeanIsOldest(w);
    }
  }

  /** A full flat window's mean, computed as the source does, is its oldest sample. */
  lemma FlatMeanIsOldest(w: seq<Num>)
    requires |w| == LevelCap && Flat(w)
    ensures Val(DivBy(Sum(w), LevelCap)) == Val(w[0])
  {
    var c := Val(w[0]);
    SumAllEqual(w, c);
    SumIsInt(w);
    if Sum(w).Int? {
      assert w[0].Int?;
      assert Sum(w).i == 10 * w[0].i;
    }
  }

  /**
   * The point of the compensation: a full window is never left flat, so the
   * chart always has a non-empty value range.
   */
  lemma CompensateNeverFlat(w: seq<Num>)
    requires |w| == LevelCap
    ensures !Flat(Compensate(w))
  {
    var w1 := if Val(Sum(w)) == 0.0 then w[Newest := Bump(w[Newest])] else w;
    if Val(DivBy(Sum(w1), LevelCap)) == Val(w1[0]) {
      SecondBumpNeverFlat(w1);
    } else if Flat(w1) {
      FlatMeanIsOldest(w1);
      assert false;
    }
  }

  /**
   * A window bumped because its mean equals its oldest sample is not flat:
   * were it flat, the sum before the bump would be ten times the oldest
   * sample less 0.1, and its mean could not equal that sample.
   */
  lemma SecondBumpNeverFlat(w: seq<Num>)
    requires |w| == LevelCap
    requires Val(DivBy(Sum(w), LevelCap)) == Val(w[0])
    ensures !Flat(w[Newest := Bump(w[Newest])])
  {
    var r := w[Newest := Bump(w[Newest])];
    if Flat(r) {
      var c := Val(r[0]);
      assert AllEqual(w[..Newest], c) by {
        forall k | 0 <= k < Newest ensures Val(w[..Newest][k]) == c {
          assert w[k] == r[k];
        }
      }
      SumAllEqual(w[..Newest], c);
      SumOfFull(w);
      SumIsInt(w);
      assert false;
    }
  }

  /**
   * The mean is taken with floor division while every sample is an int, so
   * a window that is far from flat can still have its mean equal its oldest
   * sample: nine 5s and a 14 sum to 59, and 59 / 10 is 5.  Its newest sample
   * becomes the float 14.1.
   */
  lemma FloorMeanBumpsUnevenWindow(w: seq<Num>)
    requires w == [Int(5), Int(5), Int(5), Int(5), Int(5), Int(5), Int(5), Int(5), Int(5), Int(14)]
    ensures !Flat(w)
    ensures Compensate(w) == w[Newest := Float(14.1)]
  {
    assert Val(w[Newest]) != Val(w[0]);
    assert Sum(w) == Int(59) by {
      SumIsInt(w);
      assert Val(Sum(w)) == Val(Sum(w[..Newest])) + 14.0 by { SumOfFull(w); }
      assert AllEqual(w[..Newest], 5.0);
      SumAllEqual(w[..Newest], 5.0);
    }
  }
}
