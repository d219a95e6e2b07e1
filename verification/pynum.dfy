/**
 * Python 2 numbers as they flow through the chart endpoints of pydash.
 *
 * A sample is either an `int` or a `float`, and the tag matters: `sum` of a
 * list of ints is an int, `/` between two ints is floor division, and
 * `x += 0.1` turns an int sample into a float one.  Floats are modelled as
 * ideal reals (no IEEE rounding).
 */
module PyNum {

  datatype Num = Int(i: int) | Float(f: real)

  /** The numeric value, as Python's mixed int/float comparisons see it. */
  function Val(n: Num): real {
    match n
    case Int(i) => i as real
    case Float(f) => f
  }

  /** `a + b`: an int when both operands are ints, a float otherwise. */
  function Add(a: Num, b: Num): (r: Num)
    ensures r.Int? <==> a.Int? && b.Int?
    ensures Val(r) == Val(a) + Val(b)
  {
    if a.Int? && b.Int? then Int(a.i + b.i) else Float(Val(a) + Val(b))
  }

  /** `a - b`, with the same int/float rule as `+`. */
  function Sub(a: Num, b: Num): (r: Num)
    ensures r.Int? <==> a.Int? && b.Int?
    ensures Val(r) == Val(a) - Val(b)
  {
    if a.Int? && b.Int? then Int(a.i - b.i) else Float(Val(a) - Val(b))
  }

  /** `x += 0.1`, the chart-rendering bump. */
  function Bump(x: Num): (r: Num)
    ensures r.Float?
    ensures Val(r) == Val(x) + 0.1
  {
    Add(x, Float(0.1))
  }

  /** `float(x)`. */
  function ToFloat(x: Num): (r: Num)
    ensures r.Float?
    ensures Val(r) == Val(x)
  {
    Float(Val(x))
  }

  /**
   * `int(x)`: the identity on ints, truncation toward zero on floats.
   */
  function ToInt(x: Num): (r: Num)
    ensures r.Int?
    ensures x.Int? ==> r == x
    ensures Val(x) >= 0.0 ==> Val(r) <= Val(x) < Val(r) + 1.0
    ensures Val(x) < 0.0 ==> Val(r) - 1.0 < Val(x) <= Val(r)
  {
    match x
    case Int(_) => x
    case Float(f) => if f >= 0.0 then Int(f.Floor) else Int(-((-f).Floor))
  }

  /**
   * `a / k` for a positive int divisor `k`: floor division when `a` is an
   * int (Python 2), true division when it is a float.
   */
  function DivBy(a: Num, k: int): (r: Num)
    requires k > 0
    ensures r.Int? <==> a.Int?
    ensures a.Int? ==> r.i * k <= a.i < r.i * k + k
    ensures a.Float? ==> r.f * (k as real) == a.f
  {
    match a
    case Int(n) => Int(n / k)
    case Float(f) => Float(f / (k as real))
  }

  /** Python's `sum(s)`: a left fold of `+` that starts from the int 0. */
  function Sum(s: seq<Num>): Num
  {
    if |s| == 0 then Int(0) else Add(Sum(s[..|s| - 1]), s[|s| - 1])
  }

  /** The sum is an int exactly when every sample is: one float makes it a float. */
  lemma {:induction false} SumIsInt(s: seq<Num>)
    ensures Sum(s).Int? <==> forall k :: 0 <= k < |s| ==> s[k].Int?
  {
    if |s| > 0 {
      var init := s[..|s| - 1];
      SumIsInt(init);
      assert forall k :: 0 <= k < |init| ==> init[k] == s[k];
    }
  }

  /** Summing one more sample adds its value. */
  lemma SumSnoc(s: seq<Num>, x: Num)
    ensures Val(Sum(s + [x])) == Val(Sum(s)) + Val(x)
  {
    assert (s + [x])[..|s|] == s;
  }

  /** Every sample of `s` has the value `c`. */
  predicate AllEqual(s: seq<Num>, c: real) {
    forall k :: 0 <= k < |s| ==> Val(s[k]) == c
  }

  /** `n` copies of `c` added up one at a time. */
  function Repeat(n: nat, c: real): real {
    if n == 0 then 0.0 else Repeat(n - 1, c) + c
  }

  /** Adding up `n` copies of `c` is multiplying `c` by `n`. */
  lemma {:induction false} RepeatIsMul(n: nat, c: real)
    ensures Repeat(n, c) == n as real * c
  {
    if n > 0 {
      RepeatIsMul(n - 1, c);
      assert (n - 1) as real * c + c == n as real * c;
    }
  }

  /** The sum of `n` samples of value `c` is `n * c`. */
  lemma SumAllEqual(s: seq<Num>, c: real)
    requires AllEqual(s, c)
    ensures Val(Sum(s)) == |s| as real * c
  {
    SumAllEqualRepeat(s, c);
    RepeatIsMul(|s|, c);
  }

  lemma {:induction false} SumAllEqualRepeat(s: seq<Num>, c: real)
    requires AllEqual(s, c)
    ensures Val(Sum(s)) == Repeat(|s|, c)
  {
    if |s| > 0 {
      var init, x := s[..|s| - 1], s[|s| - 1];
      assert AllEqual(init, c) by {
        forall k | 0 <= k < |init| ensures Val(init[k]) == c {
          assert init[k] == s[k];
        }
      }
      SumAllEqualRepeat(init, c);
      assert s == init + [x];
      SumSnoc(init, x);
    }
  }
}
