/**
 * Rates derived from counter pairs, and the KBps/MBps rescaling of the
 * traffic chart.
 *
 * `refreshSecs` is the polling interval in whole seconds, the Python 2
 * quotient `TIME_JS_REFRESH_NET / 1000` of a setting given in milliseconds.
 */
module Rates {
  import opened PyNum

  /** Bytes per kilobyte, and kilobytes per megabyte. */
  const Kilo: int := 1024

  const KBps: string := "KBps"
  const MBps: string := "MBps"

  /**
   * Network throughput in KBps from a pair of cumulative byte counts:
   * `float(((p[1] - p[0]) / 1024) / refreshSecs)`.  A negative delta (a
   * counter reset) passes through as a negative rate.
   */
  function RateTraffic(p: seq<Num>, refreshSecs: int): (r: Num)
    requires |p| >= 2
    requires refreshSecs > 0
    ensures r.Float?
    ensures p[0].Float? || p[1].Float? ==>
              Val(r) == (Val(p[1]) - Val(p[0])) / 1024.0 / refreshSecs as real
    ensures Val(r) < 0.0 <==> Val(p[1]) < Val(p[0])
  {
    var kb := DivBy(Sub(p[1], p[0]), Kilo);
    var q := DivBy(kb, refreshSecs);
    assert Val(q) < 0.0 <==> Val(kb) < 0.0 by { DivBySign(kb, refreshSecs); }
    assert Val(kb) < 0.0 <==> Val(p[1]) < Val(p[0]) by { DivBySign(Sub(p[1], p[0]), Kilo); }
    ToFloat(q)
  }

  /**
   * Disk throughput in sectors per second from a pair of cumulative counts:
   * `int((p[1] - p[0]) / refreshSecs)`, floor division on ints and truncation
   * toward zero otherwise.
   */
  function RateDisk(p: seq<Num>, refreshSecs: int): (r: Num)
    requires |p| >= 2
    requires refreshSecs > 0
    ensures r.Int?
    ensures p[0].Int? && p[1].Int? ==>
              r.i * refreshSecs <= p[1].i - p[0].i < r.i * refreshSecs + refreshSecs
    ensures p[0].Int? && p[1].Int? ==> (r.i < 0 <==> p[1].i < p[0].i)
    ensures p[0].Float? || p[1].Float? ==>
              var q := (Val(p[1]) - Val(p[0])) / refreshSecs as real;
              (q >= 0.0 ==> Val(r) <= q < Val(r) + 1.0) &&
              (q < 0.0 ==> Val(r) - 1.0 < q <= Val(r))
  {
    var d := Sub(p[1], p[0]);
    DivBySign(d, refreshSecs);
    ToInt(DivBy(d, refreshSecs))
  }

  /** Dividing by a positive int keeps the sign: floor division of a negative int stays negative. */
  lemma DivBySign(a: Num, k: int)
    requires k > 0
    ensures Val(DivBy(a, k)) < 0.0 <==> Val(a) < 0.0
  {
    var r := DivBy(a, k);
    if a.Int? {
      if r.i < 0 {
        assert r.i * k <= -k by { MulMonotone(r.i, -1, k); }
      } else {
        assert r.i * k >= 0 by { MulMonotone(0, r.i, k); }
      }
    } else {
      assert r.f * (k as real) == a.f;
      if r.f < 0.0 {
        assert r.f * (k as real) < 0.0;
      }
      if r.f >= 0.0 {
        assert r.f * (k as real) >= 0.0;
      }
    }
  }

  lemma MulMonotone(x: int, y: int, k: int)
    requires x <= y && k >= 0
    ensures x * k <= y * k
  {
  }

  datatype Scaled = Scaled(rateIn: Num, rateOut: Num, unit: string)

  /**
   * `if dataset_in > 1024 or dataset_out > 1024`: both rates are divided by
   * 1024 and the unit becomes MBps; otherwise both stay in KBps.  Decided
   * afresh on every poll.
   */
  function Rescale(rateIn: Num, rateOut: Num): (s: Scaled)
    ensures s.unit == MBps <==> Val(rateIn) > 1024.0 || Val(rateOut) > 1024.0
    ensures s.unit == KBps <==> !(Val(rateIn) > 1024.0 || Val(rateOut) > 1024.0)
    ensures s.unit == KBps ==> s.rateIn == rateIn && s.rateOut == rateOut
    ensures s.unit == MBps ==> s.rateIn.Float? && s.rateOut.Float?
    ensures s.unit == MBps && rateIn.Float? ==> Val(s.rateIn) * 1024.0 == Val(rateIn)
    ensures s.unit == MBps && rateOut.Float? ==> Val(s.rateOut) * 1024.0 == Val(rateOut)
  {
    if Val(rateIn) > 1024.0 || Val(rateOut) > 1024.0 then
      Scaled(ToFloat(DivBy(rateIn, Kilo)), ToFloat(DivBy(rateOut, Kilo)), MBps)
    else
      Scaled(rateIn, rateOut, KBps)
  }

  /** Two counts 500 apart over 5 seconds give a disk rate of 100 per second. */
  lemma DiskRateExample()
    ensures RateDisk([Int(1000), Int(1500)], 5) == Int(100)
  {
  }

  /** 2000 KBps each way is shown as 1.953125 MBps; 500 KBps stays in KBps. */
  lemma RescaleExample()
    ensures Rescale(Float(2000.0), Float(2000.0))
            == Scaled(Float(1.953125), Float(1.953125), MBps)
    ensures Rescale(Float(500.0), Float(500.0)) == Scaled(Float(500.0), Float(500.0), KBps)
  {
  }
}
