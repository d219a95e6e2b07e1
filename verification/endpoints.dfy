/**
 * The four chart endpoints of pydash (`memusage`, `loadaverage`,
 * `gettraffic`, `getdiskio`) as state transitions: each reads its series
 * from the client's cookie, polls them with the new reading, and returns
 * the chart payload together with the series to write back to the cookie.
 */
module Endpoints {
  import opened PyNum
  import opened Window
  import opened Rates
  import opened Compensation

  /** The decoded cookie: absent (or empty), or the stored list of series. */
  datatype Cookie<T> = NoCookie | Cookie(stored: T)

  /** A chart payload without its constant colour fields: x-axis labels and data series. */
  datatype Chart = Chart(labels: seq<string>, data: seq<seq<Num>>)

  /** The payload of one poll, and the series to write back to the cookie. */
  datatype Poll<S> = Poll(chart: Chart, state: S)

  /** `services.get_mem()`, after the endpoint's `int()` conversions. */
  datatype Memory = Memory(free: int, usage: int, buffers: int, cached: int)

  /** Cumulative bytes of the first interface, after `float()`. */
  datatype Traffic = Traffic(bytesIn: real, bytesOut: real)

  /** Cumulative read and write counts of the first disk, after `int()`. */
  datatype DiskRw = DiskRw(readCount: int, writeCount: int)

  /** The memory series; the cookie stores them as `[free, used, buffers, cached]`. */
  datatype MemorySeries = MemorySeries(free: seq<Num>, used: seq<Num>, buffers: seq<Num>, cached: seq<Num>)

  /**
   * The traffic or disk series: two level series for the chart and two
   * counter pairs; the cookie stores them as `[in, out, in_i, out_o]`.
   */
  datatype RateSeries = RateSeries(levelIn: seq<Num>, levelOut: seq<Num>, pairIn: seq<Num>, pairOut: seq<Num>)

  /** What every series starts as when there is no cookie. */
  const Fresh: seq<Num> := [Int(0)]

  /** `[unit] * 10`, the x-axis labels of a chart. */
  function Labels(unit: string): seq<string>
  {
    seq(LevelCap, _ => unit)
  }

  /** A chart has one label per point, each of them the unit. */
  lemma LabelsAreUnit(unit: string)
    ensures |Labels(unit)| == LevelCap
    ensures forall k :: 0 <= k < LevelCap ==> Labels(unit)[k] == unit
  {
  }

  predicate Level(w: seq<Num>) {
    0 < |w| <= LevelCap
  }

  predicate Pair(p: seq<Num>) {
    |p| == PairCap
  }

  /** The memory series after any poll; buffers never holds more than two samples. */
  predicate MemoryOk(s: MemorySeries) {
    Level(s.free) && Level(s.used) && 0 < |s.buffers| <= PairCap && Level(s.cached)
  }

  /** The traffic or disk series after any poll. */
  predicate RatesOk(s: RateSeries) {
    Level(s.levelIn) && Level(s.levelOut) && Pair(s.pairIn) && Pair(s.pairOut)
  }

  /** The memory cookie, `[free, used, buffers, cached]`. */
  function MemoryCookie(s: MemorySeries): seq<seq<Num>> {
    [s.free, s.used, s.buffers, s.cached]
  }

  /** The traffic and disk cookie, `[in, out, in_i, out_o]`. */
  function RatesCookie(s: RateSeries): seq<seq<Num>> {
    [s.levelIn, s.levelOut, s.pairIn, s.pairOut]
  }

  /**
   * Reading the memory cookie.  The stored buffers series is assigned to a
   * misspelt variable, so buffers starts empty whenever a cookie exists.
   */
  function ReadMemory(cookie: Cookie<seq<seq<Num>>>): (s: MemorySeries)
    requires cookie.Cookie? ==> |cookie.stored| >= 4
    ensures cookie.NoCookie? ==> s == MemorySeries(Fresh, Fresh, Fresh, Fresh)
    ensures cookie.Cookie? ==>
              s.free == cookie.stored[0] && s.used == cookie.stored[1] && s.cached == cookie.stored[3]
    ensures cookie.Cookie? ==> s.buffers == []
  {
    match cookie
    case NoCookie => MemorySeries(Fresh, Fresh, Fresh, Fresh)
    case Cookie(c) => MemorySeries(c[0], c[1], [], c[3])
  }

  /** The cookie the traffic and disk endpoints can read without failing. */
  predicate RatesReadable(cookie: Cookie<seq<seq<Num>>>) {
    cookie.Cookie? ==> |cookie.stored| >= 4 && |cookie.stored[2]| > 0 && |cookie.stored[3]| > 0
  }

  /** Reading the traffic or disk cookie. */
  function ReadRates(cookie: Cookie<seq<seq<Num>>>): (s: RateSeries)
    requires RatesReadable(cookie)
    ensures cookie.NoCookie? ==> s == RateSeries(Fresh, Fresh, Fresh, Fresh)
    ensures |s.pairIn| > 0 && |s.pairOut| > 0
  {
    match cookie
    case NoCookie => RateSeries(Fresh, Fresh, Fresh, Fresh)
    case Cookie(c) => RateSeries(c[0], c[1], c[2], c[3])
  }

  /** Every memory series is read back from where it was written, except buffers. */
  lemma MemoryCookieRoundTrip(s: MemorySeries)
    ensures ReadMemory(Cookie(MemoryCookie(s))) == s.(buffers := [])
  {
  }

  /** Every traffic or disk series is read back from where it was written. */
  lemma RatesCookieRoundTrip(s: RateSeries)
    requires |s.pairIn| > 0 && |s.pairOut| > 0
    ensures RatesReadable(Cookie(RatesCookie(s)))
    ensures ReadRates(Cookie(RatesCookie(s))) == s
  {
  }

  /**
   * A level series polled with a sample, in closed form: short series grow,
   * a series one short of ten gets the sample twice and loses its oldest,
   * and a full or over-long series keeps its newest nine plus the sample.
   * `PolledIsSlide` shows this is the trim-then-push of `Window.Slide`.
   */
  function Polled(w: seq<Num>, v: Num): (r: seq<Num>)
    ensures Level(r)
    ensures |r| == if |w| < LevelCap then |w| + 1 else LevelCap
    ensures Last(r) == v
  {
    if |w| < Newest then w + [v]
    else if |w| == Newest then w[1..] + [v, v]
    else w[|w| - Newest..] + [v]
  }

  /** The closed form agrees with trimming to ten and pushing, on every series. */
  lemma PolledIsSlide(w: seq<Num>, v: Num)
    ensures Polled(w, v) == Slide(w, v, LevelCap)
  {
  }

  /** A level series polled with a sample and then compensated. */
  function Charted(w: seq<Num>, v: Num): (r: seq<Num>)
    ensures Level(r)
    ensures |r| == if |w| < LevelCap then |w| + 1 else LevelCap
    ensures |w| < Newest ==> r == w + [v]
    ensures |w| == Newest ==> r[..Newest] == w[1..] + [v]
    ensures IsNudge(Val(Last(r)) - Val(v))
    ensures |r| == LevelCap ==> !Flat(r)
    ensures |w| >= LevelCap ==> r[..Newest] == w[|w| - Newest..]
  {
    var s := Polled(w, v);
    if |s| == LevelCap then CompensateNeverFlat(s); Compensate(s) else Compensate(s)
  }

  /** The older reading of a counter pair after a poll: the newest stored one, or else the new one. */
  function Previous(pair: seq<Num>, v: Num): Num
  {
    if |pair| >= PairCap then Last(pair) else v
  }

  /** A counter pair polled with a reading: the previous reading, then the new one. */
  function PollPair(pair: seq<Num>, v: Num): seq<Num>
  {
    [Previous(pair, v), v]
  }

  /** On a non-empty pair, the closed form agrees with trimming to two and pushing. */
  lemma PollPairIsSlide(pair: seq<Num>, v: Num)
    requires |pair| > 0
    ensures PollPair(pair, v) == Slide(pair, v, PairCap)
  {
    if |pair| == 1 {
      CounterPairFirst(pair, v);
    } else {
      CounterPair(pair, v);
    }
  }

  /** The memory chart (`memusage`). */
  function MemUsage(cookie: Cookie<seq<seq<Num>>>, m: Memory): (p: Poll<MemorySeries>)
    requires cookie.Cookie? ==> |cookie.stored| >= 4
    ensures MemoryOk(p.state)
    ensures p.chart == Chart(Labels(""), [p.state.used, p.state.free, p.state.buffers, p.state.cached])
  {
    var s := ReadMemory(cookie);
    var next := MemorySeries(
      Charted(s.free, Int(m.free)),
      Polled(s.used, Int(m.usage)),
      Polled(s.buffers, Int(m.buffers)),
      Polled(s.cached, Int(m.cached)));
    Poll(Chart(Labels(""), [next.used, next.free, next.buffers, next.cached]), next)
  }

  /**
   * Every memory series is the stored one polled with its reading (trimmed
   * to ten, then pushed); free is then compensated.  The stored buffers
   * series is the empty one `ReadMemory` gives back.
   */
  lemma MemUsageSlides(cookie: Cookie<seq<seq<Num>>>, m: Memory)
    requires cookie.Cookie? ==> |cookie.stored| >= 4
    ensures var s, next := ReadMemory(cookie), MemUsage(cookie, m).state;
            && next.free == Compensate(Slide(s.free, Int(m.free), LevelCap))
            && next.used == Slide(s.used, Int(m.usage), LevelCap)
            && next.buffers == Slide(s.buffers, Int(m.buffers), LevelCap)
            && next.cached == Slide(s.cached, Int(m.cached), LevelCap)
  {
    var s := ReadMemory(cookie);
    PolledIsSlide(s.free, Int(m.free));
    PolledIsSlide(s.used, Int(m.usage));
    PolledIsSlide(s.buffers, Int(m.buffers));
    PolledIsSlide(s.cached, Int(m.cached));
  }

  /**
   * Each memory series ends with the new reading; free, the charted one, may
   * have it nudged up and is never left flat once full.
   */
  lemma MemUsageNewest(cookie: Cookie<seq<seq<Num>>>, m: Memory)
    requires cookie.Cookie? ==> |cookie.stored| >= 4
    ensures var s := MemUsage(cookie, m).state;
            && Last(s.used) == Int(m.usage)
            && Last(s.buffers) == Int(m.buffers)
            && Last(s.cached) == Int(m.cached)
            && IsNudge(Val(Last(s.free)) - m.free as real)
            && (|s.free| == LevelCap ==> !Flat(s.free))
  {
    var r, s := ReadMemory(cookie), MemUsage(cookie, m).state;
    assert s.free == Charted(r.free, Int(m.free));
    assert s.used == Polled(r.used, Int(m.usage));
    assert s.buffers == Polled(r.buffers, Int(m.buffers));
    assert s.cached == Polled(r.cached, Int(m.cached));
  }

  /** Without a cookie every memory series is a zero followed by the reading. */
  lemma MemUsageFresh(none: Cookie<seq<seq<Num>>>, m: Memory)
    requires none.NoCookie?
    ensures MemUsage(none, m).state
            == MemorySeries([Int(0), Int(m.free)], [Int(0), Int(m.usage)],
                            [Int(0), Int(m.buffers)], [Int(0), Int(m.cached)])
  {
  }

  /**
   * With a cookie, buffers restarts from the reading: the stored buffers
   * series is never read back.
   */
  lemma MemUsageBuffersRestart(c: seq<seq<Num>>, m: Memory)
    requires |c| >= 4
    ensures MemUsage(Cookie(c), m).state.buffers == [Int(m.buffers)]
  {
  }

  /** With a cookie holding fewer than nine used samples, the used series grows by the reading. */
  lemma MemUsageUsedGrows(c: seq<seq<Num>>, m: Memory)
    requires |c| >= 4 && |c[1]| < Newest
    ensures MemUsage(Cookie(c), m).state.used == c[1] + [Int(m.usage)]
  {
    assert MemUsage(Cookie(c), m).state.used == Polled(c[1], Int(m.usage));
  }

  /** With a cookie holding a full used series, its oldest samples give way to the reading. */
  lemma MemUsageUsedShifts(c: seq<seq<Num>>, m: Memory)
    requires |c| >= 4 && |c[1]| >= LevelCap
    ensures MemUsage(Cookie(c), m).state.used == c[1][|c[1]| - Newest..] + [Int(m.usage)]
  {
    assert MemUsage(Cookie(c), m).state.used == Polled(c[1], Int(m.usage));
  }

  /** The load-average chart (`loadaverage`): one series, stored as the cookie itself. */
  function LoadAverage(cookie: Cookie<seq<Num>>, load: real): (p: Poll<seq<Num>>)
    ensures Level(p.state)
    ensures p.chart == Chart(Labels(""), [p.state])
    ensures IsNudge(Val(Last(p.state)) - load)
    ensures |p.state| == LevelCap ==> !Flat(p.state)
    ensures cookie.NoCookie? ==> p.state == [Int(0), Float(load)]
    ensures cookie.Cookie? ==>
              |p.state| == if |cookie.stored| < LevelCap then |cookie.stored| + 1 else LevelCap
    ensures cookie.Cookie? && |cookie.stored| >= LevelCap ==>
              |p.state| == LevelCap && p.state[..Newest] == cookie.stored[|cookie.stored| - Newest..]
    ensures p.state == Compensate(Slide(if cookie.Cookie? then cookie.stored else Fresh, Float(load), LevelCap))
  {
    var stored := if cookie.Cookie? then cookie.stored else Fresh;
    var w := Charted(stored, Float(load));
    assert w == Compensate(Slide(stored, Float(load), LevelCap)) by { PolledIsSlide(stored, Float(load)); }
    Poll(Chart(Labels(""), [w]), w)
  }

  /** The traffic rates of one poll in KBps, both rescaled to MBps when either exceeds 1024. */
  function TrafficRates(pairIn: seq<Num>, pairOut: seq<Num>, refreshSecs: int): (s: Scaled)
    requires |pairIn| == PairCap && |pairOut| == PairCap
    requires pairIn[1].Float? && pairOut[1].Float?
    requires refreshSecs > 0
    ensures var secs := refreshSecs as real;
            var kbIn := (Val(pairIn[1]) - Val(pairIn[0])) / 1024.0 / secs;
            var kbOut := (Val(pairOut[1]) - Val(pairOut[0])) / 1024.0 / secs;
            var mega := kbIn > 1024.0 || kbOut > 1024.0;
            && s.unit == (if mega then MBps else KBps)
            && Val(s.rateIn) == (if mega then kbIn / 1024.0 else kbIn)
            && Val(s.rateOut) == (if mega then kbOut / 1024.0 else kbOut)
  {
    Rescale(RateTraffic(pairIn, refreshSecs), RateTraffic(pairOut, refreshSecs))
  }

  /** The network traffic chart (`gettraffic`). */
  function GetTraffic(cookie: Cookie<seq<seq<Num>>>, t: Traffic, refreshSecs: int): (p: Poll<RateSeries>)
    requires refreshSecs > 0
    requires RatesReadable(cookie)
    ensures RatesOk(p.state)
    ensures p.chart.data == [p.state.levelIn, p.state.levelOut]
    ensures var s := ReadRates(cookie);
            && p.state.pairIn == [Previous(s.pairIn, Float(t.bytesIn)), Float(t.bytesIn)]
            && p.state.pairOut == [Previous(s.pairOut, Float(t.bytesOut)), Float(t.bytesOut)]
    ensures var scaled := TrafficRates(p.state.pairIn, p.state.pairOut, refreshSecs);
            && p.chart.labels == Labels(scaled.unit)
            && Last(p.state.levelOut) == scaled.rateOut
            && IsNudge(Val(Last(p.state.levelIn)) - Val(scaled.rateIn))
    ensures var s := ReadRates(cookie);
            var scaled := TrafficRates(p.state.pairIn, p.state.pairOut, refreshSecs);
            && p.state.levelIn == Compensate(Slide(s.levelIn, scaled.rateIn, LevelCap))
            && p.state.levelOut == Slide(s.levelOut, scaled.rateOut, LevelCap)
    ensures |p.state.levelIn| == LevelCap ==> !Flat(p.state.levelIn)
  {
    var s := ReadRates(cookie);
    var pairIn := PollPair(s.pairIn, Float(t.bytesIn));
    var pairOut := PollPair(s.pairOut, Float(t.bytesOut));
    var scaled := TrafficRates(pairIn, pairOut, refreshSecs);
    var next := RateSeries(Charted(s.levelIn, scaled.rateIn), Polled(s.levelOut, scaled.rateOut), pairIn, pairOut);
    assert next.levelIn == Compensate(Slide(s.levelIn, scaled.rateIn, LevelCap)) by { PolledIsSlide(s.levelIn, scaled.rateIn); }
    assert next.levelOut == Slide(s.levelOut, scaled.rateOut, LevelCap) by { PolledIsSlide(s.levelOut, scaled.rateOut); }
    Poll(Chart(Labels(scaled.unit), [next.levelIn, next.levelOut]), next)
  }

  /** A fresh client's first traffic poll charts 0 KBps each way: the pairs hold the reading twice. */
  lemma GetTrafficFresh(none: Cookie<seq<seq<Num>>>, t: Traffic, refreshSecs: int)
    requires none.NoCookie? && refreshSecs > 0
    ensures var p := GetTraffic(none, t, refreshSecs);
            && p.chart.labels == Labels(KBps)
            && p.state == RateSeries([Int(0), Float(0.0)], [Int(0), Float(0.0)],
                                     [Float(t.bytesIn), Float(t.bytesIn)],
                                     [Float(t.bytesOut), Float(t.bytesOut)])
  {
  }

  /** The disk I/O chart (`getdiskio`). */
  function DiskIo(cookie: Cookie<seq<seq<Num>>>, d: DiskRw, refreshSecs: int): (p: Poll<RateSeries>)
    requires refreshSecs > 0
    requires RatesReadable(cookie)
    ensures RatesOk(p.state)
    ensures p.chart == Chart(Labels(""), [p.state.levelIn, p.state.levelOut])
    ensures var s := ReadRates(cookie);
            && p.state.pairIn == [Previous(s.pairIn, Int(d.readCount)), Int(d.readCount)]
            && p.state.pairOut == [Previous(s.pairOut, Int(d.writeCount)), Int(d.writeCount)]
    ensures p.state.pairOut[0].Int? ==>
              var delta := d.writeCount - p.state.pairOut[0].i;
              var r := Last(p.state.levelOut);
              r.Int? && r.i * refreshSecs <= delta < r.i * refreshSecs + refreshSecs
    ensures var s := ReadRates(cookie);
            && p.state.levelIn == Compensate(Slide(s.levelIn, RateDisk(p.state.pairIn, refreshSecs), LevelCap))
            && p.state.levelOut == Slide(s.levelOut, RateDisk(p.state.pairOut, refreshSecs), LevelCap)
    ensures |p.state.levelIn| == LevelCap ==> !Flat(p.state.levelIn)
  {
    var s := ReadRates(cookie);
    var pairIn := PollPair(s.pairIn, Int(d.readCount));
    var pairOut := PollPair(s.pairOut, Int(d.writeCount));
    var rateIn, rateOut := RateDisk(pairIn, refreshSecs), RateDisk(pairOut, refreshSecs);
    var next := RateSeries(Charted(s.levelIn, rateIn), Polled(s.levelOut, rateOut), pairIn, pairOut);
    assert next.levelIn == Compensate(Slide(s.levelIn, rateIn, LevelCap)) by { PolledIsSlide(s.levelIn, rateIn); }
    assert next.levelOut == Slide(s.levelOut, rateOut, LevelCap) by { PolledIsSlide(s.levelOut, rateOut); }
    Poll(Chart(Labels(""), [next.levelIn, next.levelOut]), next)
  }

  /** A fresh client's first disk poll charts a rate of 0 each way. */
  lemma DiskIoFresh(none: Cookie<seq<seq<Num>>>, d: DiskRw, refreshSecs: int)
    requires none.NoCookie? && refreshSecs > 0
    ensures DiskIo(none, d, refreshSecs).state
            == RateSeries([Int(0), Int(0)], [Int(0), Int(0)],
                          [Int(d.readCount), Int(d.readCount)],
                          [Int(d.writeCount), Int(d.writeCount)])
  {
  }
}
