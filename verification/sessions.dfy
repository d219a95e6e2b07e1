/**
 * A client polling the chart endpoints again and again, sending back the
 * cookie each poll wrote.
 */
module Sessions {
  import opened PyNum
  import opened Window
  import opened Rates
  import opened Compensation
  import opened Endpoints

  /** The load series after polling once per reading, oldest reading first. */
  function LoadHistory(cookie: Cookie<seq<Num>>, loads: seq<real>): (w: seq<Num>)
    requires |loads| > 0
    decreases |loads|
  {
    var p := LoadAverage(cookie, loads[0]);
    if |loads| == 1 then p.state else LoadHistory(Cookie(p.state), loads[1..])
  }

  /** The load series grows by one sample per poll until it holds ten. */
  lemma {:induction false} LoadHistoryLength(w: seq<Num>, loads: seq<real>)
    requires |loads| > 0
    ensures |LoadHistory(Cookie(w), loads)| == if |w| + |loads| < LevelCap then |w| + |loads| else LevelCap
    decreases |loads|
  {
    if |loads| > 1 {
      LoadHistoryLength(LoadAverage(Cookie(w), loads[0]).state, loads[1..]);
    }
  }

  /** A fresh client's load chart holds one more point than it has polled, up to ten. */
  lemma FreshLoadHistoryLength(loads: seq<real>)
    requires |loads| > 0
    ensures |LoadHistory(NoCookie, loads)| == if |loads| + 1 < LevelCap then |loads| + 1 else LevelCap
  {
    if |loads| > 1 {
      LoadHistoryLength(LoadAverage(NoCookie, loads[0]).state, loads[1..]);
    }
  }

  /** The memory endpoint never looks at the buffers entry of the cookie. */
  lemma MemoryIgnoresStoredBuffers(c: seq<seq<Num>>, other: seq<Num>, m: Memory)
    requires |c| >= 4
    ensures MemUsage(Cookie(c), m) == MemUsage(Cookie(c[2 := other]), m)
  {
    assert ReadMemory(Cookie(c)) == ReadMemory(Cookie(c[2 := other]));
  }

  /**
   * A fresh client polling memory three times with the same reading: the
   * used series is `[0, u, u, u]` and buffers only keeps the last reading.
   */
  lemma ThreeMemoryPolls(none: Cookie<seq<seq<Num>>>, m: Memory)
    requires none.NoCookie?
    ensures var s1 := MemUsage(none, m).state;
            var s2 := MemUsage(Cookie(MemoryCookie(s1)), m).state;
            var s3 := MemUsage(Cookie(MemoryCookie(s2)), m).state;
            && s3.used == [Int(0), Int(m.usage), Int(m.usage), Int(m.usage)]
            && s3.buffers == [Int(m.buffers)]
  {
    var s1 := MemUsage(none, m).state;
    MemUsageFresh(none, m);
    MemUsageUsedGrows(MemoryCookie(s1), m);
    var s2 := MemUsage(Cookie(MemoryCookie(s1)), m).state;
    MemUsageUsedGrows(MemoryCookie(s2), m);
    MemUsageBuffersRestart(MemoryCookie(s2), m);
  }

  /**
   * Two disk polls `refreshSecs` apart by a fresh client: the read series
   * charts 0 twice (the first rate, and the zero it starts from) and then
   * the floor of the read-count difference over the interval.
   */
  lemma TwoDiskPolls(none: Cookie<seq<seq<Num>>>, first: DiskRw, second: DiskRw, refreshSecs: int)
    requires none.NoCookie? && refreshSecs > 0
    ensures var s1 := DiskIo(none, first, refreshSecs).state;
            var s2 := DiskIo(Cookie(RatesCookie(s1)), second, refreshSecs).state;
            && s2.pairIn == [Int(first.readCount), Int(second.readCount)]
            && s2.levelIn == [Int(0), Int(0), Int((second.readCount - first.readCount) / refreshSecs)]
  {
    var s1 := DiskIo(none, first, refreshSecs).state;
    DiskIoFresh(none, first, refreshSecs);
    var c := Cookie(RatesCookie(s1));
    assert ReadRates(c) == s1 by { RatesCookieRoundTrip(s1); }
    var s2 := DiskIo(c, second, refreshSecs).state;
    assert s2.pairIn == [Int(first.readCount), Int(second.readCount)];
    var r := RateDisk(s2.pairIn, refreshSecs);
    assert r == Int((second.readCount - first.readCount) / refreshSecs);
    assert s2.levelIn == Compensate(Slide(s1.levelIn, r, LevelCap));
    assert Slide(s1.levelIn, r, LevelCap) == [Int(0), Int(0), r];
  }

  /** Read counts 500 apart (1000 and then 1500, say), polled five seconds apart, chart 100 reads per second. */
  lemma TwoDiskPollsExample(none: Cookie<seq<seq<Num>>>, first: DiskRw, second: DiskRw, refreshSecs: int)
    requires none.NoCookie? && second.readCount - first.readCount == 500 && refreshSecs == 5
    ensures var s1 := DiskIo(none, first, refreshSecs).state;
            DiskIo(Cookie(RatesCookie(s1)), second, refreshSecs).state.levelIn == [Int(0), Int(0), Int(100)]
  {
    TwoDiskPolls(none, first, second, refreshSecs);
    assert (second.readCount - first.readCount) / refreshSecs == 100;
  }
}
