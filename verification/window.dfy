/**
 * The bounded windows every chart endpoint keeps between polls.
 *
 * A level window holds up to `LevelCap` samples for charting; a counter pair
 * holds the `PairCap` most recent cumulative readings.  Each poll first trims
 * an over-long window to its newest elements and then pushes the new sample,
 * with the source's two independent `if`s: a window one short of capacity
 * gets the sample appended twice, and loses its oldest element.
 */
module Window {

  /** Capacity of a level series (the chart shows 10 points). */
  const LevelCap: nat := 10

  /** Capacity of a counter pair (two cumulative readings). */
  const PairCap: nat := 2

  /**
   * The loop `while w: del w[0]; if len(w) == cap: break`, one deletion per
   * call; it stops exactly when `cap` elements remain.
   */
  function DropFront<T>(w: seq<T>, cap: nat): (r: seq<T>)
    requires |w| > cap
    ensures r == w[|w| - cap..]
    decreases |w|
  {
    var w' := w[1..];
    if |w'| == cap then w' else DropFront(w', cap)
  }

  /**
   * Trimming keeps the newest `cap` samples in their original order; a
   * window already within capacity is returned untouched.
   */
  function Trim<T>(w: seq<T>, cap: nat): (r: seq<T>)
    ensures |w| <= cap ==> r == w
    ensures |w| > cap ==> |r| == cap
    ensures r == w[|w| - |r|..]
  {
    if |w| > cap then DropFront(w, cap) else w
  }

  /**
   * Pushing a sample: `if len(w) <= cap - 1: append` followed by
   * `if len(w) == cap: append; del w[0]`.
   */
  function Push<T>(w: seq<T>, v: T, cap: nat): (r: seq<T>)
    ensures |w| + 1 < cap ==> r == w + [v]
    ensures |w| + 1 == cap && |w| > 0 ==> r == w[1..] + [v, v]
    ensures |w| == cap > 0 ==> r == w[1..] + [v]
    ensures |w| > cap ==> r == w
    ensures |w| <= cap ==> |r| == if |w| < cap then |w| + 1 else cap
  {
    var w1 := if |w| < cap then w + [v] else w;
    if |w1| == cap then (w1 + [v])[1..] else w1
  }

  /** The newest sample of a window. */
  function Last<T>(w: seq<T>): T
    requires |w| > 0
  {
    w[|w| - 1]
  }

  /** One poll of one series: trim to capacity, then push the sample. */
  function Slide<T>(w: seq<T>, v: T, cap: nat): (r: seq<T>)
    ensures |r| == if |w| < cap then |w| + 1 else cap
    ensures cap > 0 ==> r[|r| - 1] == v
    ensures |w| + 1 < cap ==> r == w + [v]
    ensures |w| == 0 < cap ==> r == [v]
    ensures |w| + 1 == cap && |w| > 0 ==> r == w[1..] + [v, v]
    ensures |w| >= cap > 0 ==> r == w[|w| - cap + 1..] + [v]
  {
    var t := Trim(w, cap);
    assert |w| >= cap > 0 ==> t[1..] == w[|w| - cap + 1..];
    Push(t, v, cap)
  }

  /** The textbook bounded FIFO: append, then keep the newest `cap` samples. */
  function Fifo<T>(w: seq<T>, v: T, cap: nat): seq<T>
  {
    var s := w + [v];
    if |s| > cap then s[|s| - cap..] else s
  }

  /** Polling a series once per sample of `vs`, oldest sample first. */
  function SlideAll<T>(w: seq<T>, vs: seq<T>, cap: nat): seq<T>
    decreases |vs|
  {
    if |vs| == 0 then w else SlideAll(Slide(w, vs[0], cap), vs[1..], cap)
  }

  /** A window equal to its own shift by `v` holds nothing but `v`. */
  lemma {:induction false} ShiftFixedIsConstant<T>(w: seq<T>, v: T, k: nat)
    requires |w| > 0 && w[1..] + [v] == w
    requires k < |w|
    ensures w[k] == v
    decreases |w| - k
  {
    if k == |w| - 1 {
      assert (w[1..] + [v])[k] == v;
    } else {
      ShiftFixedIsConstant(w, v, k + 1);
      assert (w[1..] + [v])[k] == w[k + 1];
    }
  }

  /**
   * A poll agrees with the textbook FIFO except when the window is exactly
   * one short of capacity: there the sample is appended twice and the oldest
   * sample is lost, which only goes unnoticed when every sample already
   * equals the new one.
   */
  lemma SlideIsFifoUnlessOneShort<T>(w: seq<T>, v: T, cap: nat)
    requires cap > 0
    ensures Slide(w, v, cap) == Fifo(w, v, cap)
            <==> |w| + 1 != cap || forall k :: 0 <= k < |w| ==> w[k] == v
  {
    var r, f := Slide(w, v, cap), Fifo(w, v, cap);
    if |w| == 0 {
      assert r == [v] == f;
    } else if |w| + 1 < cap {
      assert r == w + [v] == f;
    } else if |w| + 1 == cap {
      assert r == w[1..] + [v, v];
      assert f == w + [v];
      OneShortIsFifoIffConstant(w, v);
    } else {
      assert r == w[|w| - cap + 1..] + [v];
      assert f == (w + [v])[|w| + 1 - cap..];
      assert r == f;
    }
  }

  /**
   * One short of capacity the sample is appended twice and the oldest one
   * lost, which agrees with appending once exactly when every sample is `v`.
   */
  lemma OneShortIsFifoIffConstant<T>(w: seq<T>, v: T)
    requires |w| > 0
    ensures w[1..] + [v, v] == w + [v] <==> forall k :: 0 <= k < |w| ==> w[k] == v
  {
    if w[1..] + [v, v] == w + [v] {
      var x := w[1..] + [v];
      assert x + [v] == w + [v];
      assert x == w by {
        assert (x + [v])[..|w|] == x;
        assert (w + [v])[..|w|] == w;
      }
      forall k | 0 <= k < |w| ensures w[k] == v {
        ShiftFixedIsConstant(w, v, k);
      }
    }
    if forall k :: 0 <= k < |w| ==> w[k] == v {
      assert w[1..] + [v, v] == w + [v];
    }
  }

  /**
   * Once a window is full, polling keeps exactly the newest `cap` samples of
   * everything seen: the window behaves as a FIFO from then on.
   */
  lemma {:induction false} FullWindowIsFifo<T>(w: seq<T>, vs: seq<T>, cap: nat)
    requires cap > 0 && |w| == cap
    ensures SlideAll(w, vs, cap) == (w + vs)[|vs|..]
    decreases |vs|
  {
    if |vs| > 0 {
      var w' := w[1..] + [vs[0]];
      assert SlideAll(w, vs, cap) == SlideAll(w', vs[1..], cap);
      FullWindowIsFifo(w', vs[1..], cap);
      assert w' + vs[1..] == (w + vs)[1..];
    }
  }

  /**
   * A window grows by one sample per poll until it reaches capacity, and
   * then stays full.
   */
  lemma {:induction false} SlideAllLength<T>(w: seq<T>, vs: seq<T>, cap: nat)
    requires |w| <= cap || |vs| > 0
    ensures |SlideAll(w, vs, cap)| == if |w| + |vs| < cap then |w| + |vs| else cap
    decreases |vs|
  {
    if |vs| > 0 {
      SlideAllLength(Slide(w, vs[0], cap), vs[1..], cap);
    }
  }

  /**
   * A counter pair holding two or more readings keeps its newest one,
   * followed by the new reading.
   */
  lemma CounterPair<T>(p: seq<T>, v: T)
    requires |p| >= PairCap
    ensures Slide(p, v, PairCap) == [p[|p| - 1], v]
  {
    var t := Trim(p, PairCap);
    assert t == p[|p| - 2..];
    assert t[1..] + [v] == [p[|p| - 1], v];
  }

  /**
   * A counter pair holding a single reading loses it and holds the new
   * reading twice, so the first derived rate is 0.  (An empty pair becomes
   * `[v]`, by `Slide`'s contract, and the rate that follows cannot be taken.)
   */
  lemma CounterPairFirst<T>(p: seq<T>, v: T)
    requires |p| == 1
    ensures Slide(p, v, PairCap) == [v, v]
  {
    assert p[1..] == [];
  }

  /**
   * Eleven polls of an empty level window lose the two oldest samples and
   * double the tenth: with the samples 0, 1, ..., 10 the window ends as
   * 2, ..., 8, 9, 9, 10.
   */
  lemma ElevenPolls<T>(vs: seq<T>)
    requires |vs| == LevelCap + 1
    ensures SlideAll([], vs, LevelCap) == vs[2..9] + [vs[9], vs[9], vs[10]]
  {
    var nine, last := vs[..9], vs[9..];
    assert SlideAll([], vs, LevelCap) == SlideAll(nine, last, LevelCap) by {
      assert vs == nine + last;
      SlideAllSplit([], nine, last, LevelCap);
      SlideAllGrows([], nine, LevelCap);
      assert [] + nine == nine;
    }
    assert last == [vs[9], vs[10]];
    TwoPollsFromOneShort(nine, vs[9], vs[10], LevelCap);
    assert nine[2..] == vs[2..9];
  }

  /**
   * So eleven polls do not leave the ten newest samples, as a FIFO would,
   * unless the second and third samples happen to be equal.
   */
  lemma OnePollPastCapacityIsNotFifo<T>(vs: seq<T>)
    requires |vs| == LevelCap + 1 && vs[1] != vs[2]
    ensures SlideAll([], vs, LevelCap) != vs[1..]
  {
    ElevenPolls(vs);
    var r := vs[2..9] + [vs[9], vs[9], vs[10]];
    assert r[0] == vs[2] && vs[1..][0] == vs[1];
  }

  /** From one short of capacity, two polls lose the two oldest samples and double the first new one. */
  lemma TwoPollsFromOneShort<T>(w: seq<T>, a: T, b: T, cap: nat)
    requires |w| + 1 == cap && |w| > 1
    ensures SlideAll(w, [a, b], cap) == w[2..] + [a, a, b]
  {
    var w1 := w[1..] + [a, a];
    assert SlideAll(w, [a, b], cap) == SlideAll(w1, [b], cap);
    assert SlideAll(w1, [b], cap) == w1[1..] + [b];
    assert w1[1..] == w[2..] + [a, a];
  }

  /** Polling with `xs` and then with `ys` is polling with `xs + ys`. */
  lemma {:induction false} SlideAllSplit<T>(w: seq<T>, xs: seq<T>, ys: seq<T>, cap: nat)
    ensures SlideAll(w, xs + ys, cap) == SlideAll(SlideAll(w, xs, cap), ys, cap)
    decreases |xs|
  {
    if |xs| > 0 {
      assert (xs + ys)[0] == xs[0] && (xs + ys)[1..] == xs[1..] + ys;
      SlideAllSplit(Slide(w, xs[0], cap), xs[1..], ys, cap);
    } else {
      assert xs + ys == ys;
    }
  }

  /** While a window stays short of capacity, polling only appends. */
  lemma {:induction false} SlideAllGrows<T>(w: seq<T>, vs: seq<T>, cap: nat)
    requires |w| + |vs| < cap
    ensures SlideAll(w, vs, cap) == w + vs
    decreases |vs|
  {
    if |vs| > 0 {
      SlideAllGrows(w + [vs[0]], vs[1..], cap);
      assert w + [vs[0]] + vs[1..] == w + vs;
    }
  }
}
