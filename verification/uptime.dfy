/**
 * Rolling uptime: the percentage of up samples among the first samples of a
 * service's sequence, as shown for 24 hours, 7, 30 and 90 days.
 */
module RollingUptime {
  import opened Samples

  /** Window lengths in samples: 1, 7, 30 and 90 days of one sample per minute. */
  const DayWindow: nat := 1440
  const WeekWindow: nat := 10080
  const MonthWindow: nat := 43200
  const QuarterWindow: nat := 129600

  /** The window actually counted: never longer than the data. */
  function EffectiveWindow(data: seq<nat>, window: nat): (w: nat)
    ensures w <= window && w <= |data|
    ensures w == window || w == |data|
  {
    Min(window, |data|)
  }

  /**
   * Uptime percentage over the first `window` samples in storage order. An
   * empty sequence counts as fully up.
   */
  function Uptime(data: seq<nat>, window: nat): (pct: real)
    requires window > 0
    ensures |data| == 0 ==> pct == 100.0
    ensures |data| > 0 ==>
      pct * (EffectiveWindow(data, window) as real)
        == 100.0 * (CountUp(Take(data, window)) as real)
    ensures 0.0 <= pct <= 100.0
    ensures pct == 100.0 <==> AllUp(Take(data, window))
    ensures pct == 0.0 <==> |data| > 0 && AllDown(Take(data, window))
  {
    if |data| == 0 then 100.0
    else
      CountUpAll(Take(data, window));
      CountUpNone(Take(data, window));
      Percent(CountUp(Take(data, window)), EffectiveWindow(data, window))
  }

  /** The same percentage written from the down side: 100 minus the down share. */
  lemma UptimeFromDowns(data: seq<nat>, window: nat)
    requires window > 0
    requires |data| > 0
    ensures Uptime(data, window)
      == 100.0 - Percent(CountDown(Take(data, window)), EffectiveWindow(data, window))
  {
    var w := Take(data, window);
    CountUpDown(w);
    PercentComplement(CountDown(w), |w|);
  }

  /** A window at least as long as the data counts the whole sequence. */
  lemma UptimeWholeSequence(data: seq<nat>, window: nat)
    requires window >= |data| > 0
    ensures Uptime(data, window) == Uptime(data, |data|)
  {
    assert Take(data, window) == data;
    assert Take(data, |data|) == data;
    assert EffectiveWindow(data, window) == |data|;
    assert EffectiveWindow(data, |data|) == |data|;
    assert Uptime(data, window) == Percent(CountUp(data), |data|);
    assert Uptime(data, |data|) == Percent(CountUp(data), |data|);
  }

  /** Worked values: [5,5,0,5] over 4 is 75, [0,0,0] over 2 is 0, [5] over 100 is 100. */
  lemma UptimeExamples()
    ensures Uptime([5, 5, 0, 5], 4) == 75.0
    ensures Uptime([0, 0, 0], 2) == 0.0
    ensures Uptime([5], 100) == 100.0
  {
    assert Take([5, 5, 0, 5], 4) == [5, 5, 0, 5];
    assert CountUp([5, 5, 0, 5]) == 3 by {
      assert [5, 5, 0, 5][1..] == [5, 0, 5];
      assert [5, 0, 5][1..] == [0, 5];
      assert [0, 5][1..] == [5];
    }
    assert Take([0, 0, 0], 2) == [0, 0];
    assert AllDown([0, 0]);
    assert Take([5], 100) == [5];
    assert AllUp([5]);
  }
}
