/**
 * The 90-entry daily status strip: the samples are cut into 1440-sample day
 * buckets, each bucket is classified from its share of down samples, and
 * "no data" entries fill the front when there are fewer than 90 days.
 */
module DailyStatus {
  import opened Samples
  import opened RollingUptime

  /** Length of the strip. */
  const MaxDays: nat := 90

  /** The category shown for one day. */
  datatype DayStatus = Up | Partial | Down | NoData

  /** What the description of a day says: its up share, or that it has no data. */
  datatype Description = UpShare(percent: real) | NoDataText

  /** One entry of the strip: `{name, description}`. */
  datatype Segment = Segment(name: DayStatus, description: Description)

  const NoDataSegment: Segment := Segment(NoData, NoDataText)

  /** Share of down samples in a non-empty day, in percent. */
  function DownPercentage(day: seq<nat>): (pct: real)
    requires |day| > 0
    ensures 0.0 <= pct <= 100.0
    ensures pct * (|day| as real) == 100.0 * (CountDown(day) as real)
  {
    Percent(CountDown(day), |day|)
  }

  /**
   * Classifies one day bucket: more than half down is "down", more than a
   * quarter down is "partial", anything else is "up"; the description is
   * 100 minus the down share. An empty bucket has no data.
   */
  function ClassifyDay(day: seq<nat>): (seg: Segment)
    ensures seg.name == NoData <==> |day| == 0
    ensures seg.name == NoData ==> seg.description == NoDataText
    ensures seg.name == Down <==> |day| > 0 && 2 * CountDown(day) > |day|
    ensures seg.name == Partial <==> |day| > 0 && 2 * CountDown(day) <= |day| < 4 * CountDown(day)
    ensures seg.name == Up <==> |day| > 0 && 4 * CountDown(day) <= |day|
    ensures |day| > 0 ==> seg.description.UpShare? && 0.0 <= seg.description.percent <= 100.0
  {
    if |day| == 0 then NoDataSegment
    else
      var downPercentage := DownPercentage(day);
      PercentAbove(CountDown(day), |day|, 50);
      PercentAbove(CountDown(day), |day|, 25);
      var description := UpShare(100.0 - downPercentage);
      if downPercentage > 50.0 then Segment(Down, description)
      else if downPercentage > 25.0 then Segment(Partial, description)
      else Segment(Up, description)
  }

  /** The figure shown for a non-empty day is that day's uptime over its own length. */
  lemma ClassifyDayUptime(day: seq<nat>)
    requires |day| > 0
    ensures ClassifyDay(day).description == UpShare(Uptime(day, |day|))
  {
    UptimeFromDowns(day, |day|);
    assert Take(day, |day|) == day;
  }

  /** Days of data the samples cover, capped at the strip length. */
  function ShownDays(n: nat): (d: nat)
    ensures d <= MaxDays
    ensures d <= DayCount(n)
    ensures d == DayCount(n) || d == MaxDays
  {
    Min(DayCount(n), MaxDays)
  }

  /** Number of "no data" entries put in front of the shown days. */
  function PaddingDays(n: nat): (p: nat)
    ensures p == 0 <==> DayCount(n) >= MaxDays
    ensures p == MaxDays <==> n == 0
    ensures p + ShownDays(n) == MaxDays
    ensures DayCount(n) < MaxDays ==> p == MaxDays - DayCount(n)
  {
    MaxDays - ShownDays(n)
  }

  /**
   * The day buckets the loop visits for days `day .. limit`, as written: it
   * stops early when a day starts past the end of the data. That never
   * happens while `limit` stays within the available days.
   */
  function DayBuckets(samples: seq<nat>, day: nat, limit: nat): (buckets: seq<seq<nat>>)
    requires day <= limit
    ensures |buckets| <= limit - day
    ensures limit <= DayCount(|samples|) ==> |buckets| == limit - day
    decreases limit - day
  {
    if day == limit then []
    else
      var start := day * PointsPerDay;
      if start >= |samples| then []
      else
        DayStartInRange(|samples|, day);
        var end := Min((day + 1) * PointsPerDay, |samples|);
        [samples[start..end]] + DayBuckets(samples, day + 1, limit)
  }

  /** Within the available days, bucket `k` of the loop is day bucket `day + k`. */
  lemma {:induction false} DayBucketEntry(samples: seq<nat>, day: nat, limit: nat, k: nat)
    requires day <= limit <= DayCount(|samples|)
    requires k < limit - day
    ensures DayBuckets(samples, day, limit)[k] == DaySlice(samples, day + k)
    decreases k
  {
    DayStartInRange(|samples|, day);
    if k > 0 {
      DayBucketEntry(samples, day + 1, limit, k - 1);
    }
  }

  /** The loop's entries: one classified segment per visited bucket (an empty bucket is "no data"). */
  function DayLoop(samples: seq<nat>, limit: nat): (segs: seq<Segment>)
    ensures |segs| <= limit
    ensures limit <= DayCount(|samples|) ==> |segs| == limit
  {
    var buckets := DayBuckets(samples, 0, limit);
    seq(|buckets|, i requires 0 <= i < |buckets| => ClassifyDay(buckets[i]))
  }

  /** Within the available days, entry `d` of the loop classifies day bucket `d`. */
  lemma DayLoopEntries(samples: seq<nat>, limit: nat)
    requires limit <= DayCount(|samples|)
    ensures forall d :: 0 <= d < limit ==> DayLoop(samples, limit)[d] == ClassifyDay(DaySlice(samples, d))
  {
    forall d | 0 <= d < limit
      ensures DayLoop(samples, limit)[d] == ClassifyDay(DaySlice(samples, d))
    {
      DayBucketEntry(samples, 0, limit, d);
    }
  }

  /**
   * The strip: exactly 90 entries, "no data" padding first, then one
   * classified entry per day bucket in storage order.
   */
  function StatusStrip(samples: seq<nat>): (strip: seq<Segment>)
    ensures |strip| == MaxDays
    ensures forall i :: 0 <= i < PaddingDays(|samples|) ==> strip[i] == NoDataSegment
    ensures forall d :: 0 <= d < ShownDays(|samples|) ==>
      strip[PaddingDays(|samples|) + d] == ClassifyDay(DaySlice(samples, d))
  {
    var available := DayCount(|samples|);
    var padding := if available < MaxDays then seq(MaxDays - available, _ => NoDataSegment) else [];
    var days := DayLoop(samples, Min(available, MaxDays));
    assert |padding| == PaddingDays(|samples|);
    assert |days| == ShownDays(|samples|);
    DayLoopEntries(samples, ShownDays(|samples|));
    padding + days
  }

  /** Every entry after the padding stands for a non-empty day, so none of them is "no data". */
  lemma ShownDaysHaveData(samples: seq<nat>)
    ensures forall i :: PaddingDays(|samples|) <= i < MaxDays ==> StatusStrip(samples)[i].name != NoData
  {
    var strip := StatusStrip(samples);
    forall i | PaddingDays(|samples|) <= i < MaxDays
      ensures strip[i].name != NoData
    {
      var d := i - PaddingDays(|samples|);
      assert strip[PaddingDays(|samples|) + d] == ClassifyDay(DaySlice(samples, d));
    }
  }

  /** With ten full days of up samples the strip is 80 "no data" entries and 10 fully up days. */
  lemma TenUpDays(samples: seq<nat>)
    requires |samples| == 10 * PointsPerDay
    requires AllUp(samples)
    ensures forall i :: 0 <= i < 80 ==> StatusStrip(samples)[i] == NoDataSegment
    ensures forall i :: 80 <= i < MaxDays ==> StatusStrip(samples)[i] == Segment(Up, UpShare(100.0))
  {
    var strip := StatusStrip(samples);
    assert DayCount(|samples|) == 10;
    forall i | 80 <= i < MaxDays
      ensures strip[i] == Segment(Up, UpShare(100.0))
    {
      var day := DaySlice(samples, i - 80);
      assert AllUp(day) by {
        forall k | 0 <= k < |day| ensures day[k] > 0 {
          assert day[k] == samples[(i - 80) * PointsPerDay + k];
        }
      }
      CountUpAll(day);
      CountUpDown(day);
      ClassifyDayUptime(day);
      assert Take(day, |day|) == day;
    }
  }

  /** A day of [0,0,0,5,5] is 60% down: "down", with 40% up. */
  lemma MostlyDownDay()
    ensures ClassifyDay([0, 0, 0, 5, 5]) == Segment(Down, UpShare(40.0))
  {
    var day: seq<nat> := [0, 0, 0, 5, 5];
    assert CountDown(day) == 3 by {
      assert day[1..] == [0, 0, 5, 5];
      assert day[1..][1..] == [0, 5, 5];
      assert day[1..][1..][1..] == [5, 5];
      assert day[1..][1..][1..][1..] == [5];
    }
    ClassifyDayUptime(day);
    UptimeFromDowns(day, 5);
    assert Take(day, 5) == day;
  }

  /** The thresholds are strict: exactly half down is "partial", exactly a quarter down is "up". */
  lemma ThresholdsAreStrict()
    ensures ClassifyDay([0, 5]).name == Partial
    ensures ClassifyDay([0, 5, 5, 5]).name == Up
  {
    var half: seq<nat> := [0, 5];
    assert CountDown(half) == 1 by {
      assert half[1..] == [5];
    }
    var quarter: seq<nat> := [0, 5, 5, 5];
    assert CountDown(quarter) == 1 by {
      assert quarter[1..] == [5, 5, 5];
      assert quarter[1..][1..] == [5, 5];
      assert quarter[1..][1..][1..] == [5];
    }
  }
}
