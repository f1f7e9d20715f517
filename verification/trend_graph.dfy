/**
 * The response-time trend graph of the service detail page: per-day means of
 * the up samples in the first 30 days of data, the y axis derived from them,
 * at most 30 plotted points obtained by averaging chunks of up samples, and
 * the max/min/average response times.
 */
module TrendGraph {
  import opened Samples

  /** Samples considered by the graph: 30 days of one sample per minute. */
  const RecentWindow: nat := 43200

  /** Most points plotted. */
  const PointBudget: nat := 30

  /** Milliseconds added above and removed below the daily means on the y axis. */
  const AxisPadding: nat := 50

  /** Height, in percent, of the plotting area a point may reach. */
  const PlotHeight: real := 80.0

  /** The y axis: lowest and highest value. */
  datatype Axis = Axis(low: nat, high: nat)

  /** One plotted point: horizontal and vertical position in percent, and its value. */
  datatype GraphPoint = GraphPoint(left: real, bottom: real, value: nat)

  /** Response-time figures shown beside the graph. */
  datatype ResponseTimes = ResponseTimes(max: nat, min: nat, avg: nat)

  /** Everything the detail page draws from the samples besides the status strip. */
  datatype Trend = Trend(
    points: seq<GraphPoint>,
    yAxisSteps: seq<nat>,
    response: ResponseTimes)

  /** The first 30 days of samples in storage order. */
  function Recent(samples: seq<nat>): (recent: seq<nat>)
    ensures |recent| == Min(|samples|, RecentWindow)
    ensures forall i :: 0 <= i < |recent| ==> recent[i] == samples[i]
    ensures DayCount(|recent|) <= PointBudget
  {
    Take(samples, RecentWindow)
  }

  /**
   * Floor mean of the up samples of one day bucket: their sum divided by
   * their number; none when the bucket holds no up sample. The mean lies
   * between the bucket's smallest up sample and its largest sample.
   */
  function UpMean(day: seq<nat>): (m: Option<nat>)
    ensures m.Some? <==> !AllDown(day)
    ensures m.Some? ==> CountUp(day) > 0 && m.value == Sum(day) / CountUp(day)
    ensures m.Some? ==> 0 < MinPositive(day) <= m.value <= MaxOf(day)
  {
    var up := Positives(day);
    CountUpNone(day);
    if |up| > 0 then
      var lo := MinPositive(day);
      var hi := MaxOf(day);
      PositivesMembers(day);
      assert forall k :: 0 <= k < |up| ==> lo <= up[k] <= hi by {
        forall k | 0 <= k < |up| ensures lo <= up[k] <= hi {
          assert up[k] in up;
          UpSampleInRange(day, up[k]);
        }
      }
      MeanBounds(up, lo, hi);
      SumPositives(day);
      Some(Sum(up) / |up|)
    else
      None
  }

  /** A day's mean m is the floor mean of its up samples: m·count <= sum < (m+1)·count. */
  lemma UpMeanIsFloorMean(day: seq<nat>)
    requires !AllDown(day)
    ensures IsFloorMean(UpMean(day).value, Sum(day), CountUp(day))
  {
    CountUpNone(day);
    FloorDivMean(Sum(day), CountUp(day));
  }

  /** The up mean of day bucket d: the floor mean of its up samples, bounded by the least up sample and the largest sample overall. */
  function DayMean(recent: seq<nat>, d: nat): (m: Option<nat>)
    requires d < DayCount(|recent|)
    ensures m.Some? <==> !AllDown(DaySlice(recent, d))
    ensures m.Some? ==>
      CountUp(DaySlice(recent, d)) > 0 && m.value == Sum(DaySlice(recent, d)) / CountUp(DaySlice(recent, d))
    ensures m.Some? ==> 0 < MinPositive(recent) <= m.value <= MaxOf(recent)
  {
    var day := DaySlice(recent, d);
    var m := UpMean(day);
    assert m.Some? ==> MinPositive(recent) <= MinPositive(day) && MaxOf(day) <= MaxOf(recent) by {
      if m.Some? {
        UpSampleInRange(recent, MinPositive(day));
        UpSampleInRange(recent, MaxOf(day));
      }
    }
    m
  }

  /** The up mean of every day bucket, in day order. */
  function DayMeans(recent: seq<nat>): (means: seq<Option<nat>>)
    ensures |means| == DayCount(|recent|)
    ensures forall d :: 0 <= d < |means| ==> means[d] == DayMean(recent, d)
  {
    seq(DayCount(|recent|), d requires 0 <= d < DayCount(|recent|) => DayMean(recent, d))
  }

  /** The values of the present entries, in order: what `filter_map` keeps. */
  function Present(opts: seq<Option<nat>>): (vals: seq<nat>)
    ensures |vals| <= |opts|
  {
    if |opts| == 0 then []
    else
      var rest := Present(opts[1..]);
      match opts[0]
      case Some(x) => [x] + rest
      case None => rest
  }

  /** `filter_map` keeps exactly the values of the present entries. */
  lemma {:induction false} PresentMembers(opts: seq<Option<nat>>)
    ensures forall x :: x in Present(opts) <==> Some(x) in opts
  {
    if |opts| > 0 {
      PresentMembers(opts[1..]);
      assert forall o :: o in opts <==> o == opts[0] || o in opts[1..];
    }
  }

  /** `filter_map` over a concatenation keeps each part's values, in order. */
  lemma {:induction false} PresentConcat(a: seq<Option<nat>>, b: seq<Option<nat>>)
    ensures Present(a + b) == Present(a) + Present(b)
  {
    if |a| == 0 {
      assert a + b == b;
    } else {
      var ab := a + b;
      assert ab[0] == a[0] && ab[1..] == a[1..] + b;
      PresentConcat(a[1..], b);
      var head := if a[0].Some? then [a[0].value] else [];
      calc {
        Present(ab);
        head + Present(a[1..] + b);
        head + (Present(a[1..]) + Present(b));
        (head + Present(a[1..])) + Present(b);
      }
    }
  }

  /** A single entry contributes its value exactly when it is present. */
  lemma PresentSingleton(o: Option<nat>)
    ensures Present([o]) == (if o.Some? then [o.value] else [])
  {
    assert [o][1..] == [];
  }

  /** Daily means of the up samples, in day order, days without an up sample dropped. */
  function DailyAverages(recent: seq<nat>): (avgs: seq<nat>)
    ensures |avgs| <= DayCount(|recent|)
  {
    Present(DayMeans(recent))
  }

  /** Number of day buckets among the first n that hold an up sample. */
  function DaysWithUp(recent: seq<nat>, n: nat): (c: nat)
    requires n <= DayCount(|recent|)
    ensures c <= n
  {
    if n == 0 then 0
    else DaysWithUp(recent, n - 1) + (if AllDown(DaySlice(recent, n - 1)) then 0 else 1)
  }

  /** Entry n of a sequence of optional values extends what `filter_map` keeps of the entries before it. */
  lemma PresentStep(opts: seq<Option<nat>>, n: nat)
    requires n < |opts|
    ensures Present(opts[..n + 1]) == Present(opts[..n]) + (if opts[n].Some? then [opts[n].value] else [])
  {
    assert opts[..n + 1] == opts[..n] + [opts[n]];
    PresentConcat(opts[..n], [opts[n]]);
    PresentSingleton(opts[n]);
  }

  /**
   * Day n extends the daily means of days 0 .. n-1 by its own mean when it
   * has an up sample, and by nothing otherwise: the means stay in day order.
   */
  lemma DailyAveragesStep(recent: seq<nat>, n: nat)
    requires n < DayCount(|recent|)
    ensures Present(DayMeans(recent)[..n + 1]) ==
      Present(DayMeans(recent)[..n]) + (if AllDown(DaySlice(recent, n)) then [] else [DayMean(recent, n).value])
  {
    PresentStep(DayMeans(recent), n);
  }

  /**
   * Keeping the present entries of the first n of a sequence that has one
   * entry per day bucket, present exactly for the days with an up sample,
   * keeps one value per such day.
   */
  lemma {:induction false} PresentPerDay(recent: seq<nat>, opts: seq<Option<nat>>, n: nat)
    requires |opts| == DayCount(|recent|)
    requires n <= |opts|
    requires forall d :: 0 <= d < |opts| ==> (opts[d].Some? <==> !AllDown(DaySlice(recent, d)))
    ensures |Present(opts[..n])| == DaysWithUp(recent, n)
  {
    if n == 0 {
      assert opts[..0] == [];
    } else {
      assert |Present(opts[..n])| == |Present(opts[..n - 1])| + (if opts[n - 1].Some? then 1 else 0) by {
        PresentStep(opts, n - 1);
      }
      PresentPerDay(recent, opts, n - 1);
    }
  }

  /** There is exactly one daily mean per day bucket with an up sample. */
  lemma DailyAveragesCount(recent: seq<nat>)
    ensures |DailyAverages(recent)| == DaysWithUp(recent, DayCount(|recent|))
  {
    var means := DayMeans(recent);
    PresentPerDay(recent, means, |means|);
    assert means[..|means|] == means;
  }

  /**
   * Each daily mean is the mean of some day bucket, and each day bucket with
   * an up sample contributes its mean.
   */
  lemma DailyAverageMembership(recent: seq<nat>)
    ensures forall x :: x in DailyAverages(recent) <==>
      exists d :: 0 <= d < DayCount(|recent|) && DayMean(recent, d) == Some(x)
  {
    var means := DayMeans(recent);
    PresentMembers(means);
    forall x
      ensures Some(x) in means <==> exists d :: 0 <= d < DayCount(|recent|) && DayMean(recent, d) == Some(x)
    {
      if Some(x) in means {
        var d :| 0 <= d < |means| && means[d] == Some(x);
      }
      if exists d :: 0 <= d < DayCount(|recent|) && DayMean(recent, d) == Some(x) {
        var d :| 0 <= d < DayCount(|recent|) && DayMean(recent, d) == Some(x);
        assert means[d] == Some(x);
      }
    }
  }

  /** Every daily mean lies between the least up sample and the largest sample. */
  lemma DailyAverageBounds(recent: seq<nat>)
    ensures DailyAverages(recent) != [] ==> MinPositive(recent) > 0
    ensures forall k :: 0 <= k < |DailyAverages(recent)| ==>
      MinPositive(recent) <= DailyAverages(recent)[k] <= MaxOf(recent)
  {
    var avgs := DailyAverages(recent);
    DailyAverageMembership(recent);
    forall k | 0 <= k < |avgs|
      ensures 0 < MinPositive(recent) <= avgs[k] <= MaxOf(recent)
    {
      assert avgs[k] in avgs;
      var d :| 0 <= d < DayCount(|recent|) && DayMean(recent, d) == Some(avgs[k]);
    }
    assert avgs != [] ==> 0 < MinPositive(recent) <= avgs[0];
  }

  /** No daily mean exists exactly when no sample is up. */
  lemma NoDailyAverageIffAllDown(recent: seq<nat>)
    ensures DailyAverages(recent) == [] <==> AllDown(recent)
  {
    var avgs := DailyAverages(recent);
    DailyAverageBounds(recent);
    DailyAverageMembership(recent);
    if !AllDown(recent) {
      var j :| 0 <= j < |recent| && recent[j] > 0;
      SampleInDay(recent, j);
      var d := j / PointsPerDay;
      var day := DaySlice(recent, d);
      assert !AllDown(day) by {
        var k :| 0 <= k < |day| && day[k] == recent[j];
      }
      assert DayMean(recent, d).Some?;
      assert DayMean(recent, d).value in avgs;
    }
  }

  /**
   * Axis bounds: 50 above the largest daily mean, and 50 below the smallest
   * positive daily mean (not going below 0); both 0 without daily means.
   */
  function AxisBounds(avgs: seq<nat>): (axis: Axis)
    ensures axis.low <= axis.high
    ensures |avgs| == 0 ==> axis == Axis(0, 0)
    ensures |avgs| > 0 ==> axis.high - AxisPadding in avgs
    ensures forall k :: 0 <= k < |avgs| ==> avgs[k] + AxisPadding <= axis.high
    ensures forall k :: 0 <= k < |avgs| && avgs[k] > 0 ==> axis.low + AxisPadding <= avgs[k] || axis.low == 0
    ensures axis.low > 0 ==> axis.low + AxisPadding in avgs
    ensures axis.low == 0 && !AllDown(avgs) ==> MinPositive(avgs) <= AxisPadding
  {
    if |avgs| > 0 then
      var high := MaxOf(avgs) + AxisPadding;
      var least := MinPositive(avgs);
      var low := if least >= AxisPadding then least - AxisPadding else 0;
      Axis(low, high)
    else
      Axis(0, 0)
  }

  /**
   * Five y-axis ticks from the low bound in equal integer steps of a quarter
   * of the range (rounded down); the last is within 3 of the high bound.
   */
  function YAxisSteps(axis: Axis): (ticks: seq<nat>)
    requires axis.low <= axis.high
    ensures |ticks| == 5
    ensures ticks[0] == axis.low
    ensures forall i :: 0 <= i < 4 ==> ticks[i] <= ticks[i + 1]
    ensures forall i :: 0 <= i < 4 ==> ticks[i + 1] - ticks[i] == ticks[1] - ticks[0]
    ensures ticks[4] <= axis.high < ticks[4] + 4
    ensures forall i :: 0 <= i < 5 ==> axis.low <= ticks[i] <= axis.high
  {
    var step := (axis.high - axis.low) / 4;
    [axis.low, axis.low + step, axis.low + 2 * step, axis.low + 3 * step, axis.low + 4 * step]
  }

  /** Chunk i of the up samples when there are more than 30: `|valid| / 30` consecutive samples. */
  function Chunk(valid: seq<nat>, i: nat): (chunk: seq<nat>)
    requires |valid| > PointBudget
    requires i < PointBudget
    ensures |chunk| == |valid| / PointBudget
    ensures 0 < |chunk|
    ensures ChunkStart(|valid|, i) + |chunk| <= |valid|
    ensures forall k :: 0 <= k < |chunk| ==> chunk[k] == valid[ChunkStart(|valid|, i) + k]
  {
    var step := |valid| / PointBudget;
    var start := ChunkStart(|valid|, i);
    var end := start + step;
    valid[start..Min(end, |valid|)]
  }

  /**
   * Index of the first sample of chunk i: `i * step` with `step = n / 30`.
   * Each of the 30 chunks is non-empty and ends inside the data.
   */
  function ChunkStart(n: nat, i: nat): (start: nat)
    requires n > PointBudget
    requires i < PointBudget
    ensures 0 < n / PointBudget
    ensures start + n / PointBudget <= n
    ensures start == i * (n / PointBudget)
  {
    var step := n / PointBudget;
    assert PointBudget * step <= n;
    MulOrder(i + 1, PointBudget, step);
    assert (i + 1) * step == i * step + step;
    i * step
  }

  /** Floor mean of chunk i, between the least and the largest up sample. */
  function ChunkMean(valid: seq<nat>, i: nat): (m: nat)
    requires |valid| > PointBudget
    requires AllUp(valid)
    requires i < PointBudget
    ensures m == Sum(Chunk(valid, i)) / (|valid| / PointBudget)
    ensures MinPositive(valid) <= m <= MaxOf(valid)
  {
    var chunk := Chunk(valid, i);
    var lo := MinPositive(valid);
    var hi := MaxOf(valid);
    assert forall k :: 0 <= k < |chunk| ==> lo <= chunk[k] <= hi by {
      forall k | 0 <= k < |chunk| ensures lo <= chunk[k] <= hi {
        var j := ChunkStart(|valid|, i) + k;
        assert 0 <= j < |valid| && chunk[k] == valid[j];
      }
    }
    MeanBounds(chunk, lo, hi);
    Sum(chunk) / |chunk|
  }

  /** A chunk's mean m satisfies m·step <= sum < (m+1)·step, so it is the floor mean. */
  lemma ChunkMeanIsFloorMean(valid: seq<nat>, i: nat)
    requires |valid| > PointBudget
    requires AllUp(valid)
    requires i < PointBudget
    ensures IsFloorMean(ChunkMean(valid, i), Sum(Chunk(valid, i)), |valid| / PointBudget)
  {
    FloorDivMean(Sum(Chunk(valid, i)), |valid| / PointBudget);
  }

  /** Means of chunks `i .. 30`, in chunk order; none is dropped, since no chunk is empty. */
  function ChunkMeans(valid: seq<nat>, i: nat): (means: seq<nat>)
    requires |valid| > PointBudget
    requires AllUp(valid)
    requires i <= PointBudget
    ensures |means| == PointBudget - i
    ensures forall k :: 0 <= k < |means| ==> means[k] == ChunkMean(valid, i + k)
    decreases PointBudget - i
  {
    if i == PointBudget then []
    else [ChunkMean(valid, i)] + ChunkMeans(valid, i + 1)
  }

  /**
   * Values to plot: all up samples when there are at most 30 of them,
   * otherwise the means of 30 equal chunks of them.
   */
  function GraphValues(recent: seq<nat>): (values: seq<nat>)
    ensures |values| == Min(CountUp(recent), PointBudget)
    ensures CountUp(recent) <= PointBudget ==> values == Positives(recent)
    ensures CountUp(recent) > PointBudget ==>
      forall k :: 0 <= k < |values| ==> values[k] == ChunkMean(Positives(recent), k)
    ensures |values| > 0 ==> MinPositive(recent) > 0
    ensures forall k :: 0 <= k < |values| ==> MinPositive(recent) <= values[k] <= MaxOf(recent)
  {
    var valid := Positives(recent);
    PositivesInRange(recent);
    if |valid| <= PointBudget then
      valid
    else
      var means := ChunkMeans(valid, 0);
      PositivesExtremes(recent);
      means
  }

  /** The least and largest up samples lie within the bounds of all samples. */
  lemma PositivesExtremes(recent: seq<nat>)
    requires CountUp(recent) > 0
    ensures MinPositive(recent) <= MinPositive(Positives(recent))
    ensures MaxOf(Positives(recent)) <= MaxOf(recent)
  {
    var valid := Positives(recent);
    PositivesMembers(recent);
    assert valid[0] in valid;
    UpSampleInRange(recent, MinPositive(valid));
    UpSampleInRange(recent, MaxOf(valid));
  }

  /** Every up sample lies between the least up sample and the largest sample. */
  lemma PositivesInRange(recent: seq<nat>)
    ensures |Positives(recent)| > 0 ==> MinPositive(recent) > 0
    ensures forall k :: 0 <= k < |Positives(recent)| ==>
      MinPositive(recent) <= Positives(recent)[k] <= MaxOf(recent)
  {
    var valid := Positives(recent);
    PositivesMembers(recent);
    forall k | 0 <= k < |valid| ensures 0 < MinPositive(recent) <= valid[k] <= MaxOf(recent) {
      assert valid[k] in valid;
      UpSampleInRange(recent, valid[k]);
    }
    if |valid| > 0 {
      assert 0 < MinPositive(recent) <= valid[0];
    }
  }

  /** Vertical position in percent: the value's place between the axis bounds, scaled to 80. */
  function Bottom(value: nat, axis: Axis): (pct: real)
    ensures 0.0 <= pct <= PlotHeight
    ensures pct > 0.0 <==> axis.low < value && axis.low < axis.high
    ensures axis.low < axis.high <= value ==> pct == PlotHeight
    ensures axis.low < value <= axis.high ==>
      pct * ((axis.high - axis.low) as real) == ((value - axis.low) as real) * PlotHeight
  {
    var range := if axis.high >= axis.low then axis.high - axis.low else 0;
    if value > axis.low && range > 0 then
      var share := (value - axis.low) as real / range as real;
      Ratio(value - axis.low, range);
      var scaled := share * PlotHeight;
      assert scaled * (range as real) == ((value - axis.low) as real) * PlotHeight;
      if scaled <= PlotHeight then scaled else PlotHeight
    else
      0.0
  }

  /** A larger value is never drawn lower. */
  lemma BottomMonotone(v: nat, w: nat, axis: Axis)
    requires v <= w
    ensures Bottom(v, axis) <= Bottom(w, axis)
  {
    if axis.low < v && axis.low < axis.high {
      QuotientMono(v - axis.low, w - axis.low, axis.high - axis.low);
      Ratio(v - axis.low, axis.high - axis.low);
      Ratio(w - axis.low, axis.high - axis.low);
    }
  }

  /** Horizontal position in percent of point i of n: spread evenly from 2.5 to 97.5. */
  function Left(i: nat, n: nat): (pct: real)
    requires i < n
    ensures 2.5 <= pct <= 97.5
    ensures i == 0 ==> pct == 2.5
    ensures 2 <= n && i == n - 1 ==> pct == 97.5
    ensures (pct - 2.5) * (Max(n - 1, 1) as real) == 95.0 * (i as real)
  {
    var span := Max(n - 1, 1);
    var share := i as real / span as real;
    Ratio(i, span);
    assert (share * 95.0) * (span as real) == 95.0 * (share * (span as real));
    2.5 + share * 95.0
  }

  /** Later points are drawn further right. */
  lemma LeftIncreasing(i: nat, j: nat, n: nat)
    requires i < j < n
    ensures Left(i, n) < Left(j, n)
  {
    QuotientMono(i, j, Max(n - 1, 1));
  }

  /** The plotted points, in order. */
  function GraphPoints(values: seq<nat>, axis: Axis): (points: seq<GraphPoint>)
    ensures |points| == |values|
    ensures forall i :: 0 <= i < |points| ==>
      points[i] == GraphPoint(Left(i, |values|), Bottom(values[i], axis), values[i])
    ensures forall i :: 0 <= i < |points| ==>
      0.0 <= points[i].bottom <= PlotHeight && 2.5 <= points[i].left <= 97.5
    ensures forall i, j :: 0 <= i < j < |points| ==> points[i].left < points[j].left
    ensures forall i, j :: 0 <= i < |points| && 0 <= j < |points| && values[i] <= values[j] ==>
      points[i].bottom <= points[j].bottom
  {
    var n := |values|;
    var points := seq(n, i requires 0 <= i < n => GraphPoint(Left(i, n), Bottom(values[i], axis), values[i]));
    assert forall i, j :: 0 <= i < j < n ==> points[i].left < points[j].left by {
      forall i, j | 0 <= i < j < n ensures points[i].left < points[j].left {
        LeftIncreasing(i, j, n);
      }
    }
    assert forall i, j :: 0 <= i < n && 0 <= j < n && values[i] <= values[j] ==>
      points[i].bottom <= points[j].bottom
    by {
      forall i, j | 0 <= i < n && 0 <= j < n && values[i] <= values[j]
        ensures points[i].bottom <= points[j].bottom
      {
        BottomMonotone(values[i], values[j], axis);
      }
    }
    points
  }

  /**
   * Max of all recent samples, least up sample, and the mean of the daily
   * means (not of the raw samples); 0 where there is nothing to take.
   */
  function ResponseStats(recent: seq<nat>): (r: ResponseTimes)
    ensures forall i :: 0 <= i < |recent| ==> recent[i] <= r.max
    ensures |recent| > 0 ==> r.max in recent
    ensures |recent| == 0 ==> r.max == 0
    ensures r.max == MaxOf(recent)
    ensures r.min == MinPositive(recent)
    ensures r.min == 0 <==> AllDown(recent)
    ensures r.min > 0 ==> r.min in recent
    ensures forall i :: 0 <= i < |recent| && recent[i] > 0 ==> r.min <= recent[i]
    ensures r.avg == 0 <==> AllDown(recent)
    ensures r.min <= r.avg <= r.max
    ensures DailyAverages(recent) != [] ==>
      MinPositive(DailyAverages(recent)) <= r.avg <= MaxOf(DailyAverages(recent))
    ensures DailyAverages(recent) != [] ==>
      r.avg == Sum(DailyAverages(recent)) / |DailyAverages(recent)|
  {
    var avgs := DailyAverages(recent);
    NoDailyAverageIffAllDown(recent);
    DailyAverageBounds(recent);
    var avg := if |avgs| > 0 then Sum(avgs) / |avgs| else 0;
    assert |avgs| > 0 ==>
      MinPositive(recent) <= avg <= MaxOf(recent) && MinPositive(avgs) <= avg <= MaxOf(avgs)
    by {
      if |avgs| > 0 {
        MeanBounds(avgs, MinPositive(recent), MaxOf(recent));
        assert AllUp(avgs);
        MeanBounds(avgs, MinPositive(avgs), MaxOf(avgs));
      }
    }
    ResponseTimes(MaxOf(recent), MinPositive(recent), avg)
  }

  /** The average response time is the floor mean of the daily means. */
  lemma AverageResponseIsFloorMean(recent: seq<nat>)
    requires !AllDown(recent)
    ensures IsFloorMean(ResponseStats(recent).avg, Sum(DailyAverages(recent)), |DailyAverages(recent)|)
  {
    NoDailyAverageIffAllDown(recent);
    FloorDivMean(Sum(DailyAverages(recent)), |DailyAverages(recent)|);
  }

  /**
   * With samples from the store every mean truncated to `u32`
   * (src/main.rs:316, 344 and 368) is at most 2^31 - 1, so
   * the truncation loses nothing.
   */
  lemma MeansFitU32(samples: seq<nat>)
    requires FromStore(samples)
    ensures ResponseStats(Recent(samples)).avg <= I32Max
    ensures forall k :: 0 <= k < |GraphValues(Recent(samples))| ==> GraphValues(Recent(samples))[k] <= I32Max
    ensures FromStore(DailyAverages(Recent(samples)))
  {
    var recent := Recent(samples);
    TakeFromStore(samples, RecentWindow);
    MaxOfAtMost(recent, I32Max);
    DailyAveragesFromStore(recent);
  }

  /** Every plotted value lies between the minimum and maximum response time shown. */
  lemma PlottedValuesWithinResponse(recent: seq<nat>)
    ensures forall k :: 0 <= k < |GraphValues(recent)| ==>
      ResponseStats(recent).min <= GraphValues(recent)[k] <= ResponseStats(recent).max
  {
    var stats := ResponseStats(recent);
    assert stats.min == MinPositive(recent) && stats.max == MaxOf(recent);
  }

  /** The whole trend graph of one service's samples. */
  function BuildTrend(samples: seq<nat>): (t: Trend)
    ensures |t.points| == Min(CountUp(Recent(samples)), PointBudget)
    ensures |t.yAxisSteps| == 5
    ensures t.response.min <= t.response.avg <= t.response.max
    ensures t.response == ResponseStats(Recent(samples))
    ensures t.yAxisSteps == YAxisSteps(AxisBounds(DailyAverages(Recent(samples))))
    ensures t.points == GraphPoints(GraphValues(Recent(samples)), AxisBounds(DailyAverages(Recent(samples))))
  {
    var recent := Recent(samples);
    var axis := AxisBounds(DailyAverages(recent));
    var values := GraphValues(recent);
    var points := GraphPoints(values, axis);
    var stats := ResponseStats(recent);
    Trend(points, YAxisSteps(axis), stats)
  }

  /** Daily means of store samples are store-sized too. */
  lemma DailyAveragesFromStore(recent: seq<nat>)
    requires FromStore(recent)
    ensures FromStore(DailyAverages(recent))
  {
    DailyAverageBounds(recent);
    MaxOfAtMost(recent, I32Max);
  }

  /** The high axis bound is at most 50 above any bound on the daily means. */
  lemma AxisHighAtMost(avgs: seq<nat>, b: nat)
    requires forall k :: 0 <= k < |avgs| ==> avgs[k] <= b
    ensures AxisBounds(avgs).high <= b + AxisPadding
  {
    MaxOfAtMost(avgs, b);
  }

  /**
   * With samples from the store, the axis bounds and ticks fit the unsigned
   * 32-bit integers the source computes them in: `max + 50` cannot overflow.
   */
  lemma AxisFitsU32(samples: seq<nat>)
    requires FromStore(samples)
    ensures AxisBounds(DailyAverages(Recent(samples))).high < U32Limit
    ensures forall i :: 0 <= i < 5 ==> YAxisSteps(AxisBounds(DailyAverages(Recent(samples))))[i] < U32Limit
  {
    var recent := Recent(samples);
    TakeFromStore(samples, RecentWindow);
    DailyAveragesFromStore(recent);
    AxisHighAtMost(DailyAverages(recent), I32Max);
  }
}
