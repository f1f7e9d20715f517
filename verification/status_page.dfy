/**
 * The figures of the two status pages, built from the list of monitored
 * services: the index page (overall status, one summary per service,
 * uptimes averaged over all services) and the detail page of one service
 * (its uptimes, status strip and trend graph).
 */
module StatusPage {
  import opened Samples
  import opened RollingUptime
  import DailyStatus
  import TrendGraph

  /** A monitored service as the store returns it. */
  datatype Service = Service(
    id: string,
    name: string,
    serverUrl: string,
    responseTimes: seq<Int32>,
    isOnline: bool)

  /** Overall status shown at the top of the index page. */
  datatype Health = Up | Partial | Down

  /** Uptime percentages over 24 hours, 7, 30 and 90 days. */
  datatype Uptimes = Uptimes(day: real, week: real, month: real, quarter: real)

  /** One service's line on the index page. */
  datatype ServiceSummary = ServiceSummary(
    id: string,
    name: string,
    uptime: real,
    status: seq<DailyStatus.Segment>)

  /** Everything the index page shows that is computed from the services. */
  datatype IndexView = IndexView(
    status: Health,
    services: seq<ServiceSummary>,
    uptimes: Uptimes)

  /** Everything the detail page shows that is computed from one service. */
  datatype DetailView = DetailView(
    service: Service,
    status: seq<DailyStatus.Segment>,
    uptimes: Uptimes,
    trend: TrendGraph.Trend)

  /** The service's samples as the aggregation reads them. */
  function SamplesOf(service: Service): (s: seq<nat>)
    ensures |s| == |service.responseTimes|
    ensures forall i :: 0 <= i < |s| ==> s[i] == NormaliseSample(service.responseTimes[i])
    ensures FromStore(s)
  {
    Normalise(service.responseTimes)
  }

  /** Number of services that are offline. */
  function OfflineCount(services: seq<Service>): (n: nat)
    ensures n <= |services|
  {
    if |services| == 0 then 0
    else (if services[0].isOnline then 0 else 1) + OfflineCount(services[1..])
  }

  /** No service is offline exactly when the offline count is zero. */
  lemma {:induction false} OfflineNone(services: seq<Service>)
    ensures OfflineCount(services) == 0 <==> forall i :: 0 <= i < |services| ==> services[i].isOnline
  {
    if |services| > 0 {
      OfflineNone(services[1..]);
      assert forall i :: 1 <= i < |services| ==> services[i] == services[1..][i - 1];
    }
  }

  /** Every service is offline exactly when the offline count is the number of services. */
  lemma {:induction false} OfflineAll(services: seq<Service>)
    ensures OfflineCount(services) == |services| <==> forall i :: 0 <= i < |services| ==> !services[i].isOnline
  {
    if |services| > 0 {
      OfflineAll(services[1..]);
      assert forall i :: 1 <= i < |services| ==> services[i] == services[1..][i - 1];
    }
  }

  /**
   * Overall status: "up" when no service is offline (also when there is no
   * service), "down" when there are services and all are offline, otherwise
   * "partial".
   */
  function OverallStatus(services: seq<Service>): (h: Health)
    ensures h == Up <==> forall i :: 0 <= i < |services| ==> services[i].isOnline
    ensures h == Down <==> |services| > 0 && forall i :: 0 <= i < |services| ==> !services[i].isOnline
    ensures h == Partial <==>
      (exists i :: 0 <= i < |services| && services[i].isOnline) &&
      (exists j :: 0 <= j < |services| && !services[j].isOnline)
  {
    var offline := OfflineCount(services);
    OfflineNone(services);
    OfflineAll(services);
    if offline == 0 then Up
    else if offline == |services| then Down
    else Partial
  }

  /** A service's uptime over the given window. */
  function ServiceUptime(service: Service, window: nat): (pct: real)
    requires window > 0
    ensures 0.0 <= pct <= 100.0
    ensures pct == Uptime(SamplesOf(service), window)
  {
    Uptime(SamplesOf(service), window)
  }

  /** The service's uptimes over the four windows. */
  function ServiceUptimes(samples: seq<nat>): (u: Uptimes)
    ensures u.day == Uptime(samples, DayWindow) && u.week == Uptime(samples, WeekWindow)
    ensures u.month == Uptime(samples, MonthWindow) && u.quarter == Uptime(samples, QuarterWindow)
    ensures 0.0 <= u.day <= 100.0 && 0.0 <= u.week <= 100.0
    ensures 0.0 <= u.month <= 100.0 && 0.0 <= u.quarter <= 100.0
    ensures |samples| == 0 ==> u == Uptimes(100.0, 100.0, 100.0, 100.0)
  {
    Uptimes(
      Uptime(samples, DayWindow),
      Uptime(samples, WeekWindow),
      Uptime(samples, MonthWindow),
      Uptime(samples, QuarterWindow))
  }

  /** With at most a day of samples, all four windows count the same samples. */
  lemma ShortHistoryUptimes(samples: seq<nat>)
    requires 0 < |samples| <= DayWindow
    ensures var u := ServiceUptimes(samples);
      u.day == u.week == u.month == u.quarter == Uptime(samples, |samples|)
  {
    UptimeWholeSequence(samples, DayWindow);
    UptimeWholeSequence(samples, WeekWindow);
    UptimeWholeSequence(samples, MonthWindow);
    UptimeWholeSequence(samples, QuarterWindow);
  }

  /** Every entry is a percentage. */
  predicate Percentages(xs: seq<real>) {
    forall i :: 0 <= i < |xs| ==> 0.0 <= xs[i] <= 100.0
  }

  /** Sum of percentages. */
  function Total(xs: seq<real>): (t: real)
    requires Percentages(xs)
    ensures 0.0 <= t <= 100.0 * (|xs| as real)
  {
    if |xs| == 0 then 0.0 else xs[0] + Total(xs[1..])
  }

  /** Mean of percentages; 100 when there are none. */
  function Mean(xs: seq<real>): (avg: real)
    requires Percentages(xs)
    ensures |xs| == 0 ==> avg == 100.0
    ensures 0.0 <= avg <= 100.0
    ensures |xs| > 0 ==> avg * (|xs| as real) == Total(xs)
  {
    if |xs| > 0 then
      var n := |xs| as real;
      var t := Total(xs);
      var avg := t / n;
      assert avg * n == t;
      assert avg <= 100.0 by {
        assert t <= 100.0 * n;
      }
      avg
    else
      100.0
  }

  /** When every entry is `u`, the total is `u` times the count. */
  lemma {:induction false} TotalOfEqual(xs: seq<real>, u: real)
    requires Percentages(xs)
    requires forall i :: 0 <= i < |xs| ==> xs[i] == u
    ensures Total(xs) == (|xs| as real) * u
  {
    if |xs| > 0 {
      TotalOfEqual(xs[1..], u);
    }
  }

  /** When every entry is `u`, the mean is `u`. */
  lemma MeanOfEqual(xs: seq<real>, u: real)
    requires Percentages(xs)
    requires |xs| > 0
    requires forall i :: 0 <= i < |xs| ==> xs[i] == u
    ensures Mean(xs) == u
  {
    TotalOfEqual(xs, u);
  }

  /** Each service's uptime over one window, in list order. */
  function UptimesOver(services: seq<Service>, window: nat): (xs: seq<real>)
    requires window > 0
    ensures |xs| == |services|
    ensures Percentages(xs)
  {
    seq(|services|, i requires 0 <= i < |services| => ServiceUptime(services[i], window))
  }

  /** Entry i of the list is service i's uptime. */
  lemma UptimesOverEntry(services: seq<Service>, window: nat, i: nat)
    requires window > 0
    requires i < |services|
    ensures UptimesOver(services, window)[i] == ServiceUptime(services[i], window)
  {
  }

  /**
   * Uptime over one window averaged over the services; 100 when there is no
   * service.
   */
  function AverageUptime(services: seq<Service>, window: nat): (avg: real)
    requires window > 0
    ensures |services| == 0 ==> avg == 100.0
    ensures 0.0 <= avg <= 100.0
    ensures |services| > 0 ==> avg == Total(UptimesOver(services, window)) / (|services| as real)
  {
    Mean(UptimesOver(services, window))
  }

  /** When every service has the same uptime, the average is that uptime. */
  lemma AverageOfEqualUptimes(services: seq<Service>, window: nat, u: real)
    requires window > 0
    requires |services| > 0
    requires forall i :: 0 <= i < |services| ==> ServiceUptime(services[i], window) == u
    ensures AverageUptime(services, window) == u
  {
    var xs := UptimesOver(services, window);
    forall i | 0 <= i < |xs|
      ensures xs[i] == u
    {
      UptimesOverEntry(services, window, i);
    }
    MeanOfEqual(xs, u);
  }

  /** The four averaged uptimes of the index page. */
  function AverageUptimes(services: seq<Service>): (u: Uptimes)
    ensures u.day == AverageUptime(services, DayWindow) && u.week == AverageUptime(services, WeekWindow)
    ensures u.month == AverageUptime(services, MonthWindow) && u.quarter == AverageUptime(services, QuarterWindow)
    ensures |services| == 0 ==> u == Uptimes(100.0, 100.0, 100.0, 100.0)
    ensures 0.0 <= u.day <= 100.0 && 0.0 <= u.week <= 100.0
    ensures 0.0 <= u.month <= 100.0 && 0.0 <= u.quarter <= 100.0
  {
    Uptimes(
      AverageUptime(services, DayWindow),
      AverageUptime(services, WeekWindow),
      AverageUptime(services, MonthWindow),
      AverageUptime(services, QuarterWindow))
  }

  /** One service's index line: its 24-hour uptime and its status strip. */
  function Summarise(service: Service): (s: ServiceSummary)
    ensures s.id == service.id && s.name == service.name
    ensures s.uptime == Uptime(SamplesOf(service), DayWindow)
    ensures 0.0 <= s.uptime <= 100.0
    ensures s.status == DailyStatus.StatusStrip(SamplesOf(service))
    ensures |s.status| == DailyStatus.MaxDays
  {
    var samples := SamplesOf(service);
    ServiceSummary(service.id, service.name, Uptime(samples, DayWindow), DailyStatus.StatusStrip(samples))
  }

  /** The index page's figures. */
  function IndexPage(services: seq<Service>): (v: IndexView)
    ensures |v.services| == |services|
    ensures forall i :: 0 <= i < |services| ==>
      v.services[i].id == services[i].id && |v.services[i].status| == DailyStatus.MaxDays
    ensures forall i :: 0 <= i < |services| ==> v.services[i] == Summarise(services[i])
    ensures v.status == OverallStatus(services)
    ensures v.status == Up <==> forall i :: 0 <= i < |services| ==> services[i].isOnline
    ensures v.status == Down <==> |services| > 0 && forall i :: 0 <= i < |services| ==> !services[i].isOnline
    ensures v.uptimes == AverageUptimes(services)
    ensures |services| == 0 ==> v == IndexView(Up, [], Uptimes(100.0, 100.0, 100.0, 100.0))
  {
    var summaries := seq(|services|, i requires 0 <= i < |services| => Summarise(services[i]));
    IndexView(OverallStatus(services), summaries, AverageUptimes(services))
  }

  /** Position of the first service with the given id, or the length when there is none. */
  function FirstIndex(services: seq<Service>, id: string): (i: nat)
    ensures i <= |services|
    ensures i < |services| ==> services[i].id == id
    ensures forall j :: 0 <= j < i ==> services[j].id != id
  {
    if |services| == 0 then 0
    else if services[0].id == id then 0
    else 1 + FirstIndex(services[1..], id)
  }

  /** The first service with the given id (`iter().find`). */
  function FindService(services: seq<Service>, id: string): (r: Option<Service>)
    ensures r.None? <==> forall i :: 0 <= i < |services| ==> services[i].id != id
    ensures r.Some? ==> r.value.id == id
    ensures r.Some? ==> exists i :: 0 <= i < |services| && services[i] == r.value &&
                                 forall j :: 0 <= j < i ==> services[j].id != id
  {
    var i := FirstIndex(services, id);
    if i < |services| then Some(services[i]) else None
  }

  /** The detail page's figures for service `id`; none ("not found") when no service has that id. */
  function ServicePage(services: seq<Service>, id: string): (r: Option<DetailView>)
    ensures r.None? <==> forall i :: 0 <= i < |services| ==> services[i].id != id
    ensures r.Some? ==> r.value.service.id == id
    ensures r.Some? ==> FindService(services, id) == Some(r.value.service)
    ensures r.Some? ==> r.value.status == DailyStatus.StatusStrip(SamplesOf(r.value.service))
    ensures r.Some? ==> r.value.uptimes == ServiceUptimes(SamplesOf(r.value.service))
    ensures r.Some? ==> r.value.trend == TrendGraph.BuildTrend(SamplesOf(r.value.service))
    ensures r.Some? ==> |r.value.status| == DailyStatus.MaxDays
    ensures r.Some? ==> |r.value.trend.yAxisSteps| == 5
    ensures r.Some? ==> |r.value.trend.points| <= TrendGraph.PointBudget
  {
    match FindService(services, id)
    case None => None
    case Some(service) =>
      var samples := SamplesOf(service);
      Some(DetailView(service, DailyStatus.StatusStrip(samples), ServiceUptimes(samples), TrendGraph.BuildTrend(samples)))
  }
}
