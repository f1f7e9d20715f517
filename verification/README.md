# Status page aggregation, modelled in Dafny

This project models the figures the statuspage web server computes from each monitored service's per-minute response-time samples. In those samples, 0 means "down". The figures are:

- **Rolling uptime.** The share of up samples among the first 1440, 10080, 43200 or 129600 samples: 1, 7, 30 or 90 days at one sample per minute. An empty history counts as 100 %.
- **Sample normalisation.** Stored signed 32-bit values are read as unsigned samples, and every non-positive value becomes 0.
- **The 90-entry daily status strip.** The samples are cut into 1440-sample day buckets. A bucket that is more than 50 % down is "down". One that is more than 25 % down is "partial". Any other bucket is "up". Each entry's description is the bucket's up share. "No data" entries pad the front when fewer than 90 days exist.
- **The overall status of the index page.** It is "up" when no service is offline, including when there are no services. It is "down" when every service is offline. Otherwise it is "partial".
- **The index page's uptimes.** Each is averaged over all services, and is 100 when there is no service.
- **The trend graph of a service's detail page**, drawn from the first 43200 samples:
  - the floor means of each day's up samples;
  - y-axis bounds 50 below and 50 above those means;
  - five integer y-axis ticks;
  - at most 30 plotted points, formed by averaging 30 equal chunks of the up samples when there are more than 30;
  - each point's position in percent;
  - the maximum, minimum and average response times.

Modules follow the structure of the computation:

| file | module | contents |
|---|---|---|
| `samples.dfy` | `Samples` | the sample type, normalisation, counting, sums and floor means, largest and least-up sample, percentages, day buckets |
| `uptime.dfy` | `RollingUptime` | `calculate_uptime` and its four windows |
| `daily_status.dfy` | `DailyStatus` | day classification and the 90-entry strip |
| `trend_graph.dfy` | `TrendGraph` | daily means, axis, ticks, down-sampling, point positions, response-time figures |
| `status_page.dfy` | `StatusPage` | the service record, overall status, averaged uptimes, the index page and the detail page of one service (found by id) |

Modelling choices:

- Rust's `f64` percentages are modelled as exact `real`s. The thresholds `> 50.0` and `> 25.0` are proved equivalent to cross-multiplied integer tests (`Samples.PercentAbove`).
- Unsigned integer arithmetic (`u32`, `u64`) is modelled on `nat`. The only additions that could overflow `u32` are `max + 50` and the tick computation. `TrendGraph.AxisFitsU32` proves that, for samples read from the store, neither leaves the `u32` range.
- The `u64` sums cannot overflow: at most 43200 summands, each below 2^31. The truncating `as u32` casts of the means (`src/main.rs:316`, `:344`, `:368`) lose nothing either: every mean lies between the least up sample and the largest sample, which is below 2^31 for store samples (`TrendGraph.MeansFitU32`).
- Every "window" takes the first N samples in storage order. That is what `.take(N)` does in the source. These are the most recent samples only if the store keeps samples newest first. The model follows the code and takes the first N.
- The number of days is computed in two ways: with an `f64` ceiling at `src/main.rs:126` and with integer arithmetic at `src/main.rs:304`. Both are modelled as the integer ceiling `Samples.DayCount`. They agree for any history shorter than 2^53 samples.
- The source computes the strip twice, once per page: `src/main.rs:124-173` and `src/main.rs:248-297`. The two copies are identical, and both are modelled by the single function `DailyStatus.StatusStrip`. The same holds for normalisation at `src/main.rs:113-116` and `src/main.rs:240-243`, modelled by `Samples.Normalise`.
- The strip loop is modelled as the code writes it. It collects the day buckets, stops early when a day starts past the data, and classifies each bucket, with an empty bucket giving "no data". Within the available days, `DailyStatus.DayBuckets` shows that the early stop never happens, and `DailyStatus.DayLoopEntries` with `DailyStatus.ShownDaysHaveData` shows that every bucket is a non-empty day, so the empty-bucket branch is never taken.
- In the down-sampling, an empty chunk would be dropped by `filter_map`. `TrendGraph.Chunk` proves that every chunk holds `|valid| / 30 >= 1` samples, so `ChunkMeans` always yields exactly 30 means.

## Model

| member | source | states |
|---|---|---|
| Samples.NormaliseSample | src/main.rs:115 | a stored value reads as up exactly when it is positive; a positive value is kept unchanged; the result never exceeds 2^31-1 |
| Samples.Normalise | src/main.rs:113-116 | the sample sequence has the stored column's length and order; each entry is up exactly when the stored value is positive, and positive values are kept |
| Samples.Take | src/main.rs:79-80 | `.take(n)` yields the first min(n, length) samples, as a prefix |
| Samples.CountUp | src/main.rs:79-82 | the up count is at most the length |
| Samples.CountDown | src/main.rs:152 | the down count is at most the length |
| Samples.TakeFromStore | src/main.rs:299-302 | a prefix of store-range samples stays in the store range |
| Samples.CountUpDown | src/main.rs:79-82 | every sample is counted exactly once, as up or as down |
| Samples.CountUpAll | src/main.rs:79-82 | the up count equals the length exactly when every sample is up |
| Samples.CountUpNone | src/main.rs:79-82 | the up count is zero exactly when every sample is down |
| Samples.Positives | src/main.rs:352-355 | filtering `x > 0` yields as many samples as the up count, all of them up |
| Samples.PositivesMembers | src/main.rs:352-355 | a value is kept exactly when it is an up value of the input |
| Samples.PositivesConcat | src/main.rs:352-355 | filtering a concatenation is the concatenation of the filtered parts, so the kept samples stay in input order |
| Samples.PositivesSingleton | src/main.rs:352-355 | one sample is kept exactly when it is up; with `PositivesConcat` this fixes the order and multiplicity of the kept samples |
| Samples.Sum | src/main.rs:312-314 | the `u64` sum of the samples, computed exactly; its meaning is stated by `SumZero`, `SumPositives` and `SumBounds` |
| Samples.SumZero | src/main.rs:312-314 | a sum is zero exactly when every term is zero |
| Samples.SumPositives | src/main.rs:312-314 | dropping the down samples does not change the sum |
| Samples.FloorDivMean | src/main.rs:316 | unsigned division `sum / count` is the floor mean: m·count ≤ sum < m·count + count |
| Samples.FloorMeanUnique | src/main.rs:316 | at most one value is the floor mean of a given sum and count |
| Samples.SumBounds | src/main.rs:312-314 | a sum of terms bounded by lo and hi lies between length·lo and length·hi |
| Samples.DivBounds | src/main.rs:316 | integer division by n keeps bounds that held before dividing |
| Samples.MeanBounds | src/main.rs:312-316 | the floor mean of a non-empty sequence lies within any bounds of its terms |
| Samples.MaxOf | src/main.rs:340 | `.max().unwrap_or(0)`: at least every sample, one of the samples, 0 when empty |
| Samples.MinPositive | src/main.rs:341 | `.filter(x > 0).min().unwrap_or(0)`: 0 exactly when no sample is up, otherwise an up sample no larger than any up sample |
| Samples.Percent | src/main.rs:84 | `(k / n) * 100` times n is 100·k; it lies in [0, 100], is 0 exactly when k is 0 and 100 exactly when k is n |
| Samples.PercentComplement | src/main.rs:153-160 | the down share subtracted from 100 is the up share |
| Samples.PercentAbove | src/main.rs:155-157 | a percentage exceeds a threshold t exactly when 100·k > t·n |
| Samples.UpSampleInRange | src/main.rs:340-341 | every up sample lies between the least up sample and the largest sample |
| Samples.MaxOfAtMost | src/main.rs:327 | a bound on every sample bounds the largest one |
| Samples.DayCount | src/main.rs:304 | the day count is 0 exactly for no samples, and otherwise the least c with n ≤ c·1440 |
| Samples.DayStartInRange | src/main.rs:138-142 | day d lies below the ceiling of length / 1440 exactly when its first sample index is inside the data |
| Samples.DaySlice | src/main.rs:144-149 | day d's bucket holds min(1440, length − d·1440) samples, never none, and is the run of samples starting at index d·1440 |
| Samples.SampleInDay | src/main.rs:304-309 | sample j is entry j mod 1440 of the bucket of day j / 1440, which exists |
| RollingUptime.Uptime | src/main.rs:72-85 | an empty history gives 100; otherwise percentage × counted window = 100 × up samples among the first `window`; in [0, 100]; 100 exactly when those samples are all up; 0 exactly when they exist and are all down |
| RollingUptime.EffectiveWindow | src/main.rs:77 | the counted window is the requested window or the length, whichever is smaller |
| RollingUptime.UptimeFromDowns | src/main.rs:72-85 | uptime is 100 minus the down share of the same window |
| RollingUptime.UptimeWholeSequence | src/main.rs:77 | a window at least as long as the data counts the whole data |
| RollingUptime.UptimeExamples | src/main.rs:72-85 | [5,5,0,5] over 4 gives 75; [0,0,0] over 2 gives 0; [5] over 100 gives 100 |
| DailyStatus.DownPercentage | src/main.rs:152-153 | the down share of a non-empty day times its size is 100 × its down count, so it is a percentage |
| DailyStatus.ClassifyDay | src/main.rs:151-172 | "no data" exactly for an empty bucket; "down" exactly when 2·down > size; "partial" exactly when 2·down ≤ size < 4·down; "up" exactly when 4·down ≤ size; a non-empty bucket's figure is a percentage |
| DailyStatus.ClassifyDayUptime | src/main.rs:152-160 | the figure shown for a non-empty day, 100 minus its down share, is that day's uptime over its own length |
| DailyStatus.ShownDays | src/main.rs:138 | the strip shows min(days covered, 90) days: at most both, and equal to one of them |
| DailyStatus.PaddingDays | src/main.rs:131-136 | padding and shown days add up to 90, so the padding is 90 − days covered when fewer than 90 days are covered and 0 otherwise; all 90 entries are padding exactly when there are no samples |
| DailyStatus.DayBuckets | src/main.rs:138-149 | the loop visits at most `limit - day` buckets, and exactly that many while the limit is within the available days |
| DailyStatus.DayBucketEntry | src/main.rs:138-149 | within the available days, the loop's k-th bucket is day bucket day + k |
| DailyStatus.DayLoop | src/main.rs:138-173 | one segment per visited bucket; exactly `limit` segments when the limit is within the available days |
| DailyStatus.DayLoopEntries | src/main.rs:138-173 | within the available days, the loop's entry d classifies day bucket d |
| DailyStatus.StatusStrip | src/main.rs:124-173 | exactly 90 entries; the first 90 − min(days, 90) are "no data"; entry padding + d classifies day bucket d |
| DailyStatus.ShownDaysHaveData | src/main.rs:151-172 | no entry after the padding is "no data" |
| DailyStatus.TenUpDays | src/main.rs:124-173 | ten full days of up samples give 80 "no data" entries, then 10 "up" entries at 100 % |
| DailyStatus.ThresholdsAreStrict | src/main.rs:155-160 | exactly 50 % down is "partial", not "down"; exactly 25 % down is "up", not "partial" |
| DailyStatus.MostlyDownDay | src/main.rs:151-166 | a day of [0,0,0,5,5] is "down" with a 40 % up share |
| TrendGraph.Recent | src/main.rs:299-302 | the first min(length, 43200) samples, in storage order, spanning at most 30 day buckets |
| TrendGraph.UpMean | src/main.rs:311-319 | a day has a mean exactly when it has an up sample; the mean is the sum of the day (its down samples add nothing) divided by its up count, and lies between its least up sample and its largest sample |
| TrendGraph.UpMeanIsFloorMean | src/main.rs:311-316 | a day's mean m satisfies m·up count ≤ day sum < (m + 1)·up count |
| TrendGraph.DayMean | src/main.rs:304-322 | day d has a mean exactly when its bucket has an up sample; the mean is that bucket's sum divided by its up count, between the least up sample and the largest sample overall |
| TrendGraph.DayMeans | src/main.rs:305-323 | one optional mean per day bucket, in day order |
| TrendGraph.Present | src/main.rs:305-324 | `filter_map` keeps at most as many values as it has entries |
| TrendGraph.PresentMembers | src/main.rs:305-324 | a value is kept exactly when some entry holds it |
| TrendGraph.PresentConcat | src/main.rs:305-324 | `filter_map` over a concatenation is the concatenation of the parts' results, so the order is kept |
| TrendGraph.PresentSingleton | src/main.rs:305-324 | one entry contributes its value exactly when it is present |
| TrendGraph.PresentStep | src/main.rs:305-324 | entry n appends its value, if present, to what the entries before it gave |
| TrendGraph.DailyAverages | src/main.rs:304-324 | at most one daily mean per day bucket |
| TrendGraph.DaysWithUp | src/main.rs:304-320 | the number of day buckets among the first n holding an up sample is at most n |
| TrendGraph.DailyAveragesStep | src/main.rs:304-324 | day n appends its own mean after those of days 0 .. n − 1 when it has an up sample, and nothing otherwise: the daily means are in day order |
| TrendGraph.PresentPerDay | src/main.rs:304-324 | a per-day sequence present exactly on the days with an up sample keeps one value per such day among the first n |
| TrendGraph.DailyAveragesCount | src/main.rs:304-324 | there is exactly one daily mean per day bucket holding an up sample |
| TrendGraph.DailyAverageMembership | src/main.rs:304-324 | a value is a daily mean exactly when some day bucket's up mean equals it |
| TrendGraph.DailyAverageBounds | src/main.rs:304-324 | every daily mean lies between the least up sample and the largest sample |
| TrendGraph.NoDailyAverageIffAllDown | src/main.rs:304-324 | there are no daily means exactly when no recent sample is up |
| TrendGraph.AxisBounds | src/main.rs:326-337 | no means give (0, 0); otherwise high is the largest mean + 50 and low is the least positive mean − 50, floored at 0; low ≤ high |
| TrendGraph.YAxisSteps | src/main.rs:393-397 | five ticks start at low, rise in equal steps, all lie in [low, high], and the last is within 3 below high |
| TrendGraph.Chunk | src/main.rs:360-365 | chunk i is the non-empty run of `len / 30` samples starting at `ChunkStart`, inside the data |
| TrendGraph.ChunkStart | src/main.rs:362-364 | chunk i starts at i·(n / 30); the step is positive and the chunk ends inside the data |
| TrendGraph.ChunkMean | src/main.rs:366-368 | chunk i's mean is its sum divided by the step, between the least and the largest up sample |
| TrendGraph.ChunkMeanIsFloorMean | src/main.rs:366-368 | a chunk mean m satisfies m·step ≤ chunk sum < (m + 1)·step |
| TrendGraph.ChunkMeans | src/main.rs:361-373 | exactly 30 − i means, and entry k is the mean of chunk i + k, so none is dropped and the order is kept |
| TrendGraph.GraphValues | src/main.rs:351-374 | min(up count, 30) values: exactly the up samples when there are at most 30, otherwise entry k is the mean of chunk k of the up samples; each lies between the least up sample and the largest sample |
| TrendGraph.PositivesInRange | src/main.rs:352-355 | every kept up sample lies between the least up sample and the largest sample, and the least up sample is positive when one exists |
| TrendGraph.PositivesExtremes | src/main.rs:352-373 | the least and largest of the kept up samples lie within the bounds of all samples |
| TrendGraph.Bottom | src/main.rs:376-383 | a point's height lies in [0, 80]; it is positive exactly when the value is above low and the range is non-zero; it is capped at 80 from high upwards, and proportional to value − low in between |
| TrendGraph.BottomMonotone | src/main.rs:376-383 | a larger value is never drawn lower |
| TrendGraph.Left | src/main.rs:385 | (left − 2.5) · max(n − 1, 1) = 95 · i: evenly spaced from 2.5; in [2.5, 97.5], with the last of two or more points at 97.5 |
| TrendGraph.LeftIncreasing | src/main.rs:385 | later points lie strictly further right |
| TrendGraph.GraphPoints | src/main.rs:376-391 | point i is placed at `Left(i, n)` and `Bottom(value, axis)` and carries value i; positions in range; left strictly increasing; height monotone in value |
| TrendGraph.ResponseStats | src/main.rs:339-349 | max is the largest sample (it bounds every sample, is one of them, and is 0 for no samples); min is the least up sample (0 exactly when all are down, otherwise an up sample no larger than any up sample); avg is the sum of the daily means divided by their number, 0 when there are none, between min and max and within the daily means |
| TrendGraph.AverageResponseIsFloorMean | src/main.rs:342-344 | when some sample is up, the average response time m satisfies m·days ≤ sum of the daily means < (m + 1)·days |
| TrendGraph.MeansFitU32 | src/main.rs:316-368 | for store samples, the daily means, the average response time and every plotted value are at most 2^31 − 1, so the truncating `as u32` casts lose nothing |
| TrendGraph.PlottedValuesWithinResponse | src/main.rs:339-374 | every plotted value lies between the minimum and maximum response time shown |
| TrendGraph.BuildTrend | src/main.rs:299-397 | min(up count, 30) points, five ticks, min ≤ avg ≤ max; the points, ticks and response figures are those of the first 43200 samples, the axis of their daily means and the plotted values |
| TrendGraph.DailyAveragesFromStore | src/main.rs:316 | daily means of store-range samples stay in the store range |
| TrendGraph.AxisHighAtMost | src/main.rs:327 | the high bound is at most 50 above any bound on the daily means |
| TrendGraph.AxisFitsU32 | src/main.rs:326-397 | for store samples, the `u32` computations `max + 50` and every tick stay below 2^32 |
| StatusPage.SamplesOf | src/main.rs:113-116 | a service's samples are as many as its stored values, entry i is stored value i normalised, and each is within the store range |
| StatusPage.OfflineCount | src/main.rs:102 | the number of offline services is at most the number of services |
| StatusPage.OfflineNone | src/main.rs:102-103 | the offline count is 0 exactly when every service is online |
| StatusPage.OfflineAll | src/main.rs:102-104 | the offline count equals the number of services exactly when every service is offline |
| StatusPage.OverallStatus | src/main.rs:102-106 | "up" exactly when every service is online (so also with none); "down" exactly when there are services and all are offline; "partial" exactly when some are online and some offline |
| StatusPage.ServiceUptime | src/main.rs:118-123 | a service's uptime over a window is the uptime of its normalised samples, a percentage |
| StatusPage.ServiceUptimes | src/main.rs:245-246 | the four fields are the uptimes over the 1440-, 10080-, 43200- and 129600-sample windows; all percentages, all 100 for an empty history |
| StatusPage.ShortHistoryUptimes | src/main.rs:245-246 | with at most a day of samples, all four windows give the same uptime |
| StatusPage.Total | src/main.rs:110-121 | a sum of n percentages lies in [0, 100·n] |
| StatusPage.Mean | src/main.rs:183-187 | no entries give 100; otherwise the mean times the count is the total; always in [0, 100] |
| StatusPage.TotalOfEqual | src/main.rs:110-121 | n equal percentages u sum to n·u |
| StatusPage.MeanOfEqual | src/main.rs:183-184 | the mean of equal percentages u is u |
| StatusPage.UptimesOver | src/main.rs:112-121 | one uptime per service, each a percentage |
| StatusPage.UptimesOverEntry | src/main.rs:112-121 | entry i of the list is service i's uptime over the window, so the list keeps the service order |
| StatusPage.AverageUptime | src/main.rs:183-187 | with no service the average is 100; otherwise it is the sum of the services' uptimes divided by their number; always a percentage |
| StatusPage.AverageOfEqualUptimes | src/main.rs:183-184 | when every service has uptime u, the average is u |
| StatusPage.AverageUptimes | src/main.rs:183-187 | the four fields are the service averages over the 1440-, 10080-, 43200- and 129600-sample windows; all percentages, all 100 with no service |
| StatusPage.Summarise | src/main.rs:123-180 | a service's index line keeps its id and name, shows the 24-hour uptime of its normalised samples and the 90-entry strip of those samples |
| StatusPage.IndexPage | src/main.rs:102-187 | line i is the summary of service i; the status is the overall status, "up" exactly when all are online and "down" exactly when there are services and all are offline; the uptimes are the averaged uptimes; no services give "up", no lines, and 100 everywhere |
| StatusPage.FirstIndex | src/main.rs:235 | the returned position is within range, and when inside the list it holds the first service with that id |
| StatusPage.FindService | src/main.rs:234-238 | nothing is found exactly when no service has the id; otherwise the result has the id and is the first such service |
| StatusPage.ServicePage | src/main.rs:234-247 | not found exactly when no service has the id; otherwise the page is for the first service with that id, and its strip, four uptimes and trend are computed from that service's normalised samples |

## Left out

- Response caches (`moka`) and their time-to-live are left out. They only replay earlier results.
- The HTTP routing, headers and status codes are left out. The "not found" answer is modelled as `None`.
- Template rendering, the static assets, `robots.txt` and the icon table are left out. They are presentation, not computation.
- The decimal formatting of percentages (`{:.2}`, `{:.1}`, `{}%`) and of timestamps is left out. Percentages are modelled as exact reals.
- The listing of incidents and its timestamp formatting is left out. It only reshapes database rows.
- The rounding of `f64` arithmetic is not modelled: sums and quotients are exact reals. Floating-point error in the uptime averages and in point positions is therefore not represented.
- `src/database.rs` (the PostgreSQL store) and `src/config.rs` (configuration loading) are not part of this model. The store is represented only by the `Service` record, and a failed query is not modelled: `unwrap_or_default` would turn it into an empty list, which the model covers as the empty input.
- The concurrent fetch with `tokio::join!` is left out. Only its results matter.
- RollingUptime.Uptime: requires a positive window. With window 0 and a non-empty history the source divides 0 by 0 and yields NaN. Every call site passes one of the four constant windows, so that case never occurs.
