/**
 * Per-minute response-time samples of one monitored service, and the small
 * sequence functions every aggregation of the status page is built from.
 *
 * A sample is a response time in milliseconds; 0 means the service was down
 * during that minute. The store keeps samples as signed 32-bit integers; the
 * aggregation reads them as unsigned values after clamping non-positive
 * entries to 0.
 */
module Samples {

  /** The store's column type: one signed 32-bit integer per minute. */
  newtype Int32 = x: int | -0x8000_0000 <= x < 0x8000_0000

  /** Largest value a normalised sample can take. */
  const I32Max: nat := 0x7FFF_FFFF

  /** One more than the largest unsigned 32-bit value. */
  const U32Limit: nat := 0x1_0000_0000

  /** Samples per day bucket: one per minute. */
  const PointsPerDay: nat := 1440

  datatype Option<T> = None | Some(value: T)

  function Min(a: int, b: int): int {
    if a <= b then a else b
  }

  function Max(a: int, b: int): int {
    if a <= b then b else a
  }

  /** Every sample fits the range a normalised store value can have. */
  predicate FromStore(s: seq<nat>) {
    forall i :: 0 <= i < |s| ==> s[i] <= I32Max
  }

  predicate AllUp(s: seq<nat>) {
    forall i :: 0 <= i < |s| ==> s[i] > 0
  }

  predicate AllDown(s: seq<nat>) {
    forall i :: 0 <= i < |s| ==> s[i] == 0
  }

  /** One stored value read as a sample: positive values are kept, the rest become "down". */
  function NormaliseSample(x: Int32): (r: nat)
    ensures r > 0 <==> x > 0
    ensures x > 0 ==> r as int == x as int
    ensures r <= I32Max
  {
    if x > 0 then x as nat else 0
  }

  /** The stored column as the sample sequence the aggregation reads, order kept. */
  function Normalise(raw: seq<Int32>): (s: seq<nat>)
    ensures |s| == |raw|
    ensures FromStore(s)
    ensures forall i :: 0 <= i < |s| ==> (s[i] > 0 <==> raw[i] > 0)
    ensures forall i :: 0 <= i < |s| && raw[i] > 0 ==> s[i] as int == raw[i] as int
  {
    seq(|raw|, i requires 0 <= i < |raw| => NormaliseSample(raw[i]))
  }

  /** The first n samples in storage order (`.take(n)`). */
  function Take(s: seq<nat>, n: nat): (t: seq<nat>)
    ensures |t| == Min(n, |s|)
    ensures t == s[..|t|]
  {
    s[..Min(n, |s|)]
  }

  /** A prefix of store samples holds store samples. */
  lemma TakeFromStore(s: seq<nat>, n: nat)
    requires FromStore(s)
    ensures FromStore(Take(s, n))
  {
    var t := Take(s, n);
    forall i | 0 <= i < |t| ensures t[i] <= I32Max {
      assert t[i] == s[i];
    }
  }

  /** Number of "up" samples (value > 0). */
  function CountUp(s: seq<nat>): (n: nat)
    ensures n <= |s|
  {
    if |s| == 0 then 0 else (if s[0] > 0 then 1 else 0) + CountUp(s[1..])
  }

  /** Number of "down" samples (value == 0). */
  function CountDown(s: seq<nat>): (n: nat)
    ensures n <= |s|
  {
    if |s| == 0 then 0 else (if s[0] == 0 then 1 else 0) + CountDown(s[1..])
  }

  /** Every sample is either up or down. */
  lemma {:induction false} CountUpDown(s: seq<nat>)
    ensures CountUp(s) + CountDown(s) == |s|
  {
    if |s| > 0 {
      CountUpDown(s[1..]);
    }
  }

  /** All samples are up exactly when the up count is the length. */
  lemma {:induction false} CountUpAll(s: seq<nat>)
    ensures CountUp(s) == |s| <==> AllUp(s)
  {
    if |s| > 0 {
      CountUpAll(s[1..]);
      assert AllUp(s) <==> s[0] > 0 && AllUp(s[1..]) by {
        if s[0] > 0 && AllUp(s[1..]) {
          forall i | 0 <= i < |s| ensures s[i] > 0 {
            if i > 0 { assert s[i] == s[1..][i - 1]; }
          }
        }
      }
    }
  }

  /** No sample is up exactly when the up count is zero. */
  lemma {:induction false} CountUpNone(s: seq<nat>)
    ensures CountUp(s) == 0 <==> AllDown(s)
  {
    if |s| > 0 {
      CountUpNone(s[1..]);
      assert AllDown(s) <==> s[0] == 0 && AllDown(s[1..]) by {
        if s[0] == 0 && AllDown(s[1..]) {
          forall i | 0 <= i < |s| ensures s[i] == 0 {
            if i > 0 { assert s[i] == s[1..][i - 1]; }
          }
        }
      }
    }
  }

  /** The up samples, in order (`.filter(|x| x > 0)`). */
  function Positives(s: seq<nat>): (p: seq<nat>)
    ensures |p| == CountUp(s)
    ensures AllUp(p)
  {
    if |s| == 0 then []
    else
      var rest := Positives(s[1..]);
      if s[0] > 0 then [s[0]] + rest else rest
  }

  /** The filter keeps exactly the up values of its input. */
  lemma {:induction false} PositivesMembers(s: seq<nat>)
    ensures forall x :: x in Positives(s) <==> x in s && x > 0
  {
    if |s| > 0 {
      PositivesMembers(s[1..]);
      assert forall x :: x in s <==> x == s[0] || x in s[1..];
    }
  }

  /** Filtering a concatenation filters each part: the up samples keep their order. */
  lemma {:induction false} PositivesConcat(a: seq<nat>, b: seq<nat>)
    ensures Positives(a + b) == Positives(a) + Positives(b)
  {
    if |a| == 0 {
      assert a + b == b;
    } else {
      var ab := a + b;
      assert ab[0] == a[0] && ab[1..] == a[1..] + b;
      PositivesConcat(a[1..], b);
      var head := if a[0] > 0 then [a[0]] else [];
      calc {
        Positives(ab);
        head + Positives(a[1..] + b);
        head + (Positives(a[1..]) + Positives(b));
        (head + Positives(a[1..])) + Positives(b);
      }
    }
  }

  /** A single sample passes the filter exactly when it is up. */
  lemma PositivesSingleton(x: nat)
    ensures Positives([x]) == (if x > 0 then [x] else [])
  {
    assert [x][1..] == [];
  }

  /** Sum of the samples (the source sums in `u64`, which cannot overflow for at most 43200 samples). */
  function Sum(s: seq<nat>): nat {
    if |s| == 0 then 0 else s[0] + Sum(s[1..])
  }

  /** A sum is zero exactly when every term is. */
  lemma {:induction false} SumZero(s: seq<nat>)
    ensures Sum(s) == 0 <==> AllDown(s)
  {
    if |s| > 0 {
      SumZero(s[1..]);
      assert forall i :: 1 <= i < |s| ==> s[i] == s[1..][i - 1];
    }
  }

  /** Dropping the down samples does not change the sum. */
  lemma {:induction false} SumPositives(s: seq<nat>)
    ensures Sum(Positives(s)) == Sum(s)
  {
    if |s| > 0 {
      SumPositives(s[1..]);
      if s[0] > 0 {
        assert ([s[0]] + Positives(s[1..]))[1..] == Positives(s[1..]);
      }
    }
  }

  /** m is the floor of total / n: m·n <= total < m·n + n. */
  predicate IsFloorMean(m: nat, total: nat, n: nat) {
    0 < n && m * n <= total < m * n + n
  }

  /** Unsigned integer division `total / n` is the floor mean. */
  lemma FloorDivMean(total: nat, n: nat)
    requires 0 < n
    ensures IsFloorMean(total / n, total, n)
  {
    var q := total / n;
    var r := total % n;
    assert total == q * n + r && 0 <= r < n;
  }

  /** The floor mean is unique, so IsFloorMean pins the value. */
  lemma FloorMeanUnique(a: nat, b: nat, total: nat, n: nat)
    requires IsFloorMean(a, total, n)
    requires IsFloorMean(b, total, n)
    ensures a == b
  {
    MulOrder(a + 1, b, n);
    MulOrder(b + 1, a, n);
    assert (a + 1) * n == a * n + n;
    assert (b + 1) * n == b * n + n;
  }

  /** A sum lies between length times any lower and any upper bound of its terms. */
  lemma {:induction false} SumBounds(s: seq<nat>, lo: nat, hi: nat)
    requires forall i :: 0 <= i < |s| ==> lo <= s[i] <= hi
    ensures |s| * lo <= Sum(s) <= |s| * hi
  {
    if |s| > 0 {
      SumBounds(s[1..], lo, hi);
      assert |s| * lo == lo + (|s| - 1) * lo;
      assert |s| * hi == hi + (|s| - 1) * hi;
    }
  }

  /** Multiplying by a natural number keeps the order of x and y. */
  lemma {:induction false} MulOrder(x: nat, y: nat, n: nat)
    ensures x <= y ==> x * n <= y * n
  {
    if n > 0 {
      MulOrder(x, y, n - 1);
      assert x * n == x * (n - 1) + x;
      assert y * n == y * (n - 1) + y;
    }
  }

  /** Floor division by n keeps bounds that hold before dividing. */
  lemma DivBounds(b: nat, n: nat, lo: nat, hi: nat)
    requires n > 0
    requires n * lo <= b <= n * hi
    ensures lo <= b / n <= hi
  {
    var q: nat := b / n;
    var r: nat := b % n;
    assert b == q * n + r && r < n;
    MulOrder(q + 1, lo, n);
    MulOrder(hi + 1, q, n);
  }

  /** The floor mean of a non-empty sequence lies between any bounds of its terms. */
  lemma MeanBounds(s: seq<nat>, lo: nat, hi: nat)
    requires |s| > 0
    requires forall i :: 0 <= i < |s| ==> lo <= s[i] <= hi
    ensures lo <= Sum(s) / |s| <= hi
  {
    SumBounds(s, lo, hi);
    DivBounds(Sum(s), |s|, lo, hi);
  }

  /** Largest sample, 0 for an empty sequence (`.max().unwrap_or(0)`). */
  function MaxOf(s: seq<nat>): (m: nat)
    ensures forall i :: 0 <= i < |s| ==> s[i] <= m
    ensures |s| == 0 ==> m == 0
    ensures |s| > 0 ==> m in s
  {
    if |s| == 0 then 0
    else
      var rest := MaxOf(s[1..]);
      assert forall i :: 1 <= i < |s| ==> s[i] == s[1..][i - 1];
      Max(s[0], rest)
  }

  /** Smallest up sample, 0 when there is none (`.filter(|x| x > 0).min().unwrap_or(0)`). */
  function MinPositive(s: seq<nat>): (m: nat)
    ensures m == 0 <==> AllDown(s)
    ensures m > 0 ==> m in s
    ensures forall i :: 0 <= i < |s| && s[i] > 0 ==> m <= s[i]
  {
    if |s| == 0 then 0
    else
      var rest := MinPositive(s[1..]);
      assert forall i :: 1 <= i < |s| ==> s[i] == s[1..][i - 1];
      if s[0] == 0 then rest
      else if rest == 0 then s[0]
      else Min(s[0], rest)
  }

  /** Scaling by a positive real keeps the order of q and 1. */
  lemma ScaleBelow(q: real, d: real)
    requires q < 1.0 && 0.0 < d
    ensures q * d < d
  {
  }

  lemma ScaleAbove(q: real, d: real)
    requires 1.0 < q && 0.0 < d
    ensures d < q * d
  {
  }

  lemma ScaleSign(q: real, d: real)
    requires 0.0 < d
    ensures q * d > 0.0 <==> q > 0.0
    ensures q * d >= 0.0 <==> q >= 0.0
  {
  }

  /** A factor q with q·d = m, for positive d, compares with 0 and 1 as m compares with 0 and d. */
  lemma ScaledOrder(q: real, m: real, d: real)
    requires 0.0 < d
    requires q * d == m
    ensures 0.0 < q <==> 0.0 < m
    ensures 0.0 <= q <==> 0.0 <= m
    ensures q <= 1.0 <==> m <= d
    ensures q >= 1.0 <==> m >= d
  {
    ScaleSign(q, d);
    if q < 1.0 {
      ScaleBelow(q, d);
    } else if q > 1.0 {
      ScaleAbove(q, d);
    }
  }

  /** Scaling by a positive real keeps the order of any two reals. */
  lemma ScaleCompare(x: real, y: real, d: real)
    requires 0.0 < d
    ensures x * d > y * d <==> x > y
    ensures x * d == y * d <==> x == y
  {
    ScaleSign(x - y, d);
    ScaleSign(y - x, d);
    assert (x - y) * d == x * d - y * d;
    assert (y - x) * d == y * d - x * d;
  }

  /**
   * The real quotient of two naturals: times the denominator it gives the
   * numerator back, and it is non-negative, positive with the numerator, and
   * at most (at least) 1 as the numerator is at most (at least) the denominator.
   */
  lemma Ratio(num: nat, den: nat)
    requires 0 < den
    ensures (num as real / den as real) * (den as real) == num as real
    ensures 0.0 <= num as real / den as real
    ensures 0.0 < num as real / den as real <==> 0 < num
    ensures num as real / den as real <= 1.0 <==> num <= den
    ensures num as real / den as real >= 1.0 <==> num >= den
  {
    var q := num as real / den as real;
    assert q * (den as real) == num as real;
    ScaledOrder(q, num as real, den as real);
  }

  /** Dividing by the same positive natural keeps the order of the numerators. */
  lemma QuotientMono(i: nat, j: nat, d: nat)
    requires 0 < d
    ensures i <= j ==> i as real / d as real <= j as real / d as real
    ensures i < j ==> i as real / d as real < j as real / d as real
  {
    var a := i as real / d as real;
    var b := j as real / d as real;
    Ratio(i, d);
    Ratio(j, d);
    assert (b - a) * (d as real) == (j as real) - (i as real);
    ScaledOrder(b - a, (j as real) - (i as real), d as real);
  }

  /** k out of n as a percentage, the way the source computes it: `(k / n) * 100`. */
  function Percent(k: nat, n: nat): (p: real)
    requires 0 < k + n
    requires k <= n
    ensures 0.0 <= p <= 100.0
    ensures p * (n as real) == 100.0 * (k as real)
    ensures p == 0.0 <==> k == 0
    ensures p == 100.0 <==> k == n
  {
    var x := k as real / n as real;
    Ratio(k, n);
    x * 100.0
  }

  /** Shares of complementary counts add up to 100. */
  lemma PercentComplement(k: nat, n: nat)
    requires 0 < n
    requires k <= n
    ensures Percent(n - k, n) == 100.0 - Percent(k, n)
  {
    var a := Percent(n - k, n);
    var b := Percent(k, n);
    var nr := n as real;
    assert a * nr == 100.0 * nr - 100.0 * (k as real);
    assert b * nr == 100.0 * (k as real);
    assert (a + b) * nr == a * nr + b * nr;
    ScaleCompare(a + b, 100.0, nr);
  }

  /** A percentage threshold test is the cross-multiplied integer test. */
  lemma PercentAbove(k: nat, n: nat, t: nat)
    requires 0 < n
    requires k <= n
    ensures Percent(k, n) > t as real <==> 100 * k > t * n
  {
    var p := Percent(k, n);
    var nr := n as real;
    assert p * nr == 100.0 * (k as real);
    ScaleCompare(p, t as real, nr);
    assert (t * n) as real == (t as real) * nr;
  }

  /** An up sample of s lies between the smallest up sample and the largest sample of s. */
  lemma UpSampleInRange(s: seq<nat>, x: nat)
    requires x in s
    requires x > 0
    ensures 0 < MinPositive(s) <= x <= MaxOf(s)
  {
    var i :| 0 <= i < |s| && s[i] == x;
  }

  /** A bound on every sample bounds the largest one. */
  lemma MaxOfAtMost(s: seq<nat>, b: nat)
    requires forall i :: 0 <= i < |s| ==> s[i] <= b
    ensures MaxOf(s) <= b
  {
    if |s| > 0 {
      var i :| 0 <= i < |s| && s[i] == MaxOf(s);
    }
  }

  /** Number of day buckets needed to hold n samples: the ceiling of n / 1440. */
  function DayCount(n: nat): (c: nat)
    ensures c == 0 <==> n == 0
    ensures 0 < c ==> (c - 1) * PointsPerDay < n <= c * PointsPerDay
  {
    (n + PointsPerDay - 1) / PointsPerDay
  }

  /** Day d has a bucket exactly when its first sample exists. */
  lemma DayStartInRange(n: nat, d: nat)
    ensures d < DayCount(n) <==> d * PointsPerDay < n
  {
  }

  /** The samples of day bucket d: 1440 of them, fewer only in the last bucket, never none. */
  function DaySlice(s: seq<nat>, d: nat): (day: seq<nat>)
    requires d < DayCount(|s|)
    ensures |day| == Min(PointsPerDay, |s| - d * PointsPerDay)
    ensures 0 < |day| <= PointsPerDay
    ensures d * PointsPerDay + |day| <= |s|
    ensures forall k :: 0 <= k < |day| ==> day[k] == s[d * PointsPerDay + k]
  {
    DayStartInRange(|s|, d);
    s[d * PointsPerDay .. Min((d + 1) * PointsPerDay, |s|)]
  }

  /** Sample j is entry j % 1440 of day bucket j / 1440. */
  lemma SampleInDay(s: seq<nat>, j: nat)
    requires j < |s|
    ensures j / PointsPerDay < DayCount(|s|)
    ensures j % PointsPerDay < |DaySlice(s, j / PointsPerDay)|
    ensures DaySlice(s, j / PointsPerDay)[j % PointsPerDay] == s[j]
  {
    var d := j / PointsPerDay;
    DayStartInRange(|s|, d);
    var day := DaySlice(s, d);
    var k := j - d * PointsPerDay;
    assert j == d * PointsPerDay + j % PointsPerDay;
    assert k == j % PointsPerDay;
    assert k < |day|;
    assert day[k] == s[j];
  }
}
