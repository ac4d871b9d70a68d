/** Chart grids: the filled bucket grid of DSL charts, and the War Room window. */
module Charts {
  import opened Common
  import opened Buckets
  import Dsl

  const MAX_FILL_BUCKETS := 5000

  datatype ChartFill = ChartFill(bucketMs: int, startMs: int, endMs: int, zero: bool)

  /** The j-th grid point. */
  function Point(f: ChartFill, j: int): int {
    f.startMs + j * f.bucketMs
  }

  lemma PointMonotone(f: ChartFill, i: int, j: int)
    requires f.bucketMs > 0
    ensures i <= j ==> Point(f, i) <= Point(f, j)
    ensures Point(f, i + 1) == Point(f, i) + f.bucketMs
  {
    if i <= j { MulMonotone(i, j, f.bucketMs); }
  }

  /** The grid points, or None when there would be too few or too many of them. */
  function Grid(f: ChartFill): Option<seq<int>>
    requires f.bucketMs > 0
  {
    var n := TruncDiv(f.endMs - f.startMs, f.bucketMs);
    if n <= 0 || n > MAX_FILL_BUCKETS then None else Some(seq(n + 1, i => Point(f, i)))
  }

  lemma GridEnd(f: ChartFill)
    requires f.bucketMs > 0
    ensures var n := TruncDiv(f.endMs - f.startMs, f.bucketMs);
            n > 0 ==> Point(f, n) <= f.endMs < Point(f, n + 1)
  {
    var n := TruncDiv(f.endMs - f.startMs, f.bucketMs);
    BucketBounds(f.endMs - f.startMs, f.bucketMs);
    PointMonotone(f, n, n);
    if n > 0 && f.endMs < f.startMs { DivNonNegative(f.startMs - f.endMs, f.bucketMs); }
  }

  method FillBuckets(f: ChartFill) returns (out: Option<seq<int>>)
    requires f.bucketMs > 0
    ensures out == Grid(f)
    ensures f.startMs <= f.endMs ==>
              (out.Some? <==> f.bucketMs <= f.endMs - f.startMs && (f.endMs - f.startMs) / f.bucketMs <= 5000)
    ensures f.startMs > f.endMs ==> out.None?
  {
    var n := TruncDiv(f.endMs - f.startMs, f.bucketMs);
    if n <= 0 || n > MAX_FILL_BUCKETS { return None; }
    GridEnd(f);
    var bs: seq<int> := [];
    var b := f.startMs;
    while b <= f.endMs
      invariant b == Point(f, |bs|) && |bs| <= n + 1
      invariant forall j :: 0 <= j < |bs| ==> bs[j] == Point(f, j)
      decreases f.endMs - b
    {
      PointMonotone(f, n + 1, |bs|);
      PointMonotone(f, |bs|, |bs|);
      bs := bs + [b];
      b := b + f.bucketMs;
    }
    PointMonotone(f, |bs|, n);
    assert |bs| == n + 1;
    assert bs == Grid(f).value;
    out := Some(bs);
  }

  /** One chart series laid over the grid: the last row of each label wins, gaps are zero or null. */
  function GridValue(labels: seq<int>, data: seq<Option<real>>, zero: bool, b: int): Option<real>
    requires |labels| == |data|
  {
    if labels == [] then (if zero then Some(0.0) else None)
    else if labels[|labels| - 1] == b then data[|data| - 1]
    else GridValue(labels[..|labels| - 1], data[..|data| - 1], zero, b)
  }

  lemma {:induction false} GridValueNone(labels: seq<int>, data: seq<Option<real>>, zero: bool, b: int)
    requires |labels| == |data| && b !in labels
    ensures GridValue(labels, data, zero, b) == (if zero then Some(0.0) else None)
    decreases |labels|
  {
    if labels != [] { GridValueNone(labels[..|labels| - 1], data[..|data| - 1], zero, b); }
  }

  /** With one row per bucket, each grid point is that row's value and every other point a gap. */
  lemma {:induction false} GridValueIs(labels: seq<int>, data: seq<Option<real>>, zero: bool, i: nat)
    requires |labels| == |data| && i < |labels|
    requires forall j, k :: 0 <= j < k < |labels| ==> labels[j] != labels[k]
    ensures GridValue(labels, data, zero, labels[i]) == data[i]
    decreases |labels|
  {
    if i < |labels| - 1 {
      GridValueIs(labels[..|labels| - 1], data[..|data| - 1], zero, i);
    }
  }

  method Reindex(labels: seq<int>, data: seq<Option<real>>, grid: seq<int>, zero: bool) returns (filled: seq<Option<real>>)
    requires |labels| == |data|
    ensures |filled| == |grid|
    ensures forall j :: 0 <= j < |grid| ==> filled[j] == GridValue(labels, data, zero, grid[j])
  {
    var idx: map<int, nat> := map[];
    for i := 0 to |labels|
      invariant forall b :: b in idx ==> idx[b] < i && data[idx[b]] == GridValue(labels[..i], data[..i], zero, b)
      invariant forall b :: b in idx <==> b in labels[..i]
    {
      assert labels[..i + 1][..i] == labels[..i] && data[..i + 1][..i] == data[..i];
      idx := idx[labels[i] := i];
    }
    assert labels[..|labels|] == labels && data[..|data|] == data;
    assert forall b :: b in idx ==> idx[b] < |data| && data[idx[b]] == GridValue(labels, data, zero, b);
    filled := [];
    for j := 0 to |grid|
      invariant |filled| == j
      invariant forall k :: 0 <= k < j ==> filled[k] == GridValue(labels, data, zero, grid[k])
    {
      var b := grid[j];
      if b in idx {
        var i := idx[b];
        filled := filled + [data[i]];
      } else {
        GridValueNone(labels, data, zero, b);
        filled := filled + [if zero then Some(0.0) else None];
      }
    }
  }

  // The War Room's grid.

  function WarFill(bucketMs: int, fromMs: int, toMs: int, zero: bool): ChartFill
    requires bucketMs > 0
  {
    ChartFill(bucketMs, Bucket(fromMs, bucketMs), Bucket(toMs, bucketMs), zero)
  }

  lemma BucketSteps(x: int, y: int, b: int)
    requires b > 0
    ensures TruncDiv(Bucket(y, b) - Bucket(x, b), b) == TruncDiv(y, b) - TruncDiv(x, b)
    ensures Bucket(y, b) - Bucket(x, b) == (TruncDiv(y, b) - TruncDiv(x, b)) * b
  {
    var k := TruncDiv(y, b) - TruncDiv(x, b);
    MulMinus(TruncDiv(y, b), TruncDiv(x, b), b);
    TruncDivExact(k, b);
  }

  lemma MulMinus(p: int, q: int, b: int)
    ensures p * b - q * b == (p - q) * b
  {
  }

  lemma TruncDivExact(k: int, b: int)
    requires b > 0
    ensures TruncDiv(k * b, b) == k
  {
    BucketOfMultiple(k, b);
    var q := TruncDiv(k * b, b);
    if q < k { MulMonotone(q + 1, k, b); }
    if q > k { MulMonotone(k + 1, q, b); }
  }

  /** The War Room grid ends exactly at the last bucket and has one point per step. */
  lemma WarGridShape(bucketMs: int, fromMs: int, toMs: int, zero: bool)
    requires bucketMs > 0 && Grid(WarFill(bucketMs, fromMs, toMs, zero)).Some?
    ensures var f, g := WarFill(bucketMs, fromMs, toMs, zero), Grid(WarFill(bucketMs, fromMs, toMs, zero)).value;
            && |g| == (f.endMs - f.startMs) / bucketMs + 1
            && g[0] == f.startMs && g[|g| - 1] == f.endMs
  {
    BucketSteps(fromMs, toMs, bucketMs);
  }

  /** Every bucket the War Room query can return lies on its grid: no row is lost. */
  lemma WarGridComplete(d: Dsl.Query, fromMs: int, toMs: int, zero: bool, nowSec: int, ts: int)
    requires d.bucketMs > 0 && toMs > 0
    requires Dsl.InWindow(Dsl.OverrideWindow(d, fromMs, toMs), nowSec, ts)
    requires Grid(WarFill(d.bucketMs, fromMs, toMs, zero)).Some?
    ensures Bucket(ts, d.bucketMs) in Grid(WarFill(d.bucketMs, fromMs, toMs, zero)).value
  {
    var b, g := d.bucketMs, Grid(WarFill(d.bucketMs, fromMs, toMs, zero)).value;
    BucketSteps(fromMs, toMs, b);
    BucketSteps(fromMs, ts, b);
    TruncDivMonotone(fromMs, ts, b);
    TruncDivMonotone(ts, toMs, b);
    var i := TruncDiv(ts, b) - TruncDiv(fromMs, b);
    assert g[i] == Bucket(ts, b);
  }

  // The explorer's grid.

  function ExplorerFill(d: Dsl.Query, nowMs: int, zero: bool): ChartFill
    requires d.bucketMs > 0
  {
    WarFill(d.bucketMs, nowMs - d.windowMs, nowMs, zero)
  }

  /** Rounding a bound down to the second does not cross a bucket of whole seconds. */
  lemma SecondsKeepBuckets(bound: int, ts: int, b: int)
    requires b > 0 && b % 1000 == 0 && ts > bound - bound % 1000
    ensures Bucket(ts, b) >= Bucket(bound, b)
  {
    var k := TruncDiv(bound, b);
    BucketBounds(bound, b);
    BucketBounds(ts, b);
    if bound >= 0 {
      MultipleOfThousand(k, b);
      AboveMultiple(bound, k * b);
      BucketMonotone(k * b, ts, b);
      BucketOfMultiple(k, b);
    } else if ts < 0 {
      MultipleOfThousand(k - 1, b);
      MulMinus(k, 1, b);
      AboveMultiple(bound, (k - 1) * b);
      SameOrLaterBucket(ts, k, b);
    }
  }

  /** Cutting to the second stays above every whole second below. */
  lemma AboveMultiple(bound: int, m: int)
    requires m % 1000 == 0 && m <= bound
    ensures bound - bound % 1000 >= m
  {
  }

  lemma SameOrLaterBucket(ts: int, k: int, b: int)
    requires b > 0 && (k - 1) * b < ts < 0
    ensures Bucket(ts, b) >= k * b
  {
    var j := TruncDiv(ts, b);
    BucketBounds(ts, b);
    if j < k { MulMonotone(j, k - 1, b); } else { MulMonotone(k, j, b); }
  }

  lemma MultipleOfThousand(k: int, b: int)
    requires b % 1000 == 0
    ensures (k * b) % 1000 == 0
  {
    var c := b / 1000;
    assert k * b == (k * c) * 1000;
  }

  /** Whole-second spans survive the trip through the seconds of the emitted bound. */
  lemma ExplorerBound(d: Dsl.Query, nowMs: int, nowSec: int, ts: int)
    requires d.windowMs >= 0 && d.windowMs % 1000 == 0 && d.toMs == 0
    requires nowSec >= nowMs / 1000 && Dsl.InWindow(d, nowSec, ts)
    ensures var bound := nowMs - d.windowMs; ts > bound - bound % 1000
  {
    var bound, w := nowMs - d.windowMs, d.windowMs / 1000;
    assert d.windowMs == w * 1000 && TruncDiv(d.windowMs, 1000) == w;
    assert bound - bound % 1000 == (nowMs / 1000 - w) * 1000;
  }

  lemma MinutesAreSeconds(x: int)
    requires x % 60_000 == 0
    ensures x % 1000 == 0
  {
    assert x == (x / 60_000) * 60_000;
  }

  /** In the explorer a row's bucket never lies before the grid, although its bound is cut to the second. */
  lemma ExplorerLower(d: Dsl.Query, nowMs: int, nowSec: int, ts: int)
    requires Dsl.WholeMinutes(d) && d.bucketMs > 0 && d.toMs == 0
    requires nowSec >= nowMs / 1000 && Dsl.InWindow(d, nowSec, ts)
    ensures Bucket(ts, d.bucketMs) >= Bucket(nowMs - d.windowMs, d.bucketMs)
  {
    MinutesAreSeconds(d.bucketMs);
    MinutesAreSeconds(d.windowMs);
    ExplorerBound(d, nowMs, nowSec, ts);
    SecondsKeepBuckets(nowMs - d.windowMs, ts, d.bucketMs);
  }

  /**
    In the explorer a row lies on the grid exactly when it is not past the bucket of
    the clock reading, since the emitted query has no upper bound.
   */
  lemma ExplorerGridIff(d: Dsl.Query, nowMs: int, nowSec: int, zero: bool, ts: int)
    requires Dsl.WholeMinutes(d) && d.bucketMs > 0 && d.toMs == 0 && nowMs >= 0
    requires nowSec >= nowMs / 1000 && Dsl.InWindow(d, nowSec, ts)
    requires Grid(ExplorerFill(d, nowMs, zero)).Some?
    ensures Bucket(ts, d.bucketMs) in Grid(ExplorerFill(d, nowMs, zero)).value
            <==> ts < Bucket(nowMs, d.bucketMs) + d.bucketMs
  {
    ExplorerLower(d, nowMs, nowSec, ts);
    OnGridIff(ExplorerFill(d, nowMs, zero), nowMs - d.windowMs, nowMs, ts);
    PastBucketIff(ts, nowMs, d.bucketMs);
  }

  lemma PastBucketIff(ts: int, nowMs: int, b: int)
    requires b > 0 && nowMs >= 0
    ensures Bucket(ts, b) <= Bucket(nowMs, b) <==> ts < Bucket(nowMs, b) + b
  {
    var i, n := TruncDiv(ts, b), TruncDiv(nowMs, b);
    BucketBounds(ts, b);
    BucketBounds(nowMs, b);
    MulMinus(n + 1, 1, b);
    if ts >= (n + 1) * b {
      BucketMonotone((n + 1) * b, ts, b);
      BucketOfMultiple(n + 1, b);
    } else if ts >= 0 && i > n {
      MulMonotone(n + 1, i, b);
    } else if ts >= 0 {
      MulMonotone(i, n, b);
    }
  }

  lemma MulMonotoneBack(x: int, y: int, b: int)
    requires b > 0 && x * b <= y * b
    ensures x <= y
  {
    if x > y { MulMonotone(y + 1, x, b); }
  }

  lemma OnGridIff(f: ChartFill, fromMs: int, toMs: int, ts: int)
    requires f.bucketMs > 0 && f == WarFill(f.bucketMs, fromMs, toMs, f.zero) && Grid(f).Some?
    requires Bucket(ts, f.bucketMs) >= f.startMs
    ensures Bucket(ts, f.bucketMs) in Grid(f).value <==> Bucket(ts, f.bucketMs) <= f.endMs
  {
    var b, g := f.bucketMs, Grid(f).value;
    BucketSteps(fromMs, toMs, b);
    BucketSteps(fromMs, ts, b);
    var i, n := TruncDiv(ts, b) - TruncDiv(fromMs, b), TruncDiv(toMs, b) - TruncDiv(fromMs, b);
    assert g[n] == f.endMs;
    MulMonotoneBack(TruncDiv(fromMs, b), TruncDiv(ts, b), b);
    if Bucket(ts, b) <= f.endMs {
      MulMonotoneBack(TruncDiv(ts, b), TruncDiv(toMs, b), b);
      assert g[i] == Bucket(ts, b);
    } else if Bucket(ts, b) in g {
      var j :| 0 <= j < |g| && g[j] == Bucket(ts, b);
      PointMonotone(f, j, n);
    }
  }

  /** A sample stamped past the current bucket is fetched and then left off the explorer's grid. */
  lemma ExplorerDropsFuture()
    ensures var d := Dsl.Query("avg", "m", [], 60_000, 600_000, false, 0, 0);
            && Dsl.InWindow(d, 600, 660_000)
            && Grid(ExplorerFill(d, 600_000, false)).Some?
            && Bucket(660_000, 60_000) !in Grid(ExplorerFill(d, 600_000, false)).value
  {
    var d := Dsl.Query("avg", "m", [], 60_000, 600_000, false, 0, 0);
    assert TruncDiv(600_000, 60_000) == 10;
    ExplorerGridIff(d, 600_000, 600, false, 660_000);
  }

  // The War Room's window and mini chart.

  const WAR_DEFAULT_SPAN_MS := 60 * 60 * 1000
  const WAR_MIN_SPAN_MS := 60 * 1000

  /** The page window from its raw parameters: a bad or short one falls back to the last hour; follow pins the right edge. */
  method WarWindow(rawFrom: int, rawTo: int, follow: bool, now: int) returns (fromMs: int, toMs: int)
    ensures now > 0 ==> toMs > 0 && toMs - fromMs >= 60_000
    ensures var good := rawFrom > 0 && rawTo > 0 && rawTo - rawFrom >= 60_000;
            && toMs == (if good && !follow then rawTo else now)
            && toMs - fromMs == (if good then rawTo - rawFrom else 3_600_000)
  {
    fromMs, toMs := rawFrom, rawTo;
    var span := toMs - fromMs;
    if fromMs <= 0 || toMs <= 0 || span < WAR_MIN_SPAN_MS {
      span := WAR_DEFAULT_SPAN_MS;
      toMs := now;
      fromMs := now - span;
    }
    if follow {
      toMs := now;
      fromMs := now - span;
    }
  }

  const DAY_MS := 86_400_000

  const WAR_BUCKET_STEPS := [
    1000, 5000, 15000, 30000, 60000, 5 * 60000, 10 * 60000, 30 * 60000,
    3600000, 3 * 3600000, 6 * 3600000, 12 * 3600000, 86400000]

  /** The bucket size keeps every window within 120 whole buckets, however long it is. */
  method WarBucketMs(spanMs: int) returns (b: int)
    ensures b > 0 && TruncDiv(spanMs, b) <= 120
    ensures b in WAR_BUCKET_STEPS || (b % DAY_MS == 0 && b - DAY_MS <= TruncDiv(spanMs, 120) < b)
    ensures forall s :: s in WAR_BUCKET_STEPS && s < b ==> TruncDiv(spanMs, s) > 120
  {
    for i := 0 to |WAR_BUCKET_STEPS|
      invariant forall j :: 0 <= j < i ==> TruncDiv(spanMs, WAR_BUCKET_STEPS[j]) > 120
    {
      var s := WAR_BUCKET_STEPS[i];
      if TruncDiv(spanMs, s) <= 120 { return s; }
    }
    assert WAR_BUCKET_STEPS[12] == DAY_MS;
    ScaledDays(spanMs);
    b := (TruncDiv(TruncDiv(spanMs, 120), DAY_MS) + 1) * DAY_MS;
  }

  /** The steps: 1, 5, 15 and 30 seconds; 1, 5, 10 and 30 minutes; 1, 3, 6 and 12 hours; a day. */
  lemma WarSteps(s: int)
    ensures s in WAR_BUCKET_STEPS <==>
              || s == 1000 || s == 5000 || s == 15_000 || s == 30_000
              || s == 60_000 || s == 300_000 || s == 600_000 || s == 1_800_000
              || s == 3_600_000 || s == 10_800_000 || s == 21_600_000 || s == 43_200_000 || s == 86_400_000
  {
    var w := WAR_BUCKET_STEPS;
    assert w[0] == 1000 && w[1] == 5000 && w[2] == 15_000 && w[3] == 30_000;
    assert w[4] == 60_000 && w[5] == 300_000 && w[6] == 600_000 && w[7] == 1_800_000;
    assert w[8] == 3_600_000 && w[9] == 10_800_000 && w[10] == 21_600_000 && w[11] == 43_200_000 && w[12] == 86_400_000;
  }

  lemma ScaledDays(spanMs: int)
    requires TruncDiv(spanMs, DAY_MS) > 120
    ensures var k := TruncDiv(TruncDiv(spanMs, 120), DAY_MS) + 1;
            k >= 2 && TruncDiv(spanMs, k * DAY_MS) <= 120
            && (k - 1) * DAY_MS <= TruncDiv(spanMs, 120) < k * DAY_MS
  {
    var q := spanMs / 120;
    var k := q / DAY_MS + 1;
    var b := k * DAY_MS;
    assert spanMs >= 121 * DAY_MS && q >= DAY_MS;
    assert q < b && spanMs < 120 * (q + 1) <= 120 * b;
    DivBounds(spanMs, b);
    if spanMs / b > 120 { MulMonotone(121, spanMs / b, b); }
  }
}
