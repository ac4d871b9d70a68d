/**
  The War Room's volume chart, from ui/warroom.go: log and error counts per bucket,
  drawn as bars over the whole window.
 */
module MiniChart {
  import opened Buckets

  datatype Log = Log(timestamp: int, level: int)

  const LEVEL_ERROR := 4

  /** What a log adds to a total: the chart counts all logs, and the errors among them. */
  function Weight(l: Log, errorsOnly: bool): int {
    if errorsOnly && l.level < LEVEL_ERROR then 0 else 1
  }

  /** The logs of the window. */
  function InWindow(logs: seq<Log>, fromMs: int, toMs: int, errorsOnly: bool): int {
    if logs == [] then 0
    else (if fromMs <= logs[0].timestamp <= toMs then Weight(logs[0], errorsOnly) else 0)
         + InWindow(logs[1..], fromMs, toMs, errorsOnly)
  }

  function Matching(logs: seq<Log>, keep: Log -> bool): seq<Log> {
    if logs == [] then [] else (if keep(logs[0]) then [logs[0]] else []) + Matching(logs[1..], keep)
  }

  /** The totals are numbers of logs: all of the window, and those of level 4, error, or above. */
  lemma {:induction false} TotalsAre(logs: seq<Log>, fromMs: int, toMs: int)
    ensures InWindow(logs, fromMs, toMs, false) == |Matching(logs, (l: Log) => fromMs <= l.timestamp <= toMs)|
    ensures InWindow(logs, fromMs, toMs, true)
            == |Matching(logs, (l: Log) => fromMs <= l.timestamp <= toMs && l.level >= 4)|
  {
    if logs != [] { TotalsAre(logs[1..], fromMs, toMs); }
  }

  /** `timestamp / b * b`, as the volume query groups. */
  function BucketBy(b: int): int -> int
    requires b > 0
  {
    ts => Bucket(ts, b)
  }

  /** The logs of one bucket of the window. */
  function InBucket(logs: seq<Log>, fromMs: int, toMs: int, bucketOf: int -> int, bucket: int, errorsOnly: bool): int {
    if logs == [] then 0
    else (if fromMs <= logs[0].timestamp <= toMs && bucketOf(logs[0].timestamp) == bucket
          then Weight(logs[0], errorsOnly) else 0)
         + InBucket(logs[1..], fromMs, toMs, bucketOf, bucket, errorsOnly)
  }

  datatype BucketCounts = BucketCounts(all: int, errs: int)

  function CountsOf(logs: seq<Log>, fromMs: int, toMs: int, bucketOf: int -> int, bucket: int): BucketCounts {
    BucketCounts(InBucket(logs, fromMs, toMs, bucketOf, bucket, false), InBucket(logs, fromMs, toMs, bucketOf, bucket, true))
  }

  /** The rows of the volume query: one per bucket that has a log. */
  ghost predicate IsVolume(counts: map<int, BucketCounts>, logs: seq<Log>, fromMs: int, toMs: int, bucketOf: int -> int) {
    forall t :: (if t in counts then counts[t] else BucketCounts(0, 0)) == CountsOf(logs, fromMs, toMs, bucketOf, t)
  }

  /** The bars at the given times added up. */
  function Bars(logs: seq<Log>, fromMs: int, toMs: int, bucketOf: int -> int, times: seq<int>, errorsOnly: bool): int {
    if times == [] then 0
    else Bars(logs, fromMs, toMs, bucketOf, times[..|times| - 1], errorsOnly)
         + InBucket(logs, fromMs, toMs, bucketOf, times[|times| - 1], errorsOnly)
  }

  predicate Rising(times: seq<int>) {
    forall i, j :: 0 <= i < j < |times| ==> times[i] < times[j]
  }

  /** One more log counts on one bar, if its bucket is drawn. */
  lemma {:induction false} BarsCons(logs: seq<Log>, fromMs: int, toMs: int, bucketOf: int -> int, times: seq<int>,
                                    errorsOnly: bool)
    requires logs != [] && Rising(times)
    ensures var l := logs[0];
            Bars(logs, fromMs, toMs, bucketOf, times, errorsOnly)
            == Bars(logs[1..], fromMs, toMs, bucketOf, times, errorsOnly)
               + if fromMs <= l.timestamp <= toMs && bucketOf(l.timestamp) in times then Weight(l, errorsOnly) else 0
    decreases |times|
  {
    if times != [] {
      var front, last := times[..|times| - 1], times[|times| - 1];
      assert times == front + [last];
      BarsCons(logs, fromMs, toMs, bucketOf, front, errorsOnly);
    }
  }

  lemma {:induction false} BarsEmpty(fromMs: int, toMs: int, bucketOf: int -> int, times: seq<int>, errorsOnly: bool)
    ensures Bars([], fromMs, toMs, bucketOf, times, errorsOnly) == 0
    decreases |times|
  {
    if times != [] { BarsEmpty(fromMs, toMs, bucketOf, times[..|times| - 1], errorsOnly); }
  }

  /** Distinct bars that cover every bucket of the window add up to the logs of the window. */
  lemma {:induction false} BarsConserve(logs: seq<Log>, fromMs: int, toMs: int, bucketOf: int -> int, times: seq<int>,
                                        errorsOnly: bool)
    requires Rising(times)
    requires forall ts :: fromMs <= ts <= toMs ==> bucketOf(ts) in times
    ensures Bars(logs, fromMs, toMs, bucketOf, times, errorsOnly) == InWindow(logs, fromMs, toMs, errorsOnly)
    decreases |logs|
  {
    if logs == [] {
      BarsEmpty(fromMs, toMs, bucketOf, times, errorsOnly);
    } else {
      BarsCons(logs, fromMs, toMs, bucketOf, times, errorsOnly);
      BarsConserve(logs[1..], fromMs, toMs, bucketOf, times, errorsOnly);
    }
  }

  /** The time of the i-th bar. */
  function Bar(start: int, b: int, i: int): int { start + i * b }

  /** The bars the loop draws: from the window's first bucket, b apart. */
  ghost predicate AreBars(times: seq<int>, start: int, b: int) {
    forall i :: 0 <= i < |times| ==> times[i] == Bar(start, b, i)
  }

  lemma BarsRise(times: seq<int>, start: int, b: int)
    requires b > 0 && AreBars(times, start, b)
    ensures Rising(times)
  {
    forall i, j | 0 <= i < j < |times| ensures times[i] < times[j] {
      MulMonotone(i + 1, j, b);
      assert times[i] == Bar(start, b, i) && times[j] == Bar(start, b, j);
    }
  }

  /** For a window that does not end before time zero, the bars up to `toMs` cover it. */
  lemma BarsCover(fromMs: int, toMs: int, b: int, times: seq<int>, ts: int)
    requires b > 0 && toMs >= 0 && fromMs <= ts <= toMs
    requires AreBars(times, Bucket(fromMs, b), b) && toMs < Bar(Bucket(fromMs, b), b, |times|)
    ensures Bucket(ts, b) in times
  {
    var x, y := TruncDiv(fromMs, b), TruncDiv(ts, b);
    TruncDivMonotone(fromMs, ts, b);
    BucketBounds(ts, b);
    assert Bar(Bucket(fromMs, b), b, y - x) == Bucket(ts, b) by { Spread(x, y, b); }
    if y - x >= |times| { MulMonotone(|times|, y - x, b); }
    assert times[y - x] == Bar(Bucket(fromMs, b), b, y - x);
  }

  lemma Spread(x: int, y: int, b: int)
    ensures x * b + (y - x) * b == y * b
  {
  }

  /**
    The mini chart: bars from the window's first bucket to its end. Their sums are the
    window's logs and its errors, and there are at most 122 of them.
   */
  method WarMiniChart(counts: map<int, BucketCounts>, fromMs: int, toMs: int, b: int, ghost logs: seq<Log>)
    returns (times: seq<int>, bars: seq<BucketCounts>, total: int, errTotal: int)
    requires 0 <= toMs && fromMs <= toMs
    requires b > 0 && TruncDiv(toMs - fromMs, b) <= 120 && IsVolume(counts, logs, fromMs, toMs, BucketBy(b))
    ensures total == InWindow(logs, fromMs, toMs, false) && errTotal == InWindow(logs, fromMs, toMs, true)
    ensures |times| == |bars| <= 122
    ensures AreBars(times, Bucket(fromMs, b), b)
    ensures forall i :: 0 <= i < |bars| ==> bars[i] == CountsOf(logs, fromMs, toMs, BucketBy(b), times[i])
  {
    ghost var start, bucketOf := Bucket(fromMs, b), BucketBy(b);
    times, bars, total, errTotal := [], [], 0, 0;
    var t := Bucket(fromMs, b);
    while t <= toMs
      invariant t == Bar(start, b, |times|) && |times| == |bars| <= 122 && AreBars(times, start, b)
      invariant total == Bars(logs, fromMs, toMs, bucketOf, times, false)
      invariant errTotal == Bars(logs, fromMs, toMs, bucketOf, times, true)
      invariant forall i :: 0 <= i < |bars| ==> bars[i] == CountsOf(logs, fromMs, toMs, bucketOf, times[i])
      decreases toMs - t
    {
      var v := if t in counts then counts[t] else BucketCounts(0, 0);
      FewBars(fromMs, toMs, b, |times|);
      ghost var drawn := times;
      times := times + [t];
      assert times[..|times| - 1] == drawn;
      bars := bars + [v];
      total, errTotal := total + v.all, errTotal + v.errs;
      t := t + b;
    }
    BarsRise(times, start, b);
    forall ts | fromMs <= ts <= toMs ensures bucketOf(ts) in times {
      BarsCover(fromMs, toMs, b, times, ts);
    }
    BarsConserve(logs, fromMs, toMs, bucketOf, times, false);
    BarsConserve(logs, fromMs, toMs, bucketOf, times, true);
  }

  lemma FewBars(fromMs: int, toMs: int, b: int, i: nat)
    requires b > 0 && 0 <= toMs && fromMs <= toMs && TruncDiv(toMs - fromMs, b) <= 120
    requires Bar(Bucket(fromMs, b), b, i) <= toMs
    ensures i <= 121
    ensures Bar(Bucket(fromMs, b), b, i + 1) == Bar(Bucket(fromMs, b), b, i) + b
  {
    BucketBounds(fromMs, b);
    BucketBounds(toMs - fromMs, b);
    MulMonotone(TruncDiv(toMs - fromMs, b), 120, b);
    if i > 121 { MulMonotone(122, i, b); }
  }
}
