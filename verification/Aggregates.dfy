/**
  The plain verbs of the metrics DSL, from query/dsl.go: what count, sum, min, max, avg
  and latest compute in each form, and how the forms of one query fit together.
 */
module Aggregates {
  import opened Common
  import opened Buckets
  import opened Sums
  import opened Dsl
  import I = Increase

  type Rows = seq<I.Sample>

  // What the SQL functions compute over a group.

  function Added(rows: Rows): real {
    if rows == [] then 0.0 else rows[0].value + Added(rows[1..])
  }

  /** COUNT, SUM, MIN, MAX, AVG; all but COUNT are NULL over no rows. */
  function Aggregate(fn: string, rows: Rows): Option<real> {
    if fn == "count" then Some(|rows| as real)
    else if rows == [] then None
    else if fn == "sum" then Some(Added(rows))
    else if fn == "min" then Some(I.MinValue(rows))
    else if fn == "max" then Some(I.MaxValue(rows))
    else if fn == "avg" then Some(Added(rows) / (|rows| as real))
    else None
  }

  /** The rows of a group. */
  function Select(rows: Rows, keep: I.Sample -> bool): Rows {
    if rows == [] then [] else (if keep(rows[0]) then [rows[0]] else []) + Select(rows[1..], keep)
  }

  function InBucket(b: int, bucket: int): I.Sample -> bool
    requires b > 0
  {
    (r: I.Sample) => Bucket(r.timestamp, b) == bucket
  }

  function OfService(service: string): I.Sample -> bool { (r: I.Sample) => r.service == service }

  predicate Sensible(p: Plan) {
    p.AggregatePlan? && (p.form.ByBucket? || p.form.Pivot? ==> p.form.bucketMs > 0)
  }

  /** The value in the row of a bucket and the row or column of a service, where the form has them. */
  function Value(p: Plan, rows: Rows, bucket: int, service: string): Option<real>
    requires Sensible(p)
  {
    match p.form
    case Whole => Aggregate(p.fn, rows)
    case ByService => Aggregate(p.fn, Select(rows, OfService(service)))
    case ByBucket(b) => Aggregate(p.fn, Select(rows, InBucket(b, bucket)))
    case Pivot(b, services) =>
      if service !in services then None else Aggregate(p.fn, Select(Select(rows, InBucket(b, bucket)), OfService(service)))
  }

  // Laws on groups.

  lemma {:induction false} SelectHas(rows: Rows, keep: I.Sample -> bool)
    ensures forall r :: r in Select(rows, keep) <==> r in rows && keep(r)
  {
    if rows != [] {
      assert rows == [rows[0]] + rows[1..];
      SelectHas(rows[1..], keep);
    }
  }

  /** One value of a sum grows. */
  lemma {:induction false} SumBump<K(!new)>(s: set<K>, g: K -> real, h: K -> real, k: K, x: real)
    requires k in s && h(k) == g(k) + x && forall j :: j in s && j != k ==> h(j) == g(j)
    ensures Sum(s, h) == Sum(s, g) + x
  {
    SumSplit(s, g, k);
    SumSplit(s, h, k);
    SumEqual(s - {k}, g, h);
  }

  /** What a group adds up to, and how many rows it has, by key. */
  ghost function AddedAt<K>(rows: Rows, groups: K -> (I.Sample -> bool)): K -> real {
    k => Added(Select(rows, groups(k)))
  }

  ghost function CountAt<K>(rows: Rows, groups: K -> (I.Sample -> bool)): K -> real {
    k => |Select(rows, groups(k))| as real
  }

  /** Every row is in exactly one group. */
  ghost predicate Partition<K(!new)>(rows: Rows, groups: K -> (I.Sample -> bool), keys: set<K>, keyOf: I.Sample -> K) {
    forall r :: r in rows ==> keyOf(r) in keys && forall k :: k in keys ==> (groups(k)(r) <==> k == keyOf(r))
  }

  /** The groups of a partition add up to the whole, in values and in rows. */
  lemma {:induction false} GroupsAddUp<K(!new)>(rows: Rows, groups: K -> (I.Sample -> bool), keys: set<K>,
                                                keyOf: I.Sample -> K)
    requires Partition(rows, groups, keys, keyOf)
    ensures Sum(keys, AddedAt(rows, groups)) == Added(rows)
    ensures Sum(keys, CountAt(rows, groups)) == |rows| as real
    decreases |rows|
  {
    if rows == [] {
      SumZero(keys, AddedAt(rows, groups));
      SumZero(keys, CountAt(rows, groups));
    } else {
      var r, rest := rows[0], rows[1..];
      assert r in rows && forall x :: x in rest ==> x in rows;
      GroupsAddUp(rest, groups, keys, keyOf);
      forall k | k in keys
        ensures AddedAt(rows, groups)(k) == AddedAt(rest, groups)(k) + if k == keyOf(r) then r.value else 0.0
        ensures CountAt(rows, groups)(k) == CountAt(rest, groups)(k) + if k == keyOf(r) then 1.0 else 0.0
      {
        SelectNext(r, rest, groups(k));
        assert rows == [r] + rest;
      }
      SumBump(keys, AddedAt(rest, groups), AddedAt(rows, groups), keyOf(r), r.value);
      SumBump(keys, CountAt(rest, groups), CountAt(rows, groups), keyOf(r), 1.0);
    }
  }

  lemma SelectNext(r: I.Sample, rest: Rows, keep: I.Sample -> bool)
    ensures Added(Select([r] + rest, keep)) == Added(Select(rest, keep)) + if keep(r) then r.value else 0.0
    ensures |Select([r] + rest, keep)| == |Select(rest, keep)| + if keep(r) then 1 else 0
  {
    var all, kept := [r] + rest, Select(rest, keep);
    assert all[1..] == rest;
    if keep(r) {
      assert ([r] + kept)[1..] == kept;
    } else {
      assert [] + kept == kept;
    }
  }

  /** A group's extremes lie within those of the whole. */
  lemma GroupWithin(rows: Rows, keep: I.Sample -> bool)
    requires Select(rows, keep) != []
    ensures rows != [] && I.MinValue(rows) <= I.MinValue(Select(rows, keep)) <= I.MaxValue(Select(rows, keep)) <= I.MaxValue(rows)
  {
    var mine := Select(rows, keep);
    SelectHas(rows, keep);
    assert mine[0] in mine && mine[0] in rows;
    I.MaxIsMax(rows);
    I.MinIsMin(rows);
    I.MaxIsMax(mine);
    I.MinIsMin(mine);
  }

  /** Some group has the largest value of all, and some the smallest. */
  lemma ExtremesAreSomewhere<K(!new)>(rows: Rows, groups: K -> (I.Sample -> bool), keys: set<K>, keyOf: I.Sample -> K)
    requires rows != [] && Partition(rows, groups, keys, keyOf)
    ensures exists k :: k in keys && Select(rows, groups(k)) != [] && I.MaxValue(Select(rows, groups(k))) == I.MaxValue(rows)
    ensures exists k :: k in keys && Select(rows, groups(k)) != [] && I.MinValue(Select(rows, groups(k))) == I.MinValue(rows)
  {
    I.MaxIsMax(rows);
    var top :| top in rows && top.value == I.MaxValue(rows);
    HasIt(rows, groups(keyOf(top)), top);
    I.MinIsMin(rows);
    var low :| low in rows && low.value == I.MinValue(rows);
    HasIt(rows, groups(keyOf(low)), low);
  }

  lemma HasIt(rows: Rows, keep: I.Sample -> bool, r: I.Sample)
    requires r in rows && keep(r)
    ensures Select(rows, keep) != [] && I.MinValue(Select(rows, keep)) <= r.value <= I.MaxValue(Select(rows, keep))
    ensures rows != [] && I.MinValue(rows) <= I.MinValue(Select(rows, keep))
    ensures I.MaxValue(Select(rows, keep)) <= I.MaxValue(rows)
  {
    SelectHas(rows, keep);
    assert r in Select(rows, keep);
    I.MaxIsMax(Select(rows, keep));
    I.MinIsMin(Select(rows, keep));
    GroupWithin(rows, keep);
  }

  // Which rows a query reads.

  /** One filter more narrows the rows to those it names: a service, a host, or a label. */
  lemma {:induction false} FilterNarrows(d: Query, f: Filter, nowSec: int,
                                         extract: (Option<string>, string) -> Option<string>, table: Rows)
    ensures Dsl.Rows(d.(filters := d.filters + [f]), nowSec, extract, table)
            == Select(Dsl.Rows(d, nowSec, extract, table),
                      (r: I.Sample) => (if f.key == "service" then r.service == f.value
                                        else if f.key == "host" then r.host == f.value
                                        else extract(r.labels, f.key) == Some(f.value)))
  {
    if table != [] {
      var more := d.(filters := d.filters + [f]);
      FilterNarrows(d, f, nowSec, extract, table[1..]);
      assert more.filters[|d.filters|] == f && forall i :: 0 <= i < |d.filters| ==> more.filters[i] == d.filters[i];
      var rest := Dsl.Rows(d, nowSec, extract, table[1..]);
      if Keeps(d, nowSec, extract, table[0]) {
        assert ([table[0]] + rest)[1..] == rest;
      } else {
        assert Dsl.Rows(d, nowSec, extract, table) == rest;
      }
    }
  }

  /** Without filters: every sample of the metric in the window, and no other. In the War Room both edges count. */
  lemma {:induction false} UnfilteredRows(d: Query, fromMs: int, toMs: int, nowSec: int,
                                          extract: (Option<string>, string) -> Option<string>, table: Rows)
    requires d.filters == [] && toMs > 0
    ensures Dsl.Rows(OverrideWindow(d, fromMs, toMs), nowSec, extract, table)
            == Select(table, (r: I.Sample) => r.name == d.metric && fromMs <= r.timestamp <= toMs)
    ensures d.toMs == 0 && d.windowMs >= 0 ==>
              Dsl.Rows(d, nowSec, extract, table)
              == Select(table, (r: I.Sample) => r.name == d.metric && r.timestamp > nowSec * 1000 - d.windowMs / 1000 * 1000)
  {
    if table != [] { UnfilteredRows(d, fromMs, toMs, nowSec, extract, table[1..]); }
  }

  // The same on compiled queries.

  function ByBucketKey(b: int): I.Sample -> int
    requires b > 0
  {
    (r: I.Sample) => Bucket(r.timestamp, b)
  }

  function ServiceKey(): I.Sample -> string { (r: I.Sample) => r.service }

  function BucketGroups(b: int): int -> (I.Sample -> bool)
    requires b > 0
  {
    k => InBucket(b, k)
  }

  function ServiceGroups(): string -> (I.Sample -> bool) { s => OfService(s) }

  ghost function PerBucketValue(p: Plan, rows: Rows): int -> real
    requires Sensible(p)
  {
    bucket => I.OrZero(Value(p, rows, bucket, ""))
  }

  ghost function PerServiceValue(p: Plan, rows: Rows, bucket: int): string -> real
    requires Sensible(p)
  {
    service => I.OrZero(Value(p, rows, bucket, service))
  }

  predicate Additive(d: Query) { d.verb == "count" || d.verb == "sum" }

  /** `count(m) per D` and `sum(m) per D` add up to the query without `per`: no sample is lost or counted twice. */
  lemma PerAddsUp(d: Query, rows: Rows)
    requires Additive(d) && d.bucketMs > 0 && !d.byService
    ensures var p, q := Compile(d, []), Compile(d.(bucketMs := 0), []);
            && p.Ok? && q.Ok? && Sensible(p.value) && Sensible(q.value)
            && Sum(I.AllBuckets(rows, d.bucketMs), PerBucketValue(p.value, rows)) == I.OrZero(Value(q.value, rows, 0, ""))
  {
    var b := d.bucketMs;
    GroupsAddUp(rows, BucketGroups(b), I.AllBuckets(rows, b), ByBucketKey(b));
    BucketsSum(Compile(d, []).value, rows);
    AdditiveValue(rows);
  }

  lemma AdditiveValue(rows: Rows)
    ensures I.OrZero(Aggregate("sum", rows)) == Added(rows) && I.OrZero(Aggregate("count", rows)) == |rows| as real
  {
  }

  lemma BucketsSum(p: Plan, rows: Rows)
    requires Sensible(p) && p.form.ByBucket? && (p.fn == "sum" || p.fn == "count")
    ensures var b := p.form.bucketMs;
            Sum(I.AllBuckets(rows, b), PerBucketValue(p, rows))
            == if p.fn == "sum" then Sum(I.AllBuckets(rows, b), AddedAt(rows, BucketGroups(b)))
               else Sum(I.AllBuckets(rows, b), CountAt(rows, BucketGroups(b)))
  {
    var b, keys := p.form.bucketMs, I.AllBuckets(rows, p.form.bucketMs);
    forall k ensures PerBucketValue(p, rows)(k)
                     == if p.fn == "sum" then AddedAt(rows, BucketGroups(b))(k) else CountAt(rows, BucketGroups(b))(k)
    {
      AdditiveValue(Select(rows, InBucket(b, k)));
    }
    if p.fn == "sum" {
      SumEqual(keys, PerBucketValue(p, rows), AddedAt(rows, BucketGroups(b)));
    } else {
      SumEqual(keys, PerBucketValue(p, rows), CountAt(rows, BucketGroups(b)));
    }
  }

  /** The same `by service`. */
  lemma ServicesAddUp(d: Query, rows: Rows)
    requires Additive(d) && d.bucketMs == 0 && d.byService
    ensures var p, q := Compile(d, []), Compile(d.(byService := false), []);
            && p.Ok? && q.Ok? && Sensible(p.value) && Sensible(q.value)
            && Sum(I.AllServices(rows), PerServiceValue(p.value, rows, 0)) == I.OrZero(Value(q.value, rows, 0, ""))
  {
    var keys, p := I.AllServices(rows), Compile(d, []).value;
    GroupsAddUp(rows, ServiceGroups(), keys, ServiceKey());
    if d.verb == "sum" {
      SumEqual(keys, PerServiceValue(p, rows, 0), AddedAt(rows, ServiceGroups()));
    } else {
      SumEqual(keys, PerServiceValue(p, rows, 0), CountAt(rows, ServiceGroups()));
    }
  }

  /** Every column of `per D by service` is the bucket of the query filtered to that service; unlisted ones are empty. */
  lemma PivotIsFiltered(d: Query, services: seq<string>, rows: Rows, bucket: int, service: string)
    requires d.verb in {"count", "sum", "min", "max", "avg"} && d.bucketMs > 0 && d.byService
    ensures Compile(d, services).Err? <==> services == []
    ensures services != [] ==>
              var p, q := Compile(d, services).value, Compile(d.(byService := false), []).value;
              && Sensible(p) && Sensible(q)
              && Value(p, rows, bucket, service)
                 == if service in (if |services| <= 6 then services else services[..6])
                    then Value(q, I.InService(rows, service), bucket, "") else None
  {
    SelectTwice(rows, InBucket(d.bucketMs, bucket), service);
  }

  lemma {:induction false} SelectTwice(rows: Rows, keep: I.Sample -> bool, service: string)
    ensures Select(Select(rows, keep), OfService(service)) == Select(I.InService(rows, service), keep)
  {
    if rows != [] {
      var r, rest := rows[0], rows[1..];
      SelectTwice(rest, keep, service);
      if keep(r) {
        assert ([r] + Select(rest, keep))[1..] == Select(rest, keep);
      } else {
        assert Select(rows, keep) == Select(rest, keep);
      }
      if r.service == service {
        assert ([r] + I.InService(rest, service))[1..] == I.InService(rest, service);
      } else {
        assert I.InService(rows, service) == I.InService(rest, service);
      }
    }
  }

  /** min, max and avg: each is a value between the extremes of its own samples, and count times avg is their sum. */
  lemma VerbMeanings(rows: Rows)
    requires rows != []
    ensures Aggregate("avg", rows).value * Aggregate("count", rows).value == Aggregate("sum", rows).value
    ensures forall r :: r in rows ==> Aggregate("min", rows).value <= r.value <= Aggregate("max", rows).value
    ensures exists r :: r in rows && r.value == Aggregate("min", rows).value
    ensures exists r :: r in rows && r.value == Aggregate("max", rows).value
  {
    I.MaxIsMax(rows);
    I.MinIsMin(rows);
  }

  /** The extremes of `max(m) per D` and `min(m) per D` are those of the query without `per`. */
  lemma PerExtremes(d: Query, rows: Rows)
    requires (d.verb == "max" || d.verb == "min") && d.bucketMs > 0 && !d.byService && rows != []
    ensures var p, q := Compile(d, []).value, Compile(d.(bucketMs := 0), []).value;
            && Sensible(p) && Sensible(q) && Value(q, rows, 0, "").Some?
            && (exists k :: k in I.AllBuckets(rows, d.bucketMs) && Value(p, rows, k, "") == Value(q, rows, 0, ""))
            && forall k :: Value(p, rows, k, "").Some? ==>
                 if d.verb == "max" then Value(p, rows, k, "").value <= Value(q, rows, 0, "").value
                 else Value(p, rows, k, "").value >= Value(q, rows, 0, "").value
  {
    var b := d.bucketMs;
    var p, q := Compile(d, []).value, Compile(d.(bucketMs := 0), []).value;
    ExtremesAreSomewhere(rows, BucketGroups(b), I.AllBuckets(rows, b), ByBucketKey(b));
    if d.verb == "max" {
      var k :| k in I.AllBuckets(rows, b) && Select(rows, BucketGroups(b)(k)) != []
               && I.MaxValue(Select(rows, BucketGroups(b)(k))) == I.MaxValue(rows);
      assert Value(p, rows, k, "") == Value(q, rows, 0, "");
    } else {
      var k :| k in I.AllBuckets(rows, b) && Select(rows, BucketGroups(b)(k)) != []
               && I.MinValue(Select(rows, BucketGroups(b)(k))) == I.MinValue(rows);
      assert Value(p, rows, k, "") == Value(q, rows, 0, "");
    }
    forall k | Value(p, rows, k, "").Some?
      ensures if d.verb == "max" then Value(p, rows, k, "").value <= Value(q, rows, 0, "").value
              else Value(p, rows, k, "").value >= Value(q, rows, 0, "").value
    {
      GroupWithin(rows, InBucket(b, k));
    }
  }

  // latest

  /** The value with the largest id: rows stand in id order. */
  function LatestValue(rows: Rows): Option<real> {
    if rows == [] then None else Some(rows[|rows| - 1].value)
  }

  function LatestCell(p: Plan, rows: Rows, service: string): Option<real>
    requires p.Latest?
  {
    LatestValue(if p.byService then I.InService(rows, service) else rows)
  }

  /** A new sample becomes the latest, for its own service and overall, and for no other service. */
  lemma NewestIsLatest(d: Query, services: seq<string>, rows: Rows, r: I.Sample, service: string)
    requires d.verb == "latest"
    ensures Compile(d, services) == Ok(Latest(d.byService))
    ensures var p := Compile(d, services).value;
            LatestCell(p, rows + [r], service)
            == if !d.byService || r.service == service then Some(r.value) else LatestCell(p, rows, service)
  {
    InServiceSnoc(rows, r, service);
  }

  lemma {:induction false} InServiceSnoc(rows: Rows, r: I.Sample, service: string)
    ensures I.InService(rows + [r], service) == I.InService(rows, service) + if r.service == service then [r] else []
  {
    if rows == [] {
      assert rows + [r] == [r] && [r][1..] == [];
    } else {
      var head := if rows[0].service == service then [rows[0]] else [];
      var rest, last := I.InService(rows[1..], service), if r.service == service then [r] else [];
      InServiceSnoc(rows[1..], r, service);
      assert (rows + [r])[1..] == rows[1..] + [r] && (rows + [r])[0] == rows[0];
      assert head + (rest + last) == head + rest + last;
    }
  }
}
