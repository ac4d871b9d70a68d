/**
  The metrics DSL's counter verbs: the shape of the emitted query, its meaning as
  filter, group, MAX - MIN and SUM, and the laws between the forms.
 */
module Increase {
  import opened Common
  import opened Buckets
  import opened Sums

  datatype Sample = Sample(timestamp: int, name: string, value: real, service: string, host: string, labels: Option<string>)

  /** A counter series: SQL groups NULL labels together. */
  datatype Series = Series(service: string, host: string, labels: Option<string>)

  /** A series within one time bucket. */
  datatype Cell = Cell(bucket: int, series: Series)

  function SeriesOf(r: Sample): Series { Series(r.service, r.host, r.labels) }

  function CellOf(r: Sample, b: int): Cell
    requires b > 0
  {
    Cell(Bucket(r.timestamp, b), SeriesOf(r))
  }

  function MaxValue(rows: seq<Sample>): real
    requires rows != []
  {
    if |rows| == 1 || MaxValue(rows[1..]) < rows[0].value then rows[0].value else MaxValue(rows[1..])
  }

  function MinValue(rows: seq<Sample>): real
    requires rows != []
  {
    if |rows| == 1 || MinValue(rows[1..]) > rows[0].value then rows[0].value else MinValue(rows[1..])
  }

  lemma {:induction false} MaxIsMax(rows: seq<Sample>)
    requires rows != []
    ensures exists r :: r in rows && r.value == MaxValue(rows)
    ensures forall r :: r in rows ==> r.value <= MaxValue(rows)
  {
    assert rows[0] in rows;
    if |rows| > 1 { MaxIsMax(rows[1..]); }
  }

  lemma {:induction false} MinIsMin(rows: seq<Sample>)
    requires rows != []
    ensures exists r :: r in rows && r.value == MinValue(rows)
    ensures forall r :: r in rows ==> MinValue(rows) <= r.value
  {
    assert rows[0] in rows;
    if |rows| > 1 { MinIsMin(rows[1..]); }
  }

  /** MAX(value) - MIN(value) over a group. */
  function Inc(rows: seq<Sample>): real {
    if rows == [] then 0.0 else MaxValue(rows) - MinValue(rows)
  }

  function InSeries(rows: seq<Sample>, s: Series): seq<Sample> {
    if rows == [] then []
    else (if SeriesOf(rows[0]) == s then [rows[0]] else []) + InSeries(rows[1..], s)
  }

  function InCell(rows: seq<Sample>, b: int, c: Cell): seq<Sample>
    requires b > 0
  {
    if rows == [] then []
    else (if CellOf(rows[0], b) == c then [rows[0]] else []) + InCell(rows[1..], b, c)
  }

  function InService(rows: seq<Sample>, service: string): seq<Sample> {
    if rows == [] then []
    else (if rows[0].service == service then [rows[0]] else []) + InService(rows[1..], service)
  }

  // The inner SELECT: one row per group.

  ghost function AllSeries(rows: seq<Sample>): set<Series> { set r | r in rows :: SeriesOf(r) }

  ghost function AllCells(rows: seq<Sample>, b: int): set<Cell>
    requires b > 0
  {
    set r | r in rows :: CellOf(r, b)
  }

  ghost function AllBuckets(rows: seq<Sample>, b: int): set<int>
    requires b > 0
  {
    set r | r in rows :: Bucket(r.timestamp, b)
  }

  ghost function AllServices(rows: seq<Sample>): set<string> { set r | r in rows :: r.service }

  ghost function SeriesInc(rows: seq<Sample>): Series -> real { s => Inc(InSeries(rows, s)) }

  ghost function CellInc(rows: seq<Sample>, b: int): Cell -> real
    requires b > 0
  {
    c => Inc(InCell(rows, b, c))
  }

  ghost function ServiceOfSeries(): Series -> string { (s: Series) => s.service }

  ghost function ServiceOfCell(): Cell -> string { (c: Cell) => c.series.service }

  ghost function BucketOfCell(): Cell -> int { (c: Cell) => c.bucket }

  ghost function SeriesOfCell(): Cell -> Series { (c: Cell) => c.series }

  /** SUM over no rows is NULL. */
  ghost function SqlSum<K(!new)>(s: set<K>, g: K -> real): Option<real> {
    if s == {} then None else Some(Sum(s, g))
  }

  function OrZero(v: Option<real>): real { if v.None? then 0.0 else v.value }

  // The outer SELECT, in its four shapes.

  ghost function Overall(rows: seq<Sample>): Option<real> {
    SqlSum(AllSeries(rows), SeriesInc(rows))
  }

  ghost function PerService(rows: seq<Sample>, service: string): Option<real> {
    SqlSum(Fibre(AllSeries(rows), ServiceOfSeries(), service), SeriesInc(rows))
  }

  ghost function PerBucket(rows: seq<Sample>, b: int, bucket: int): Option<real>
    requires b > 0
  {
    SqlSum(Fibre(AllCells(rows, b), BucketOfCell(), bucket), CellInc(rows, b))
  }

  /** SUM(CASE WHEN service = '...' THEN inc END) within one bucket. */
  ghost function PivotColumn(rows: seq<Sample>, b: int, bucket: int, service: string): Option<real>
    requires b > 0
  {
    SqlSum(Fibre(Fibre(AllCells(rows, b), BucketOfCell(), bucket), ServiceOfCell(), service), CellInc(rows, b))
  }

  // Filters and groups.

  lemma {:induction false} InSeriesHas(rows: seq<Sample>, s: Series)
    ensures forall r :: r in InSeries(rows, s) <==> r in rows && SeriesOf(r) == s
  {
    if rows != [] { InSeriesHas(rows[1..], s); }
  }

  lemma {:induction false} InCellHas(rows: seq<Sample>, b: int, c: Cell)
    requires b > 0
    ensures forall r :: r in InCell(rows, b, c) <==> r in rows && CellOf(r, b) == c
  {
    if rows != [] { InCellHas(rows[1..], b, c); }
  }

  lemma {:induction false} InServiceHas(rows: seq<Sample>, service: string)
    ensures forall r :: r in InService(rows, service) <==> r in rows && r.service == service
  {
    if rows != [] { InServiceHas(rows[1..], service); }
  }

  lemma {:induction false} ServiceThenSeries(rows: seq<Sample>, service: string, s: Series)
    requires s.service == service
    ensures InSeries(InService(rows, service), s) == InSeries(rows, s)
  {
    if rows != [] {
      ServiceThenSeries(rows[1..], service, s);
      var rest := InService(rows[1..], service);
      if rows[0].service == service {
        assert ([rows[0]] + rest)[1..] == rest;
      } else {
        assert InService(rows, service) == rest;
      }
    }
  }

  lemma {:induction false} ServiceThenCell(rows: seq<Sample>, service: string, b: int, c: Cell)
    requires b > 0 && c.series.service == service
    ensures InCell(InService(rows, service), b, c) == InCell(rows, b, c)
  {
    if rows != [] {
      ServiceThenCell(rows[1..], service, b, c);
      var rest := InService(rows[1..], service);
      if rows[0].service == service {
        assert ([rows[0]] + rest)[1..] == rest;
      } else {
        assert InService(rows, service) == rest;
      }
    }
  }

  // Laws.

  /** `by service` gives each service what the query would give with that service as its filter. */
  lemma ServiceIsFilter(rows: seq<Sample>, service: string)
    ensures PerService(rows, service) == Overall(InService(rows, service))
  {
    InServiceHas(rows, service);
    var mine := InService(rows, service);
    var fibre := Fibre(AllSeries(rows), ServiceOfSeries(), service);
    assert AllSeries(mine) == fibre by {
      forall s ensures s in AllSeries(mine) <==> s in fibre {
        if s in fibre {
          var r :| r in rows && SeriesOf(r) == s;
          assert r in mine;
        }
      }
    }
    forall s | s in fibre ensures SeriesInc(rows)(s) == SeriesInc(mine)(s) { ServiceThenSeries(rows, service, s); }
    SumEqual(fibre, SeriesInc(rows), SeriesInc(mine));
  }

  ghost function ServiceValue(rows: seq<Sample>): string -> real { service => OrZero(PerService(rows, service)) }

  /** The increases by service add up to the ungrouped increase. */
  lemma ServicesSumToOverall(rows: seq<Sample>)
    ensures Sum(AllServices(rows), ServiceValue(rows)) == OrZero(Overall(rows))
  {
    var groups := AllServices(rows);
    forall s | s in AllSeries(rows) ensures ServiceOfSeries()(s) in groups {
      var r :| r in rows && SeriesOf(r) == s;
      assert r.service in groups;
    }
    SumByGroups(AllSeries(rows), ServiceOfSeries(), groups, SeriesInc(rows), ServiceValue(rows));
  }

  /** Each pivot column is the bucketed query with that service as its filter. */
  lemma PivotIsFilter(rows: seq<Sample>, b: int, bucket: int, service: string)
    requires b > 0
    ensures PivotColumn(rows, b, bucket, service) == PerBucket(InService(rows, service), b, bucket)
  {
    InServiceHas(rows, service);
    var mine := InService(rows, service);
    var column := Fibre(Fibre(AllCells(rows, b), BucketOfCell(), bucket), ServiceOfCell(), service);
    var cells := Fibre(AllCells(mine, b), BucketOfCell(), bucket);
    assert column == cells by {
      forall c ensures c in column <==> c in cells {
        if c in column {
          var r :| r in rows && CellOf(r, b) == c;
          assert r in mine;
        }
      }
    }
    forall c | c in cells ensures CellInc(rows, b)(c) == CellInc(mine, b)(c) { ServiceThenCell(rows, service, b, c); }
    SumEqual(cells, CellInc(rows, b), CellInc(mine, b));
  }

  ghost function ColumnValue(rows: seq<Sample>, b: int, bucket: int): string -> real
    requires b > 0
  {
    service => OrZero(PivotColumn(rows, b, bucket, service))
  }

  /** With every service listed, the pivot columns of a bucket add up to the unpivoted bucket. */
  lemma ColumnsSumToBucket(rows: seq<Sample>, b: int, bucket: int, services: set<string>)
    requires b > 0 && AllServices(rows) <= services
    ensures Sum(services, ColumnValue(rows, b, bucket)) == OrZero(PerBucket(rows, b, bucket))
  {
    var cells := Fibre(AllCells(rows, b), BucketOfCell(), bucket);
    forall c | c in cells ensures ServiceOfCell()(c) in services {
      var r :| r in rows && CellOf(r, b) == c;
      assert r.service in AllServices(rows);
    }
    SumByGroups(cells, ServiceOfCell(), services, CellInc(rows, b), ColumnValue(rows, b, bucket));
  }

  lemma IncNonNegative(rows: seq<Sample>)
    ensures Inc(rows) >= 0.0
  {
    if rows != [] {
      MaxIsMax(rows);
      MinIsMin(rows);
      assert rows[0] in rows;
    }
  }

  /** With some services left out, the columns never exceed the unpivoted bucket. */
  lemma ColumnsAtMostBucket(rows: seq<Sample>, b: int, bucket: int, services: set<string>)
    requires b > 0
    ensures Sum(services, ColumnValue(rows, b, bucket)) <= OrZero(PerBucket(rows, b, bucket))
  {
    var all := services + AllServices(rows);
    var others := all - services;
    ColumnsSumToBucket(rows, b, bucket, all);
    SumUnion(services, others, ColumnValue(rows, b, bucket));
    assert services + others == all;
    forall service ensures ColumnValue(rows, b, bucket)(service) >= 0.0 {
      var column := Fibre(Fibre(AllCells(rows, b), BucketOfCell(), bucket), ServiceOfCell(), service);
      forall c | c in column ensures CellInc(rows, b)(c) >= 0.0 { IncNonNegative(InCell(rows, b, c)); }
      SumNonNegative(column, CellInc(rows, b));
    }
    SumNonNegative(others, ColumnValue(rows, b, bucket));
  }

  /** Within every series, later samples are no smaller: a counter that is never reset. */
  ghost predicate Counter(rows: seq<Sample>) {
    forall x, y :: x in rows && y in rows && SeriesOf(x) == SeriesOf(y) && x.timestamp < y.timestamp ==> x.value <= y.value
  }

  /** Parts of one series that follow each other in time add up to no more than the whole. */
  lemma PartsAtMostWhole(early: seq<Sample>, late: seq<Sample>, all: seq<Sample>)
    requires early != [] && late != []
    requires forall r :: r in early || r in late ==> r in all
    requires forall x, y :: x in early && y in late ==> x.value <= y.value
    ensures all != [] && Inc(early) + Inc(late) <= Inc(all)
  {
    assert early[0] in all;
    MaxIsMax(early);
    MinIsMin(early);
    MaxIsMax(late);
    MinIsMin(late);
    MaxIsMax(all);
    MinIsMin(all);
  }

  lemma {:induction false} LargestBucket(cells: set<Cell>) returns (top: Cell)
    requires cells != {}
    ensures top in cells && forall c :: c in cells ==> c.bucket <= top.bucket
    decreases |cells|
  {
    var c :| c in cells;
    if cells == {c} {
      top := c;
    } else {
      var t := LargestBucket(cells - {c});
      top := if t.bucket < c.bucket then c else t;
    }
  }

  /** The rows of some cells of one series. */
  function InCells(rows: seq<Sample>, b: int, cells: set<Cell>): seq<Sample>
    requires b > 0
  {
    if rows == [] then []
    else (if CellOf(rows[0], b) in cells then [rows[0]] else []) + InCells(rows[1..], b, cells)
  }

  lemma {:induction false} InCellsHas(rows: seq<Sample>, b: int, cells: set<Cell>)
    requires b > 0
    ensures forall r :: r in InCells(rows, b, cells) <==> r in rows && CellOf(r, b) in cells
  {
    if rows != [] { InCellsHas(rows[1..], b, cells); }
  }

  /** Over any of its buckets, a series' bucketed increases add up to no more than its increase over their rows. */
  lemma {:induction false} BucketsAtMostRows(rows: seq<Sample>, b: int, cells: set<Cell>, s: Series)
    requires b > 0 && Counter(rows)
    requires forall c :: c in cells ==> c in AllCells(rows, b) && c.series == s
    ensures Sum(cells, CellInc(rows, b)) <= Inc(InCells(rows, b, cells))
    decreases |cells|
  {
    InCellsHas(rows, b, cells);
    if cells == {} {
      HasMember(InCells(rows, b, cells));
    } else {
      var top := LargestBucket(cells);
      var rest := cells - {top};
      SumSplit(cells, CellInc(rows, b), top);
      BucketsAtMostRows(rows, b, rest, s);
      InCellHas(rows, b, top);
      InCellsHas(rows, b, rest);
      var early, late, all := InCells(rows, b, rest), InCell(rows, b, top), InCells(rows, b, cells);
      var w :| w in rows && CellOf(w, b) == top;
      assert w in late;
      if rest == {} {
        SameRows(late, all);
      } else {
        var c :| c in rest;
        var x :| x in rows && CellOf(x, b) == c;
        assert x in early;
        forall x, y | x in early && y in late ensures x.value <= y.value {
          EarlierBucket(x, y, b, rest, top);
        }
        PartsAtMostWhole(early, late, all);
      }
    }
  }

  lemma EarlierBucket(x: Sample, y: Sample, b: int, rest: set<Cell>, top: Cell)
    requires b > 0 && CellOf(x, b) in rest && CellOf(y, b) == top && top !in rest
    requires forall c :: c in rest ==> c.bucket <= top.bucket && c.series == top.series
    ensures SeriesOf(x) == SeriesOf(y) && x.timestamp < y.timestamp
  {
    if y.timestamp <= x.timestamp { BucketMonotone(y.timestamp, x.timestamp, b); }
  }

  lemma SameRows(xs: seq<Sample>, ys: seq<Sample>)
    requires xs != [] && forall r :: r in xs <==> r in ys
    ensures Inc(xs) == Inc(ys)
  {
    assert xs[0] in ys;
    MaxIsMax(xs);
    MinIsMin(xs);
    MaxIsMax(ys);
    MinIsMin(ys);
  }

  ghost function SeriesBuckets(rows: seq<Sample>, b: int): Series -> real
    requires b > 0
  {
    s => Sum(Fibre(AllCells(rows, b), SeriesOfCell(), s), CellInc(rows, b))
  }

  /** The bucketed increases of one series add up to no more than its increase over the window. */
  lemma SeriesAtMostInc(rows: seq<Sample>, b: int, s: Series)
    requires b > 0 && Counter(rows)
    ensures SeriesBuckets(rows, b)(s) <= SeriesInc(rows)(s)
  {
    var cells := Fibre(AllCells(rows, b), SeriesOfCell(), s);
    BucketsAtMostRows(rows, b, cells, s);
    InCellsHas(rows, b, cells);
    InSeriesHas(rows, s);
    forall r ensures r in InCells(rows, b, cells) <==> r in InSeries(rows, s) {
      if r in rows && SeriesOf(r) == s { assert CellOf(r, b) in cells; }
    }
    HasMember(InCells(rows, b, cells));
    HasMember(InSeries(rows, s));
    if InCells(rows, b, cells) != [] { SameRows(InCells(rows, b, cells), InSeries(rows, s)); }
  }

  ghost function BucketValue(rows: seq<Sample>, b: int): int -> real
    requires b > 0
  {
    bucket => OrZero(PerBucket(rows, b, bucket))
  }

  /** Splitting a window into buckets never counts an increase twice: the buckets add up to at most the whole. */
  lemma BucketsNeverOvercount(rows: seq<Sample>, b: int)
    requires b > 0 && Counter(rows)
    ensures Sum(AllBuckets(rows, b), BucketValue(rows, b)) <= OrZero(Overall(rows))
  {
    var cells, buckets := AllCells(rows, b), AllBuckets(rows, b);
    forall c | c in cells ensures BucketOfCell()(c) in buckets && SeriesOfCell()(c) in AllSeries(rows) {
      var r :| r in rows && CellOf(r, b) == c;
      assert Bucket(r.timestamp, b) in buckets && SeriesOf(r) in AllSeries(rows);
    }
    SumByGroups(cells, BucketOfCell(), buckets, CellInc(rows, b), BucketValue(rows, b));
    SumByGroups(cells, SeriesOfCell(), AllSeries(rows), CellInc(rows, b), SeriesBuckets(rows, b));
    forall s | s in AllSeries(rows) ensures SeriesBuckets(rows, b)(s) <= SeriesInc(rows)(s) {
      SeriesAtMostInc(rows, b, s);
    }
    SumAtMost(AllSeries(rows), SeriesBuckets(rows, b), SeriesInc(rows));
  }

  ghost function ServiceBucketValue(rows: seq<Sample>, b: int, service: string): int -> real
    requires b > 0
  {
    bucket => OrZero(PivotColumn(rows, b, bucket, service))
  }

  /** The same for every service: its pivot column adds up to at most its group. */
  lemma ServiceBucketsNeverOvercount(rows: seq<Sample>, b: int, service: string)
    requires b > 0 && Counter(rows)
    ensures Sum(AllBuckets(rows, b), ServiceBucketValue(rows, b, service)) <= OrZero(PerService(rows, service))
  {
    var mine, all := InService(rows, service), AllBuckets(rows, b);
    InServiceHas(rows, service);
    BucketsNeverOvercount(mine, b);
    ServiceIsFilter(rows, service);
    forall bucket ensures ServiceBucketValue(rows, b, service)(bucket) == BucketValue(mine, b)(bucket) {
      PivotIsFilter(rows, b, bucket, service);
    }
    SumEqual(all, ServiceBucketValue(rows, b, service), BucketValue(mine, b));
    var others := all - AllBuckets(mine, b);
    assert AllBuckets(mine, b) + others == all;
    SumUnion(AllBuckets(mine, b), others, BucketValue(mine, b));
    forall k | k in others ensures BucketValue(mine, b)(k) == 0.0 {
      assert Fibre(AllCells(mine, b), BucketOfCell(), k) == {};
    }
    SumZero(others, BucketValue(mine, b));
  }

  // The value of an increase.

  /** `x` is no later than `y`; at one instant, no larger. */
  predicate Precedes(x: Sample, y: Sample) {
    x.timestamp < y.timestamp || (x.timestamp == y.timestamp && x.value <= y.value)
  }

  function Earliest(rows: seq<Sample>): Sample
    requires rows != []
  {
    if |rows| == 1 || Precedes(rows[0], Earliest(rows[1..])) then rows[0] else Earliest(rows[1..])
  }

  function Latest(rows: seq<Sample>): Sample
    requires rows != []
  {
    if |rows| == 1 || Precedes(Latest(rows[1..]), rows[0]) then rows[0] else Latest(rows[1..])
  }

  lemma {:induction false} EarliestIs(rows: seq<Sample>)
    requires rows != []
    ensures Earliest(rows) in rows && forall r :: r in rows ==> Precedes(Earliest(rows), r)
  {
    assert rows == [rows[0]] + rows[1..];
    if |rows| > 1 { EarliestIs(rows[1..]); }
  }

  lemma {:induction false} LatestIs(rows: seq<Sample>)
    requires rows != []
    ensures Latest(rows) in rows && forall r :: r in rows ==> Precedes(r, Latest(rows))
  {
    assert rows == [rows[0]] + rows[1..];
    if |rows| > 1 { LatestIs(rows[1..]); }
  }

  /** How far a counter rose: its latest value less its earliest. */
  function Rise(rows: seq<Sample>): real {
    if rows == [] then 0.0 else Latest(rows).value - Earliest(rows).value
  }

  ghost predicate OneSeries(rows: seq<Sample>) {
    forall x, y :: x in rows && y in rows ==> SeriesOf(x) == SeriesOf(y)
  }

  /** For a counter that never decreases MAX - MIN is the latest value less the earliest. */
  lemma IncIsRise(rows: seq<Sample>)
    requires Counter(rows) && OneSeries(rows)
    ensures Inc(rows) == Rise(rows)
  {
    if rows != [] {
      MaxIsMax(rows);
      MinIsMin(rows);
      EarliestIs(rows);
      LatestIs(rows);
    }
  }

  ghost function SeriesRise(rows: seq<Sample>): Series -> real { s => Rise(InSeries(rows, s)) }

  ghost function CellRise(rows: seq<Sample>, b: int): Cell -> real
    requires b > 0
  {
    c => Rise(InCell(rows, b, c))
  }

  lemma SeriesIncIsRise(rows: seq<Sample>, group: set<Series>)
    requires Counter(rows)
    ensures Sum(group, SeriesInc(rows)) == Sum(group, SeriesRise(rows))
  {
    forall s | s in group ensures SeriesInc(rows)(s) == SeriesRise(rows)(s) {
      InSeriesHas(rows, s);
      IncIsRise(InSeries(rows, s));
    }
    SumEqual(group, SeriesInc(rows), SeriesRise(rows));
  }

  lemma CellIncIsRise(rows: seq<Sample>, b: int, group: set<Cell>)
    requires b > 0 && Counter(rows)
    ensures Sum(group, CellInc(rows, b)) == Sum(group, CellRise(rows, b))
  {
    forall c | c in group ensures CellInc(rows, b)(c) == CellRise(rows, b)(c) {
      InCellHas(rows, b, c);
      IncIsRise(InCell(rows, b, c));
    }
    SumEqual(group, CellInc(rows, b), CellRise(rows, b));
  }

  /** The series of the rows that `keep` lets through. */
  ghost function SeriesWhere(rows: seq<Sample>, keep: Sample -> bool): set<Series> {
    set r | r in rows && keep(r) :: Series(r.service, r.host, r.labels)
  }

  ghost function CellsWhere(rows: seq<Sample>, b: int, keep: Sample -> bool): set<Cell>
    requires b > 0
  {
    set r | r in rows && keep(r) :: Cell(Bucket(r.timestamp, b), Series(r.service, r.host, r.labels))
  }

  /** On counters that never decrease, every form is the sum over its series of how far each rose. */
  lemma WholeIsRise(rows: seq<Sample>, service: string)
    requires Counter(rows)
    ensures Overall(rows) == SqlSum(SeriesWhere(rows, _ => true), SeriesRise(rows))
    ensures PerService(rows, service) == SqlSum(SeriesWhere(rows, (r: Sample) => r.service == service), SeriesRise(rows))
  {
    assert AllSeries(rows) == SeriesWhere(rows, _ => true);
    assert Fibre(AllSeries(rows), ServiceOfSeries(), service) == SeriesWhere(rows, (r: Sample) => r.service == service);
    SeriesIncIsRise(rows, AllSeries(rows));
    SeriesIncIsRise(rows, Fibre(AllSeries(rows), ServiceOfSeries(), service));
  }

  lemma BucketIsRise(rows: seq<Sample>, b: int, bucket: int, service: string)
    requires b > 0 && Counter(rows)
    ensures PerBucket(rows, b, bucket)
            == SqlSum(CellsWhere(rows, b, (r: Sample) => Bucket(r.timestamp, b) == bucket), CellRise(rows, b))
    ensures PivotColumn(rows, b, bucket, service)
            == SqlSum(CellsWhere(rows, b, (r: Sample) => Bucket(r.timestamp, b) == bucket && r.service == service),
                      CellRise(rows, b))
  {
    var cells := Fibre(AllCells(rows, b), BucketOfCell(), bucket);
    var column := Fibre(cells, ServiceOfCell(), service);
    assert cells == CellsWhere(rows, b, (r: Sample) => Bucket(r.timestamp, b) == bucket);
    assert column == CellsWhere(rows, b, (r: Sample) => Bucket(r.timestamp, b) == bucket && r.service == service);
    CellIncIsRise(rows, b, cells);
    CellIncIsRise(rows, b, column);
  }

  // Plain aggregates, pivoted.

  /** CASE WHEN service = '...' THEN value END, row by row. */
  function Cases(rows: seq<Sample>, service: string): seq<Option<real>> {
    if rows == [] then []
    else [if rows[0].service == service then Some(rows[0].value) else None] + Cases(rows[1..], service)
  }

  /** Aggregates skip NULLs. */
  function NonNull(vs: seq<Option<real>>): seq<real> {
    if vs == [] then [] else (if vs[0].Some? then [vs[0].value] else []) + NonNull(vs[1..])
  }

  function Values(rows: seq<Sample>): seq<real> {
    if rows == [] then [] else [rows[0].value] + Values(rows[1..])
  }

  /** Every aggregate of a pivot column sees exactly the values of its service's rows, in order. */
  lemma {:induction false} PivotSeesService(rows: seq<Sample>, service: string)
    ensures NonNull(Cases(rows, service)) == Values(InService(rows, service))
  {
    if rows != [] {
      PivotSeesService(rows[1..], service);
      assert Cases(rows, service)[1..] == Cases(rows[1..], service);
      var rest := InService(rows[1..], service);
      if rows[0].service == service {
        assert ([rows[0]] + rest)[1..] == rest;
      } else {
        assert InService(rows, service) == rest;
      }
    }
  }
}
