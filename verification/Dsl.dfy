/** The metrics DSL: parsing its clauses, and compiling a query to one of the emitted forms. */
module Dsl {
  import opened Common
  import opened Text
  import opened Buckets
  import opened Sums
  import I = Increase

  const DEFAULT_WINDOW_MS := 24 * 3600 * 1000
  const PIVOT_SERVICE_CAP := 6

  const VERBS := {"increase", "rate", "avg", "min", "max", "sum", "count", "latest"}

  datatype Filter = Filter(key: string, value: string)

  datatype Query = Query(
    verb: string, metric: string, filters: seq<Filter>,
    bucketMs: int,   // 0: no `per`
    windowMs: int,
    byService: bool,
    fromMs: int, toMs: int)

  datatype Error =
    | UnknownVerb | PerTwice | PerMissing | LastTwice | LastMissing | OnlyByService
    | BadDuration | NotUnderstood | BadFilter | LatestPer | NoServices

  datatype Result<+T> = Ok(value: T) | Err(error: Error)

  // Durations.

  function Multiplier(unit: char): int {
    if unit == 'm' then 60_000 else if unit == 'h' then 3_600_000 else 86_400_000
  }

  function ParseDuration(s: string): Result<int> {
    if |s| < 2 || s[|s| - 1] !in {'m', 'h', 'd'} || !AllDigits(s[..|s| - 1]) then Err(BadDuration)
    else
      var n, mult := Atoi(s[..|s| - 1]), Multiplier(s[|s| - 1]);
      if n.None? || n.value <= 0 || n.value > INT64_MAX / mult then Err(BadDuration)
      else Ok(n.value * mult)
  }

  /** An accepted duration is its digits times its unit: a positive number of whole minutes that fits 64 bits. */
  lemma DurationMeaning(s: string)
    requires ParseDuration(s).Ok?
    ensures var ms := ParseDuration(s).value;
            && AllDigits(s[..|s| - 1]) && ms == DigitsValue(s[..|s| - 1]) * Multiplier(s[|s| - 1])
            && 0 < ms <= INT64_MAX && ms % 60_000 == 0
  {
    AtoiRange(s[..|s| - 1]);
    WholeMultiple(DigitsValue(s[..|s| - 1]), s[|s| - 1]);
  }

  lemma WholeMultiple(n: nat, unit: char)
    requires 0 < n <= INT64_MAX / Multiplier(unit)
    ensures 0 < n * Multiplier(unit) <= INT64_MAX && (n * Multiplier(unit)) % 60_000 == 0
  {
    if unit == 'm' {
      assert n * 60_000 <= INT64_MAX;
    } else if unit == 'h' {
      assert n * 3_600_000 == (n * 60) * 60_000 <= INT64_MAX;
    } else {
      assert n * 86_400_000 == (n * 1440) * 60_000 <= INT64_MAX;
    }
  }

  function DurationText(ms: int): string
    requires ms >= 0
  {
    NatText(ms / 60_000) + "m"
  }

  lemma WholeMinutesFit(ms: int)
    requires 0 < ms <= INT64_MAX && ms % 60_000 == 0
    ensures var n := ms / 60_000; 0 < n <= INT64_MAX / 60_000 && n * 60_000 == ms && n <= INT64_MAX
  {
  }

  lemma DurationRoundTrip(ms: int)
    requires 0 < ms <= INT64_MAX && ms % 60_000 == 0
    ensures ParseDuration(DurationText(ms)) == Ok(ms)
  {
    var n := ms / 60_000;
    WholeMinutesFit(ms);
    NatTextValue(n);
    AtoiItoa(n);
    var s := DurationText(ms);
    var digits := s[..|s| - 1];
    assert digits == NatText(n) == Itoa(n);
    assert Atoi(digits) == Some(n) && AllDigits(digits);
  }

  /** `n` of a unit, written out. */
  function Span(n: nat, unit: char): string { NatText(n) + [unit] }

  lemma FitsIff(n: nat, unit: char)
    ensures n <= INT64_MAX / Multiplier(unit) <==> n * Multiplier(unit) <= INT64_MAX
  {
    if unit == 'm' {
      assert n <= INT64_MAX / 60_000 <==> n * 60_000 <= INT64_MAX;
    } else if unit == 'h' {
      assert n <= INT64_MAX / 3_600_000 <==> n * 3_600_000 <= INT64_MAX;
    } else {
      assert n <= INT64_MAX / 86_400_000 <==> n * 86_400_000 <= INT64_MAX;
    }
  }

  lemma SpanReads(n: nat, unit: char)
    requires unit == 'm' || unit == 'h' || unit == 'd'
    ensures ParseDuration(Span(n, unit))
            == if 0 < n && n * Multiplier(unit) <= INT64_MAX then Ok(n * Multiplier(unit)) else Err(BadDuration)
  {
    var s := Span(n, unit);
    FitsIff(n, unit);
    NatTextValue(n);
    assert s[..|s| - 1] == NatText(n);
    if IsInt64(n) { AtoiDigits(NatText(n)); } else { assert IsDigit(NatText(n)[0]); }
  }

  /** A minute is 60000 ms. */
  lemma MinutesRead(n: nat)
    ensures ParseDuration(Span(n, 'm')) == if 0 < n && n * 60_000 <= INT64_MAX then Ok(n * 60_000) else Err(BadDuration)
  {
    SpanReads(n, 'm');
  }

  /** An hour is sixty minutes. */
  lemma HoursRead(n: nat)
    ensures ParseDuration(Span(n, 'h')) == ParseDuration(Span(60 * n, 'm'))
  {
    SpanReads(n, 'h');
    SpanReads(60 * n, 'm');
  }

  /** A day is 24 hours. */
  lemma DaysRead(n: nat)
    ensures ParseDuration(Span(n, 'd')) == ParseDuration(Span(24 * n, 'h'))
  {
    SpanReads(n, 'd');
    SpanReads(24 * n, 'h');
  }

  // Clauses.

  predicate IsLetter(c: char) { 'A' <= c <= 'Z' || 'a' <= c <= 'z' }

  predicate IsKey(s: string) {
    && s != [] && (IsLetter(s[0]) || s[0] == '_')
    && forall i :: 1 <= i < |s| ==> IsLetter(s[i]) || IsDigit(s[i]) || s[i] == '_' || s[i] == '.'
  }

  predicate IsQuote(c: char) { c == '\'' || c == '"' }

  /** strings.Trim with both quote characters. */
  function TrimQuotes(s: string): string {
    if s == [] then s
    else if IsQuote(s[0]) then TrimQuotes(s[1..])
    else if IsQuote(s[|s| - 1]) then TrimQuotes(s[..|s| - 1])
    else s
  }

  function ParseFilter(tok: string): Result<Filter> {
    var kv := Cut(tok, '=');
    if kv.None? then Err(NotUnderstood)
    else
      var val := TrimQuotes(kv.value.1);
      if !IsKey(kv.value.0) || val == "" then Err(BadFilter) else Ok(Filter(kv.value.0, val))
  }

  /** The clauses from token i on, added to what has been read. */
  function ParseClauses(tokens: seq<string>, i: nat, d: Query): Result<Query>
    requires i <= |tokens|
    decreases |tokens| - i
  {
    if i == |tokens| then Ok(d)
    else
      var tok := tokens[i];
      if Lower(tok) == "per" then
        if d.bucketMs != 0 then Err(PerTwice)
        else if i + 1 >= |tokens| then Err(PerMissing)
        else
          var ms := ParseDuration(tokens[i + 1]);
          if ms.Err? then Err(ms.error) else ParseClauses(tokens, i + 2, d.(bucketMs := ms.value))
      else if Lower(tok) == "last" then
        if d.windowMs != 0 then Err(LastTwice)
        else if i + 1 >= |tokens| then Err(LastMissing)
        else
          var ms := ParseDuration(tokens[i + 1]);
          if ms.Err? then Err(ms.error) else ParseClauses(tokens, i + 2, d.(windowMs := ms.value))
      else if Lower(tok) == "by" then
        if i + 1 >= |tokens| || Lower(tokens[i + 1]) != "service" then Err(OnlyByService)
        else ParseClauses(tokens, i + 2, d.(byService := true))
      else
        var f := ParseFilter(tok);
        if f.Err? then Err(f.error) else ParseClauses(tokens, i + 1, d.(filters := d.filters + [f.value]))
  }

  function Finish(d: Query): Result<Query> {
    if d.verb == "latest" && d.bucketMs != 0 then Err(LatestPer)
    else Ok(if d.windowMs == 0 then d.(windowMs := DEFAULT_WINDOW_MS) else d)
  }

  function Start(verb: string, metric: string): Query {
    Query(verb, metric, [], 0, 0, false, 0, 0)
  }

  /** The meaning of a DSL line whose head was split into verb and metric and whose tail into words. */
  function Parsed(verb: string, metric: string, tokens: seq<string>): Result<Query> {
    if Lower(verb) !in VERBS then Err(UnknownVerb)
    else
      var d := ParseClauses(tokens, 0, Start(Lower(verb), metric));
      if d.Err? then d else Finish(d.value)
  }

  /** The token loop. */
  method ParseDSL(verb: string, metric: string, tokens: seq<string>) returns (r: Result<Query>)
    ensures r == Parsed(verb, metric, tokens)
  {
    var d := Start(Lower(verb), metric);
    if d.verb !in VERBS { return Err(UnknownVerb); }
    var i := 0;
    while i < |tokens|
      invariant i <= |tokens|
      invariant ParseClauses(tokens, 0, Start(Lower(verb), metric)) == ParseClauses(tokens, i, d)
      invariant d.verb == Lower(verb)
    {
      var tok := tokens[i];
      if Lower(tok) == "per" {
        if d.bucketMs != 0 { return Err(PerTwice); }
        if i + 1 >= |tokens| { return Err(PerMissing); }
        i := i + 1;
        var ms := ParseDuration(tokens[i]);
        if ms.Err? { return Err(ms.error); }
        d := d.(bucketMs := ms.value);
      } else if Lower(tok) == "last" {
        if d.windowMs != 0 { return Err(LastTwice); }
        if i + 1 >= |tokens| { return Err(LastMissing); }
        i := i + 1;
        var ms := ParseDuration(tokens[i]);
        if ms.Err? { return Err(ms.error); }
        d := d.(windowMs := ms.value);
      } else if Lower(tok) == "by" {
        if i + 1 >= |tokens| || Lower(tokens[i + 1]) != "service" { return Err(OnlyByService); }
        i := i + 1;
        d := d.(byService := true);
      } else {
        var f := ParseFilter(tok);
        if f.Err? { return Err(f.error); }
        d := d.(filters := d.filters + [f.value]);
      }
      i := i + 1;
    }
    if d.verb == "latest" && d.bucketMs != 0 { return Err(LatestPer); }
    if d.windowMs == 0 { d := d.(windowMs := DEFAULT_WINDOW_MS); }
    return Ok(d);
  }

  /** Buckets and windows of whole minutes that fit 64 bits. */
  predicate WholeMinutes(d: Query) {
    && 0 <= d.bucketMs <= INT64_MAX && d.bucketMs % 60_000 == 0
    && 0 <= d.windowMs <= INT64_MAX && d.windowMs % 60_000 == 0
  }

  predicate CleanFilter(f: Filter) {
    IsKey(f.key) && f.value != "" && !IsQuote(f.value[0]) && !IsQuote(f.value[|f.value| - 1])
  }

  /** What the clauses read so far look like. */
  predicate CleanClauses(d: Query) {
    && WholeMinutes(d) && d.fromMs == 0 && d.toMs == 0
    && forall i :: 0 <= i < |d.filters| ==> CleanFilter(d.filters[i])
  }

  lemma {:induction false} TrimmedEnds(s: string)
    ensures var t := TrimQuotes(s); t != [] ==> !IsQuote(t[0]) && !IsQuote(t[|t| - 1])
    decreases |s|
  {
    if s != [] {
      if IsQuote(s[0]) { TrimmedEnds(s[1..]); } else if IsQuote(s[|s| - 1]) { TrimmedEnds(s[..|s| - 1]); }
    }
  }

  lemma {:induction false} ClausesKeepClean(tokens: seq<string>, i: nat, d: Query)
    requires i <= |tokens| && CleanClauses(d) && ParseClauses(tokens, i, d).Ok?
    ensures var q := ParseClauses(tokens, i, d).value; CleanClauses(q) && q.verb == d.verb && q.metric == d.metric
    decreases |tokens| - i
  {
    if i < |tokens| {
      var tok := tokens[i];
      if Lower(tok) == "per" {
        DurationMeaning(tokens[i + 1]);
        ClausesKeepClean(tokens, i + 2, d.(bucketMs := ParseDuration(tokens[i + 1]).value));
      } else if Lower(tok) == "last" {
        DurationMeaning(tokens[i + 1]);
        ClausesKeepClean(tokens, i + 2, d.(windowMs := ParseDuration(tokens[i + 1]).value));
      } else if Lower(tok) == "by" {
        ClausesKeepClean(tokens, i + 2, d.(byService := true));
      } else {
        TrimmedEnds(Cut(tok, '=').value.1);
        ClausesKeepClean(tokens, i + 1, d.(filters := d.filters + [ParseFilter(tok).value]));
      }
    }
  }

  /** Every parsed query has a positive window, whole-minute spans, and no bucket with `latest`. */
  lemma ParsedSpans(verb: string, metric: string, tokens: seq<string>)
    requires Parsed(verb, metric, tokens).Ok?
    ensures var d := Parsed(verb, metric, tokens).value;
            WholeMinutes(d) && d.windowMs > 0 && d.verb in VERBS && (d.verb == "latest" ==> d.bucketMs == 0)
  {
    ClausesKeepClean(tokens, 0, Start(Lower(verb), metric));
  }

  // Writing a query back as clauses.

  predicate Canonical(d: Query) {
    d.verb in VERBS && CleanClauses(d) && d.windowMs > 0 && (d.verb == "latest" ==> d.bucketMs == 0)
  }

  function FilterText(f: Filter): string { f.key + "=" + f.value }

  function FilterTokens(fs: seq<Filter>): seq<string> {
    if fs == [] then [] else FilterTokens(fs[..|fs| - 1]) + [FilterText(fs[|fs| - 1])]
  }

  function SpanTokens(d: Query): seq<string>
    requires d.bucketMs >= 0 && d.windowMs >= 0
  {
    (if d.bucketMs == 0 then [] else ["per", DurationText(d.bucketMs)])
    + ["last", DurationText(d.windowMs)]
    + (if d.byService then ["by", "service"] else [])
  }

  lemma FilterRoundTrip(f: Filter)
    requires CleanFilter(f)
    ensures ParseFilter(FilterText(f)) == Ok(f)
    ensures Lower(FilterText(f)) != "per" && Lower(FilterText(f)) != "last" && Lower(FilterText(f)) != "by"
  {
    CutAt(f.key, '=', f.value);
    var s := FilterText(f);
    assert s[|f.key|] == '=' && Lower(s)[|f.key|] == '=';
  }

  lemma FilterClause(tokens: seq<string>, n: nat, d: Query, f: Filter)
    requires n < |tokens| && tokens[n] == FilterText(f) && CleanFilter(f)
    ensures ParseClauses(tokens, n, d) == ParseClauses(tokens, n + 1, d.(filters := d.filters + [f]))
  {
    FilterRoundTrip(f);
  }

  /** Filters written one after the other are read one after the other. */
  lemma {:induction false} FiltersRoundTrip(tokens: seq<string>, i: nat, fs: seq<Filter>, d: Query)
    requires i + |fs| <= |tokens|
    requires forall k :: 0 <= k < |fs| ==> CleanFilter(fs[k]) && tokens[i + k] == FilterText(fs[k])
    ensures ParseClauses(tokens, i, d) == ParseClauses(tokens, i + |fs|, d.(filters := d.filters + fs))
    decreases |fs|
  {
    if fs == [] {
      assert d.filters + fs == d.filters;
    } else {
      var d1 := d.(filters := d.filters + [fs[0]]);
      FilterClause(tokens, i, d, fs[0]);
      FiltersRoundTrip(tokens, i + 1, fs[1..], d1);
      assert d1.filters + fs[1..] == d.filters + fs;
    }
  }

  lemma {:induction false} FilterTokensAre(fs: seq<Filter>)
    ensures |FilterTokens(fs)| == |fs| && forall k :: 0 <= k < |fs| ==> FilterTokens(fs)[k] == FilterText(fs[k])
  {
    if fs != [] { FilterTokensAre(fs[..|fs| - 1]); }
  }

  lemma ByRoundTrip(tokens: seq<string>, i: nat, d: Query)
    requires i <= |tokens| && (tokens[i..] == [] || tokens[i..] == ["by", "service"])
    ensures ParseClauses(tokens, i, d) == Ok(if i < |tokens| then d.(byService := true) else d)
  {
    if i < |tokens| {
      assert tokens[i] == tokens[i..][0] && tokens[i + 1] == tokens[i..][1];
      assert Lower("by") == "by" && Lower("service") == "service";
      assert |tokens| == i + 2;
    }
  }

  lemma LastRoundTrip(tokens: seq<string>, i: nat, d: Query, ms: int)
    requires 0 < ms <= INT64_MAX && ms % 60_000 == 0 && d.windowMs == 0
    requires i + 2 <= |tokens| && tokens[i] == "last" && tokens[i + 1] == DurationText(ms)
    ensures ParseClauses(tokens, i, d) == ParseClauses(tokens, i + 2, d.(windowMs := ms))
  {
    assert Lower("last") == "last";
    DurationRoundTrip(ms);
  }

  lemma PerRoundTrip(tokens: seq<string>, i: nat, d: Query, ms: int)
    requires 0 < ms <= INT64_MAX && ms % 60_000 == 0 && d.bucketMs == 0
    requires i + 2 <= |tokens| && tokens[i] == "per" && tokens[i + 1] == DurationText(ms)
    ensures ParseClauses(tokens, i, d) == ParseClauses(tokens, i + 2, d.(bucketMs := ms))
  {
    assert Lower("per") == "per";
    DurationRoundTrip(ms);
  }

  lemma TailRoundTrip(tokens: seq<string>, k: nat, d: Query, ms: int, grouped: bool)
    requires 0 < ms <= INT64_MAX && ms % 60_000 == 0 && d.windowMs == 0 && !d.byService
    requires k <= |tokens| && tokens[k..] == ["last", DurationText(ms)] + (if grouped then ["by", "service"] else [])
    ensures ParseClauses(tokens, k, d) == Ok(d.(windowMs := ms, byService := grouped))
  {
    assert tokens[k] == tokens[k..][0] && tokens[k + 1] == tokens[k..][1];
    assert tokens[k + 2..] == tokens[k..][2..];
    LastRoundTrip(tokens, k, d, ms);
    ByRoundTrip(tokens, k + 2, d.(windowMs := ms));
  }

  lemma SpansRoundTrip(tokens: seq<string>, n: nat, d: Query)
    requires Canonical(d) && n <= |tokens| && tokens[n..] == SpanTokens(d)
    ensures ParseClauses(tokens, n, Start(d.verb, d.metric).(filters := d.filters)) == Ok(d)
  {
    var d1 := Start(d.verb, d.metric).(filters := d.filters);
    if d.bucketMs != 0 {
      assert tokens[n] == tokens[n..][0] && tokens[n + 1] == tokens[n..][1];
      assert tokens[n + 2..] == tokens[n..][2..];
      PerRoundTrip(tokens, n, d1, d.bucketMs);
      TailRoundTrip(tokens, n + 2, d1.(bucketMs := d.bucketMs), d.windowMs, d.byService);
    } else {
      TailRoundTrip(tokens, n, d1, d.windowMs, d.byService);
    }
  }

  /** A query written out as clauses parses back to itself. */
  lemma ClausesRoundTrip(d: Query)
    requires Canonical(d)
    ensures Parsed(d.verb, d.metric, Printed(d)) == Ok(d)
  {
    var tokens, n := FilterTokens(d.filters) + SpanTokens(d), |FilterTokens(d.filters)|;
    var d0 := Start(d.verb, d.metric);
    VerbsAreLower(d.verb);
    FilterTokensAre(d.filters);
    FiltersRoundTrip(tokens, 0, d.filters, d0);
    assert d0.filters + d.filters == d.filters;
    assert tokens[n..] == SpanTokens(d);
    SpansRoundTrip(tokens, n, d);
  }

  /** The clauses of a query, written out. */
  function Printed(d: Query): seq<string>
    requires d.bucketMs >= 0 && d.windowMs >= 0
  {
    FilterTokens(d.filters) + SpanTokens(d)
  }

  /** What the parser accepts is canonical, and printing it gives a line with the same meaning. */
  lemma ParsePrintParse(verb: string, metric: string, tokens: seq<string>)
    requires Parsed(verb, metric, tokens).Ok?
    ensures var d := Parsed(verb, metric, tokens).value;
            Canonical(d) && d.metric == metric && Parsed(d.verb, d.metric, Printed(d)) == Ok(d)
  {
    ParsedSpans(verb, metric, tokens);
    ClausesKeepClean(tokens, 0, Start(Lower(verb), metric));
    ClausesRoundTrip(Parsed(verb, metric, tokens).value);
  }

  lemma VerbsAreLower(verb: string)
    requires verb in VERBS
    ensures Lower(verb) == verb
  {
  }

  // Compiling.

  function OverrideWindow(d: Query, fromMs: int, toMs: int): Query {
    d.(fromMs := fromMs, toMs := toMs, windowMs := toMs - fromMs)
  }

  predicate NeedsServices(d: Query) {
    d.byService && d.bucketMs != 0 && d.verb != "latest"
  }

  /** How the emitted query groups its rows. */
  datatype Form = Whole | ByService | ByBucket(bucketMs: int) | Pivot(bucketMs: int, services: seq<string>)

  /** The emitted query: latest value, counter increase (with the seconds a rate divides by), or plain aggregate. */
  datatype Plan =
    | Latest(byService: bool)
    | CounterPlan(form: Form, perSecond: Option<int>)
    | AggregatePlan(fn: string, form: Form)

  function FormOf(d: Query, services: seq<string>): Form {
    if d.bucketMs != 0 && d.byService then Pivot(d.bucketMs, services)
    else if d.bucketMs != 0 then ByBucket(d.bucketMs)
    else if d.byService then ByService
    else Whole
  }

  function Compile(d: Query, services: seq<string>): Result<Plan> {
    if NeedsServices(d) && services == [] then Err(NoServices)
    else
      var columns := if NeedsServices(d) && |services| > PIVOT_SERVICE_CAP then services[..PIVOT_SERVICE_CAP] else services;
      if d.verb == "latest" then Ok(Latest(d.byService))
      else if d.verb == "increase" || d.verb == "rate" then
        var frameSecs := TruncDiv(if d.bucketMs != 0 then d.bucketMs else d.windowMs, 1000);
        Ok(CounterPlan(FormOf(d, columns), if d.verb == "rate" then Some(frameSecs) else None))
      else Ok(AggregatePlan(d.verb, FormOf(d, columns)))
  }

  /** The time condition of the emitted WHERE; `nowSec` is unixepoch() when the query runs. */
  predicate InWindow(d: Query, nowSec: int, ts: int) {
    if d.toMs > 0 then d.fromMs <= ts <= d.toMs
    else ts > (nowSec - TruncDiv(d.windowMs, 1000)) * 1000
  }

  /** The rows the emitted WHERE keeps; `extract` is json_extract on the labels column. */
  predicate Keeps(d: Query, nowSec: int, extract: (Option<string>, string) -> Option<string>, r: I.Sample) {
    && r.name == d.metric
    && (forall i :: 0 <= i < |d.filters| ==>
          (if d.filters[i].key == "service" then r.service == d.filters[i].value
           else if d.filters[i].key == "host" then r.host == d.filters[i].value
           else extract(r.labels, d.filters[i].key) == Some(d.filters[i].value)))
    && InWindow(d, nowSec, r.timestamp)
  }

  function Rows(d: Query, nowSec: int, extract: (Option<string>, string) -> Option<string>, table: seq<I.Sample>): seq<I.Sample> {
    if table == [] then []
    else (if Keeps(d, nowSec, extract, table[0]) then [table[0]] else []) + Rows(d, nowSec, extract, table[1..])
  }

  // What a counter plan computes.

  function Scaled(v: Option<real>, perSecond: Option<int>): Option<real>
    requires perSecond.Some? ==> perSecond.value > 0
  {
    if v.Some? then Some(Per(v.value, perSecond)) else v
  }

  predicate Runnable(p: Plan) {
    && p.CounterPlan? && (p.perSecond.Some? ==> p.perSecond.value > 0)
    && (p.form.ByBucket? || p.form.Pivot? ==> p.form.bucketMs > 0)
  }

  /** The value in the row of a bucket and the row or column of a service, where the form has them. */
  ghost function Cell(p: Plan, rows: seq<I.Sample>, bucket: int, service: string): Option<real>
    requires Runnable(p)
  {
    var v := match p.form
      case Whole => I.Overall(rows)
      case ByService => I.PerService(rows, service)
      case ByBucket(b) => I.PerBucket(rows, b, bucket)
      case Pivot(b, services) => if service in services then I.PivotColumn(rows, b, bucket, service) else None;
    Scaled(v, p.perSecond)
  }

  /** On counters that never decrease: how far each series of the cell rose, added up, per second for a rate. */
  lemma CellIsRise(p: Plan, rows: seq<I.Sample>, bucket: int, service: string)
    requires Runnable(p) && I.Counter(rows)
    ensures Cell(p, rows, bucket, service)
            == Scaled(
                 match p.form
                 case Whole => I.SqlSum(I.SeriesWhere(rows, _ => true), I.SeriesRise(rows))
                 case ByService => I.SqlSum(I.SeriesWhere(rows, (r: I.Sample) => r.service == service), I.SeriesRise(rows))
                 case ByBucket(b) =>
                   I.SqlSum(I.CellsWhere(rows, b, (r: I.Sample) => Bucket(r.timestamp, b) == bucket), I.CellRise(rows, b))
                 case Pivot(b, services) =>
                   if service !in services then None
                   else I.SqlSum(I.CellsWhere(rows, b, (r: I.Sample) => Bucket(r.timestamp, b) == bucket && r.service == service),
                                 I.CellRise(rows, b)),
                 p.perSecond)
  {
    if p.form.Whole? || p.form.ByService? {
      I.WholeIsRise(rows, service);
    } else {
      I.BucketIsRise(rows, p.form.bucketMs, bucket, service);
    }
  }

  ghost function AtBucket(p: Plan, rows: seq<I.Sample>): int -> real
    requires Runnable(p)
  {
    bucket => I.OrZero(Cell(p, rows, bucket, ""))
  }

  ghost function AtService(p: Plan, rows: seq<I.Sample>, bucket: int): string -> real
    requires Runnable(p)
  {
    service => I.OrZero(Cell(p, rows, bucket, service))
  }

  predicate CounterVerb(d: Query) { d.verb == "increase" || d.verb == "rate" }

  /** A frame of a second or more, so that a rate has something to divide by. */
  predicate HasFrame(d: Query) {
    d.bucketMs >= 0 && (d.bucketMs > 0 ==> d.bucketMs >= 1000) && (d.bucketMs == 0 ==> d.windowMs >= 1000)
  }

  lemma CompiledRuns(d: Query, services: seq<string>)
    requires CounterVerb(d) && HasFrame(d) && Compile(d, services).Ok?
    ensures Runnable(Compile(d, services).value)
  {
  }

  /** Of a parsed query a rate divides by 60 seconds or more, with or without a War Room window of a minute or more. */
  lemma RateFrame(verb: string, metric: string, tokens: seq<string>, fromMs: int, toMs: int, services: seq<string>)
    requires Parsed(verb, metric, tokens).Ok? && Parsed(verb, metric, tokens).value.verb == "rate"
    requires toMs - fromMs >= 60_000
    ensures var d := Parsed(verb, metric, tokens).value;
            forall q | q == d || q == OverrideWindow(d, fromMs, toMs) ::
              HasFrame(q) && (Compile(q, services).Ok? ==> Compile(q, services).value.perSecond.value >= 60)
    ensures var d := Parsed(verb, metric, tokens).value;
            d.bucketMs == 0 ==>
              Compile(OverrideWindow(d, fromMs, toMs), services) == Ok(CounterPlan(FormOf(d, services), Some((toMs - fromMs) / 1000)))
  {
    ParsedSpans(verb, metric, tokens);
  }

  /** A rate is the increase over the same rows, per second of the frame. */
  lemma RateIsIncrease(d: Query, services: seq<string>, rows: seq<I.Sample>, bucket: int, service: string)
    requires d.verb == "rate" && HasFrame(d) && Compile(d, services).Ok?
    ensures var p, i := Compile(d, services).value, Compile(d.(verb := "increase"), services);
            && i.Ok? && Runnable(p) && Runnable(i.value)
            && var x, y := Cell(p, rows, bucket, service), Cell(i.value, rows, bucket, service);
               (x.None? <==> y.None?)
               && (x.Some? ==> x.value * (TruncDiv(if d.bucketMs != 0 then d.bucketMs else d.windowMs, 1000) as real) == y.value)
  {
    CompiledRuns(d, services);
    CompiledRuns(d.(verb := "increase"), services);
  }

  /** `increase(m) ... per D` adds up to at most `increase(m) ...` over the same rows. */
  lemma PerNeverOvercounts(d: Query, nowSec: int, extract: (Option<string>, string) -> Option<string>, table: seq<I.Sample>)
    requires d.verb == "increase" && d.bucketMs > 0 && !d.byService
    requires I.Counter(Rows(d, nowSec, extract, table))
    ensures var whole := d.(bucketMs := 0);
            var rows := Rows(d, nowSec, extract, table);
            var p, q := Compile(d, []), Compile(whole, []);
            && p.Ok? && q.Ok? && Runnable(p.value) && Runnable(q.value)
            && Sum(I.AllBuckets(rows, d.bucketMs), AtBucket(p.value, rows))
               <= I.OrZero(Cell(q.value, Rows(whole, nowSec, extract, table), 0, ""))
  {
    var rows, p := Rows(d, nowSec, extract, table), Compile(d, []).value;
    RowsIgnoreBucket(d, nowSec, extract, table);
    I.BucketsNeverOvercount(rows, d.bucketMs);
    SumEqual(I.AllBuckets(rows, d.bucketMs), AtBucket(p, rows), I.BucketValue(rows, d.bucketMs));
  }

  lemma {:induction false} RowsIgnoreBucket(d: Query, nowSec: int, extract: (Option<string>, string) -> Option<string>,
                                            table: seq<I.Sample>)
    ensures Rows(d.(bucketMs := 0), nowSec, extract, table) == Rows(d, nowSec, extract, table)
  {
    if table != [] {
      RowsIgnoreBucket(d, nowSec, extract, table[1..]);
      assert Keeps(d.(bucketMs := 0), nowSec, extract, table[0]) <==> Keeps(d, nowSec, extract, table[0]);
    }
  }

  function SetOf(xs: seq<string>): set<string> { set x | x in xs }

  function Per(x: real, n: Option<int>): real
    requires n.Some? ==> n.value > 0
  {
    if n.Some? then x / (n.value as real) else x
  }

  lemma PerMonotone(x: real, y: real, n: Option<int>)
    requires (n.Some? ==> n.value > 0) && x <= y
    ensures Per(x, n) <= Per(y, n)
  {
  }

  lemma PerAdds(x: real, y: real, n: Option<int>)
    requires n.Some? ==> n.value > 0
    ensures Per(x + y, n) == Per(x, n) + Per(y, n)
  {
  }

  ghost function Divided<K(!new)>(g: K -> real, n: Option<int>): K -> real
    requires n.Some? ==> n.value > 0
  {
    k => Per(g(k), n)
  }

  lemma {:induction false} SumDivided<K(!new)>(s: set<K>, g: K -> real, n: Option<int>)
    requires n.Some? ==> n.value > 0
    ensures Sum(s, Divided(g, n)) == Per(Sum(s, g), n)
    decreases |s|
  {
    if s != {} {
      var k :| k in s;
      SumSplit(s, g, k);
      SumSplit(s, Divided(g, n), k);
      SumDivided(s - {k}, g, n);
      PerAdds(g(k), Sum(s - {k}, g), n);
    }
  }

  /** `increase(m) by service` and `rate(m) by service` add up to the same query without the clause. */
  lemma ServicesAddUp(d: Query, rows: seq<I.Sample>)
    requires CounterVerb(d) && HasFrame(d) && d.bucketMs == 0 && d.byService
    ensures var p, q := Compile(d, []), Compile(d.(byService := false), []);
            && p.Ok? && q.Ok? && Runnable(p.value) && Runnable(q.value)
            && Sum(I.AllServices(rows), AtService(p.value, rows, 0)) == I.OrZero(Cell(q.value, rows, 0, ""))
  {
    CompiledRuns(d, []);
    CompiledRuns(d.(byService := false), []);
    I.ServicesSumToOverall(rows);
    ServiceRows(Compile(d, []).value, rows);
    OrZeroScaled(I.Overall(rows), Compile(d, []).value.perSecond);
  }

  lemma OrZeroScaled(v: Option<real>, n: Option<int>)
    requires n.Some? ==> n.value > 0
    ensures I.OrZero(Scaled(v, n)) == Per(I.OrZero(v), n)
  {
  }

  lemma ServiceRows(p: Plan, rows: seq<I.Sample>)
    requires Runnable(p) && p.form.ByService?
    ensures Sum(I.AllServices(rows), AtService(p, rows, 0)) == Per(Sum(I.AllServices(rows), I.ServiceValue(rows)), p.perSecond)
  {
    SumDivided(I.AllServices(rows), I.ServiceValue(rows), p.perSecond);
    forall service ensures AtService(p, rows, 0)(service) == Divided(I.ServiceValue(rows), p.perSecond)(service) {
      OrZeroScaled(I.PerService(rows, service), p.perSecond);
    }
    SumEqual(I.AllServices(rows), AtService(p, rows, 0), Divided(I.ServiceValue(rows), p.perSecond));
  }

  ghost function AtBucketOf(p: Plan, rows: seq<I.Sample>, service: string): int -> real
    requires Runnable(p)
  {
    bucket => I.OrZero(Cell(p, rows, bucket, service))
  }

  /** `increase(m) per D by service`: a listed service's column adds up to at most its `by service` increase. */
  lemma ColumnNeverOvercounts(d: Query, services: seq<string>, service: string, nowSec: int,
                              extract: (Option<string>, string) -> Option<string>, table: seq<I.Sample>)
    requires d.verb == "increase" && d.bucketMs > 0 && d.byService && Compile(d, services).Ok?
    requires service in Compile(d, services).value.form.services
    requires I.Counter(Rows(d, nowSec, extract, table))
    ensures var whole := d.(bucketMs := 0);
            var rows := Rows(d, nowSec, extract, table);
            var p, q := Compile(d, services).value, Compile(whole, services);
            && q.Ok? && Runnable(p) && Runnable(q.value)
            && Sum(I.AllBuckets(rows, d.bucketMs), AtBucketOf(p, rows, service))
               <= I.OrZero(Cell(q.value, Rows(whole, nowSec, extract, table), 0, service))
  {
    var rows, p := Rows(d, nowSec, extract, table), Compile(d, services).value;
    RowsIgnoreBucket(d, nowSec, extract, table);
    I.ServiceBucketsNeverOvercount(rows, d.bucketMs, service);
    SumEqual(I.AllBuckets(rows, d.bucketMs), AtBucketOf(p, rows, service), I.ServiceBucketValue(rows, d.bucketMs, service));
  }

  /**
    `per D by service`, for increase and rate: refused without services; else one column
    per service, the first six. The columns of a bucket never exceed the bucket of the
    query without the clause, and add up to it when the list is complete and not cut.
   */
  lemma PivotSplitsBucket(d: Query, services: seq<string>, rows: seq<I.Sample>, bucket: int)
    requires CounterVerb(d) && HasFrame(d) && d.bucketMs > 0 && d.byService
    ensures Compile(d, services).Err? <==> services == []
    ensures Compile(d, services).Ok? ==>
              var p, q := Compile(d, services).value, Compile(d.(byService := false), services);
              && Runnable(p) && q.Ok? && Runnable(q.value) && p.form.Pivot?
              && p.form.services <= services && |p.form.services| == (if |services| <= 6 then |services| else 6)
              && var columns := Sum(SetOf(p.form.services), AtService(p, rows, bucket));
                 var all := I.OrZero(Cell(q.value, rows, bucket, ""));
                 columns <= all && (|services| <= 6 && I.AllServices(rows) <= SetOf(services) ==> columns == all)
  {
    if services != [] {
      var p := Compile(d, services).value;
      CompiledRuns(d, services);
      CompiledRuns(d.(byService := false), services);
      PivotWithin(p, rows, bucket);
    }
  }

  /** The columns of a pivot, against the unpivoted bucket. */
  lemma PivotWithin(p: Plan, rows: seq<I.Sample>, bucket: int)
    requires Runnable(p) && p.form.Pivot?
    ensures var columns := Sum(SetOf(p.form.services), AtService(p, rows, bucket));
            var all := I.OrZero(Cell(CounterPlan(ByBucket(p.form.bucketMs), p.perSecond), rows, bucket, ""));
            columns <= all && (I.AllServices(rows) <= SetOf(p.form.services) ==> columns == all)
  {
    var listed, b := SetOf(p.form.services), p.form.bucketMs;
    PivotColumns(p, rows, bucket);
    OrZeroScaled(I.PerBucket(rows, b, bucket), p.perSecond);
    I.ColumnsAtMostBucket(rows, b, bucket, listed);
    PerMonotone(Sum(listed, I.ColumnValue(rows, b, bucket)), I.OrZero(I.PerBucket(rows, b, bucket)), p.perSecond);
    if I.AllServices(rows) <= listed { I.ColumnsSumToBucket(rows, b, bucket, listed); }
  }

  lemma PivotColumns(p: Plan, rows: seq<I.Sample>, bucket: int)
    requires Runnable(p) && p.form.Pivot?
    ensures var listed := SetOf(p.form.services);
            Sum(listed, AtService(p, rows, bucket))
            == Per(Sum(listed, I.ColumnValue(rows, p.form.bucketMs, bucket)), p.perSecond)
  {
    var listed, g := SetOf(p.form.services), I.ColumnValue(rows, p.form.bucketMs, bucket);
    SumDivided(listed, g, p.perSecond);
    forall service | service in listed ensures AtService(p, rows, bucket)(service) == Divided(g, p.perSecond)(service) {
      OrZeroScaled(I.PivotColumn(rows, p.form.bucketMs, bucket, service), p.perSecond);
    }
    SumEqual(listed, AtService(p, rows, bucket), Divided(g, p.perSecond));
  }
}
