/**
  The whole chain a page request runs through, from ui/logs.go: quick filters, then the
  search, then a window or cursor, and what the resulting statement selects.
 */
module QueryPage {
  import opened Common
  import opened Text
  import opened Sql
  import opened Rewrite
  import opened RewriteMeaning
  import opened Compose

  datatype Param = Param(col: string, value: string)

  const COLUMNS := ["service", "level", "host"]

  function Given(col: string, value: string): seq<Param> {
    if value == "" then [] else [Param(col, value)]
  }

  /** The filters of the first n columns, in the order the page applies them. */
  function FirstFilters(values: seq<string>, n: nat): seq<Param>
    requires |values| == 3 && n <= 3
  {
    if n == 0 then [] else FirstFilters(values, n - 1) + Given(COLUMNS[n - 1], values[n - 1])
  }

  /** The quick filters of a request: the service, level and host parameters that are not empty. */
  function PageFilters(values: seq<string>): seq<Param>
    requires |values| == 3
  {
    FirstFilters(values, 3)
  }

  function Filtered(v: Vetted, fs: seq<Param>): Result<Vetted> {
    if fs == [] then Ok(v)
    else
      var r := Filtered(v, fs[..|fs| - 1]);
      if r.Err? then r else QuickFilter(r.value, fs[|fs| - 1].col, fs[|fs| - 1].value)
  }

  lemma FilteredNext(v: Vetted, values: seq<string>, n: nat)
    requires |values| == 3 && n < 3
    ensures var r := Filtered(v, FirstFilters(values, n));
            Filtered(v, FirstFilters(values, n + 1))
            == if r.Err? || values[n] == "" then r else QuickFilter(r.value, COLUMNS[n], values[n])
  {
    var fs := FirstFilters(values, n);
    if values[n] == "" {
      assert FirstFilters(values, n + 1) == fs;
    } else {
      assert FirstFilters(values, n + 1)[..|fs|] == fs;
    }
  }

  lemma {:induction false} FilteredStops(v: Vetted, values: seq<string>, n: nat)
    requires |values| == 3 && n <= 3 && Filtered(v, FirstFilters(values, n)).Err?
    ensures Filtered(v, PageFilters(values)).Err?
    decreases 3 - n
  {
    if n < 3 {
      FilteredNext(v, values, n);
      FilteredStops(v, values, n + 1);
    }
  }

  /** The page's loop: the first filter that does not fit ends the request. */
  method MergeFilters(v: Validated, values: seq<string>) returns (err: Option<Error>)
    requires |values| == 3
    modifies v
    ensures err.None? <==> Filtered(old(v.Value()), PageFilters(values)).Ok?
    ensures err.None? ==> v.Value() == Filtered(old(v.Value()), PageFilters(values)).value
  {
    for i := 0 to 3
      invariant Filtered(old(v.Value()), FirstFilters(values, i)) == Ok(v.Value())
    {
      FilteredNext(old(v.Value()), values, i);
      if values[i] != "" {
        err := v.ApplyQuickFilter(COLUMNS[i], values[i]);
        if err.Some? {
          FilteredStops(old(v.Value()), values, i + 1);
          return;
        }
      }
    }
    return None;
  }

  /** The value a filter asks for. */
  function FilterValue(f: Param): Value {
    if f.col == "level" && Atoi(f.value).Some? then Int(Atoi(f.value).value) else Str(f.value)
  }

  predicate Fits(f: Param) { FilterLiteral(f.col, f.value).Ok? }

  /** `e` is the equality that filter `f` leaves in the statement. */
  predicate Says(e: Expr, f: Param) {
    IsEqOn(e, f.col) && Fits(f) && e.y == FilterLiteral(f.col, f.value).value
  }

  predicate Distinct(fs: seq<Param>) {
    forall i, j :: 0 <= i < j < |fs| ==> fs[i].col != fs[j].col
  }

  /** Conjunct k of the user's condition is the first equality on some filter's column. */
  predicate Replaced(es: seq<Expr>, fs: seq<Param>, k: nat) {
    exists i :: 0 <= i < |fs| && FirstEq(es, fs[i].col) == k
  }

  predicate SaidBy(e: Expr, fs: seq<Param>) {
    exists i :: 0 <= i < |fs| && Says(e, fs[i])
  }

  predicate Heard(es: seq<Expr>, f: Param) {
    exists k :: 0 <= k < |es| && Says(es[k], f)
  }

  /** How the conjuncts stand after the filters: replaced ones and added ones are theirs, the others are as before. */
  ghost predicate Tracks(before: seq<Expr>, fs: seq<Param>, after: seq<Expr>) {
    && |before| <= |after|
    && (forall k :: 0 <= k < |before| && !Replaced(before, fs, k) ==> after[k] == before[k])
    && (forall k :: 0 <= k < |after| && (k >= |before| || Replaced(before, fs, k)) ==> SaidBy(after[k], fs))
    && (forall i :: 0 <= i < |fs| ==> Heard(after, fs[i]))
  }

  lemma FirstEqTracked(before: seq<Expr>, fs: seq<Param>, after: seq<Expr>, col: string)
    requires Tracks(before, fs, after) && forall i :: 0 <= i < |fs| ==> fs[i].col != col
    ensures FirstEq(after, col) == if FirstEq(before, col) < |before| then FirstEq(before, col) else |after|
  {
    forall k | 0 <= k < |after|
      ensures IsEqOn(after[k], col) <==> k < |before| && IsEqOn(before[k], col)
    {
      if k >= |before| || Replaced(before, fs, k) {
        var i :| 0 <= i < |fs| && Says(after[k], fs[i]);
        if k < |before| {
          var j :| 0 <= j < |fs| && FirstEq(before, fs[j].col) == k;
          assert IsEqOn(before[k], fs[j].col);
        }
      }
    }
  }

  lemma OneMore(before: seq<Expr>, fs: seq<Param>, f: Param)
    ensures forall k :: Replaced(before, fs + [f], k) <==> Replaced(before, fs, k) || FirstEq(before, f.col) == k
    ensures forall e :: SaidBy(e, fs) || Says(e, f) ==> SaidBy(e, fs + [f])
  {
    var all := fs + [f];
    assert all[|fs|] == f && forall i :: 0 <= i < |fs| ==> all[i] == fs[i];
  }

  /** The conjuncts after one more filter. */
  function Refined(es: seq<Expr>, f: Param): seq<Expr>
    requires Fits(f)
  {
    var i, lit := FirstEq(es, f.col), FilterLiteral(f.col, f.value).value;
    if i < |es| then es[i := WithLiteral(es[i], lit)] else es + [Binary(Eq, Ident(f.col), lit)]
  }

  lemma RefinedSays(es: seq<Expr>, f: Param)
    requires Fits(f)
    ensures var i := FirstEq(es, f.col); i < |Refined(es, f)| && Says(Refined(es, f)[i], f)
    ensures forall k :: 0 <= k < |es| && k != FirstEq(es, f.col) ==> Refined(es, f)[k] == es[k]
  {
    LiteralValue(f.col, f.value);
    assert Lower(f.col) == f.col;
  }

  lemma HeardStill(es: seq<Expr>, f: Param, g: Param)
    requires Fits(f) && g.col != f.col && Heard(es, g)
    ensures Heard(Refined(es, f), g)
  {
    var k :| 0 <= k < |es| && Says(es[k], g);
    RefinedSays(es, f);
    assert k != FirstEq(es, f.col);
    assert Says(Refined(es, f)[k], g);
  }

  lemma TracksNext(before: seq<Expr>, fs: seq<Param>, after: seq<Expr>, f: Param)
    requires Tracks(before, fs, after) && Fits(f) && forall i :: 0 <= i < |fs| ==> fs[i].col != f.col
    ensures Tracks(before, fs + [f], Refined(after, f))
  {
    var at, all, next := FirstEq(after, f.col), fs + [f], Refined(after, f);
    FirstEqTracked(before, fs, after, f.col);
    OneMore(before, fs, f);
    RefinedSays(after, f);
    forall i | 0 <= i < |all| ensures Heard(next, all[i]) {
      if i < |fs| {
        HeardStill(after, f, fs[i]);
      } else {
        assert Says(next[at], f);
      }
    }
  }

  lemma FilterStep(u: Vetted, f: Param)
    requires QuickFilter(u, f.col, f.value).Ok? && (u.stmt.where.Some? ==> Binds(u.stmt.where.value) == 0)
    ensures Fits(f)
    ensures var w := QuickFilter(u, f.col, f.value).value;
            && WhereConjuncts(w.stmt.where) == Refined(WhereConjuncts(u.stmt.where), f)
            && w.stmt.where.Some? && Binds(w.stmt.where.value) == 0 && w.stmt.source == u.stmt.source
  {
    var lit := FilterLiteral(f.col, f.value).value;
    LiteralValue(f.col, f.value);
    QuickFilterConjuncts(u.stmt.where, f.col, lit);
    FilteredBinds(u.stmt.where, f.col, lit);
  }

  /** What the filter chain leaves alone and what it leaves behind. */
  lemma {:induction false} FilteredConjuncts(v: Vetted, fs: seq<Param>)
    requires Distinct(fs) && Filtered(v, fs).Ok?
    requires v.stmt.where.Some? ==> Binds(v.stmt.where.value) == 0
    ensures var w := Filtered(v, fs).value;
            && Tracks(WhereConjuncts(v.stmt.where), fs, WhereConjuncts(w.stmt.where))
            && (w.stmt.where.Some? ==> Binds(w.stmt.where.value) == 0)
            && w.stmt.source == v.stmt.source && (w.stmt.where.None? <==> v.stmt.where.None? && fs == [])
  {
    var es := WhereConjuncts(v.stmt.where);
    if fs == [] {
      assert forall k :: !Replaced(es, fs, k);
    } else {
      var front, f := fs[..|fs| - 1], fs[|fs| - 1];
      FilteredConjuncts(v, front);
      var u := Filtered(v, front).value;
      FilterStep(u, f);
      TracksNext(es, front, WhereConjuncts(u.stmt.where), f);
      assert front + [f] == fs;
    }
  }

  /** The log is of that service, from that host, or at that level. */
  predicate HasValue(r: LogRow, f: Param) {
    if f.col == "service" then r.service == f.value
    else if f.col == "host" then r.host == f.value
    else Atoi(f.value) == Some(r.level)
  }

  lemma HasValueIff(db: Db, r: LogRow, f: Param)
    requires Fits(f)
    ensures ColumnValue(db, r, f.col) == FilterValue(f) <==> HasValue(r, f)
  {
    assert Lower(f.col) == f.col;
  }

  /** The row has every value asked for, and meets every condition of the user's that no filter replaced. */
  ghost predicate FiltersKeep(db: Db, where: Option<Expr>, fs: seq<Param>, r: LogRow) {
    && (forall i :: 0 <= i < |fs| ==> HasValue(r, fs[i]))
    && (var es := WhereConjuncts(where);
        forall k :: 0 <= k < |es| && !Replaced(es, fs, k) ==> Holds(db, es[k], Tuple(r, None), [], 0))
  }

  lemma SaysHolds(db: Db, e: Expr, f: Param, t: Tuple)
    requires Says(e, f)
    ensures Holds(db, e, t, [], 0) <==> ColumnValue(db, t.row, f.col) == FilterValue(f)
  {
    LiteralValue(f.col, f.value);
    EqHolds(db, e, f.col, t);
  }

  lemma TrackedHold(db: Db, before: seq<Expr>, fs: seq<Param>, after: seq<Expr>, t: Tuple)
    requires Tracks(before, fs, after)
    ensures AllHold(db, after, t)
            <==> (forall i :: 0 <= i < |fs| ==> ColumnValue(db, t.row, fs[i].col) == FilterValue(fs[i]))
                 && (forall k :: 0 <= k < |before| && !Replaced(before, fs, k) ==> Holds(db, before[k], t, [], 0))
  {
    forall i, k | 0 <= i < |fs| && 0 <= k < |after| && Says(after[k], fs[i])
      ensures Holds(db, after[k], t, [], 0) <==> ColumnValue(db, t.row, fs[i].col) == FilterValue(fs[i])
    {
      SaysHolds(db, after[k], fs[i], t);
    }
    if AllHold(db, after, t) {
      forall k | 0 <= k < |before| && !Replaced(before, fs, k) ensures Holds(db, before[k], t, [], 0) {
        assert after[k] == before[k];
      }
    }
  }

  /** The filtered condition keeps exactly the rows the filters and the untouched conditions keep. */
  lemma FilteredKeeps(db: Db, v: Vetted, fs: seq<Param>, r: LogRow)
    requires Distinct(fs) && Filtered(v, fs).Ok?
    requires v.stmt.where.Some? ==> Binds(v.stmt.where.value) == 0
    ensures UserKeeps(db, Filtered(v, fs).value.stmt.where, r) <==> FiltersKeep(db, v.stmt.where, fs, r)
  {
    var w, t := Filtered(v, fs).value.stmt.where, Tuple(r, None);
    FilteredConjuncts(v, fs);
    TrackedHold(db, WhereConjuncts(v.stmt.where), fs, WhereConjuncts(w), t);
    forall i | 0 <= i < |fs| ensures ColumnValue(db, r, fs[i].col) == FilterValue(fs[i]) <==> HasValue(r, fs[i]) {
      assert Heard(WhereConjuncts(w), fs[i]);
      HasValueIff(db, r, fs[i]);
    }
    if w.Some? { HoldsConjuncts(db, w.value, t); }
  }

  function Chained(v: Vetted, fs: seq<Param>, search: Search, cursor: Cursor): Result<Vetted> {
    var r := Filtered(v, fs);
    if r.Err? then r else Composed(r.value, search, cursor)
  }

  /** (match op (filters and untouched conditions)), with match alone when there is nothing else. */
  ghost predicate ChainAsks(db: Db, where: Option<Expr>, fs: seq<Param>, search: Search, r: LogRow) {
    if search.NoSearch? then FiltersKeep(db, where, fs, r)
    else if where.None? && fs == [] then db.matches(search.text, r.raw)
    else if Lower(search.op) == "or" then db.matches(search.text, r.raw) || FiltersKeep(db, where, fs, r)
    else db.matches(search.text, r.raw) && FiltersKeep(db, where, fs, r)
  }

  lemma PageFiltersDistinct(values: seq<string>)
    requires |values| == 3
    ensures Distinct(PageFilters(values))
  {
    var a, b, c := Given("service", values[0]), Given("level", values[1]), Given("host", values[2]);
    assert FirstFilters(values, 1) == a;
    assert FirstFilters(values, 2) == a + b;
    assert PageFilters(values) == a + b + c;
  }

  /**
    What a page request selects, before ORDER BY, LIMIT and the OFFSET that drilling in
    leaves: each log as often as it stands in the table if it passes the cursor and the
    search combined with the filters, and no other.
   */
  lemma ChainMeaning(db: Db, v: Vetted, values: seq<string>, search: Search, cursor: Cursor, r: LogRow)
    requires Synced(db) && v.stmt.source == Some(Logs) && InRange(cursor) && |values| == 3
    requires v.stmt.where.Some? ==> Binds(v.stmt.where.value) == 0
    requires Chained(v, PageFilters(values), search, cursor).Ok?
    ensures var fs := PageFilters(values);
            multiset(Candidates(db, Chained(v, fs, search, cursor).value.stmt, Args(search, cursor)))[r]
            == if ChainAsks(db, v.stmt.where, fs, search, r) && Passes(cursor, r) then multiset(db.logs)[r] else 0
  {
    var fs := PageFilters(values);
    var w := Filtered(v, fs).value;
    PageFiltersDistinct(values);
    FilteredConjuncts(v, fs);
    ComposedMeaning(db, w, search, cursor);
    SelectedCount(db, db.logs, w.stmt.where, search, cursor, r);
    FilteredKeeps(db, v, fs, r);
  }
}
