/**
  The rewrites as the pages chain them: full-text search first, then a time
  window, a scroll cursor or a live-tail cursor; and the rows the result selects.
 */
module Compose {
  import opened Common
  import opened Text
  import opened Sql
  import opened Rewrite

  datatype Search = NoSearch | Search(op: string, text: Value)

  datatype Cursor =
    | NoCursor
    | TimeWindow(fromMs: int, toMs: int)
    | PageBefore(ts: int, id: int, size: int)
    | StreamAfter(lastId: int, limit: int)

  /** The rewritten query; the argument list follows it. */
  function Composed(v: Vetted, search: Search, cursor: Cursor): Result<Vetted> {
    var r := if search.Search? then CombineFts(v, search.op) else Ok(v);
    if r.Err? then r
    else match cursor
      case NoCursor => r
      case TimeWindow(a, b) => Window(r.value, a, b)
      case PageBefore(ts, id, size) => Paginate(r.value, ts, id, size)
      case StreamAfter(_, limit) => StreamCursor(r.value, limit)
  }

  function Args(search: Search, cursor: Cursor): seq<Value> {
    (if search.Search? then [search.text] else []) + (if cursor.StreamAfter? then [Int(cursor.lastId)] else [])
  }

  predicate InRange(cursor: Cursor) {
    match cursor
    case NoCursor => true
    case TimeWindow(a, b) => IsInt64(a) && IsInt64(b)
    case PageBefore(ts, id, _) => IsInt64(ts) && IsInt64(id)
    case StreamAfter(_, limit) => IsInt64(limit)
  }

  /** The order of the scroll: newer rows first, the id breaks ties. */
  predicate Older(a: LogRow, ts: int, id: int) {
    a.timestamp < ts || (a.timestamp == ts && a.id < id)
  }

  predicate NotOlder(a: LogRow, b: LogRow) { !Older(a, b.timestamp, b.id) }

  predicate Passes(cursor: Cursor, r: LogRow) {
    match cursor
    case NoCursor => true
    case TimeWindow(a, b) => a <= r.timestamp <= b
    case PageBefore(ts, id, _) => Older(r, ts, id)
    case StreamAfter(lastId, _) => r.id > lastId
  }

  predicate UserKeeps(db: Db, where: Option<Expr>, r: LogRow) {
    Kept(db, where, Tuple(r, None), [])
  }

  /** What the user asked for: search text and conditions joined by the chosen word. */
  predicate Asked(db: Db, where: Option<Expr>, search: Search, r: LogRow) {
    if search.NoSearch? then UserKeeps(db, where, r)
    else if where.None? then db.matches(search.text, r.raw)
    else if Lower(search.op) == "or" then db.matches(search.text, r.raw) || UserKeeps(db, where, r)
    else db.matches(search.text, r.raw) && UserKeeps(db, where, r)
  }

  predicate Selected(db: Db, where: Option<Expr>, search: Search, cursor: Cursor, r: LogRow) {
    Asked(db, where, search, r) && Passes(cursor, r)
  }

  /** The selected rows of a table, in table order, each as often as it stands there. */
  function SelectedRows(db: Db, rows: seq<LogRow>, where: Option<Expr>, search: Search, cursor: Cursor): seq<LogRow> {
    if rows == [] then []
    else (if Selected(db, where, search, cursor, rows[0]) then [rows[0]] else [])
         + SelectedRows(db, rows[1..], where, search, cursor)
  }

  // The truth of the conditions that the cursors add.

  lemma NumberColumns(db: Db, r: LogRow)
    ensures ColumnValue(db, r, "timestamp") == Int(r.timestamp)
    ensures ColumnValue(db, r, "id") == Int(r.id)
  {
    assert Lower("timestamp") == "timestamp";
    assert Lower("id") == "id";
  }

  lemma NumberEvals(db: Db, col: string, n: int, t: Tuple, args: seq<Value>, k: nat)
    requires (col == "timestamp" || col == "id") && IsInt64(n)
    ensures Eval(db, Ident(col), t, args, k) == Int(if col == "id" then t.row.id else t.row.timestamp)
    ensures Eval(db, NumberLit(Itoa(n)), t, args, k) == Int(n)
  {
    NumberColumns(db, t.row);
    AtoiItoa(n);
  }

  lemma BetweenHolds(db: Db, e: Expr, n: int, lo: int, hi: int, t: Tuple, args: seq<Value>, k: nat)
    requires e.Between? && Binds(e.x) == 0 && Binds(e.lo) == 0
    requires Eval(db, e.x, t, args, k) == Int(n)
    requires Eval(db, e.lo, t, args, k) == Int(lo) && Eval(db, e.hi, t, args, k) == Int(hi)
    ensures Holds(db, e, t, args, k) <==> lo <= n <= hi
  {
    assert Eval(db, e, t, args, k) == FromBool(lo <= n <= hi);
  }

  lemma WindowHolds(db: Db, a: int, b: int, t: Tuple, args: seq<Value>, k: nat)
    requires IsInt64(a) && IsInt64(b)
    ensures Holds(db, WindowCond(a, b), t, args, k) <==> a <= t.row.timestamp <= b
  {
    NumberEvals(db, "timestamp", a, t, args, k);
    NumberEvals(db, "timestamp", b, t, args, k);
    BetweenHolds(db, WindowCond(a, b), t.row.timestamp, a, b, t, args, k);
  }

  lemma StreamHolds(db: Db, t: Tuple, args: seq<Value>, k: nat)
    requires k < |args| && args[k].Int?
    ensures Holds(db, StreamCond(), t, args, k) <==> t.row.id > args[k].n
  {
    NumberEvals(db, "id", 0, t, args, k);
    var e := StreamCond();
    assert Binds(e.x) == 0 && Eval(db, e.y, t, args, k) == args[k];
    assert Eval(db, e, t, args, k) == FromBool(t.row.id > args[k].n);
  }

  lemma ComparisonHolds(db: Db, op: Op, col: string, n: int, t: Tuple, args: seq<Value>, k: nat)
    requires (op.Lt? || op.Eq?) && (col == "timestamp" || col == "id") && IsInt64(n)
    ensures var x := if col == "id" then t.row.id else t.row.timestamp;
            Holds(db, Binary(op, Ident(col), NumberLit(Itoa(n))), t, args, k) <==> (if op.Lt? then x < n else x == n)
  {
    NumberEvals(db, col, n, t, args, k);
    var e := Binary(op, Ident(col), NumberLit(Itoa(n)));
    assert Binds(e.x) == 0;
    assert Eval(db, e, t, args, k) == Compare(op, Eval(db, e.x, t, args, k), Eval(db, e.y, t, args, k));
  }

  lemma PageHolds(db: Db, ts: int, id: int, t: Tuple, args: seq<Value>, k: nat)
    requires IsInt64(ts) && IsInt64(id)
    ensures Holds(db, PageCond(ts, id), t, args, k) <==> Older(t.row, ts, id)
  {
    var lt := Binary(Lt, Ident("timestamp"), NumberLit(Itoa(ts)));
    var eq := Binary(Eq, Ident("timestamp"), NumberLit(Itoa(ts)));
    var before := Binary(Lt, Ident("id"), NumberLit(Itoa(id)));
    ComparisonHolds(db, Lt, "timestamp", ts, t, args, k);
    ComparisonHolds(db, Eq, "timestamp", ts, t, args, k);
    ComparisonHolds(db, Lt, "id", id, t, args, k);
    HoldsAnd(db, eq, before, t, args, k);
    HoldsAnd(db, lt, Paren(Binary(And, eq, before)), t, args, k);
  }

  /** A condition added to WHERE is met together with all that stood there; an OR cannot escape it. */
  lemma ConjoinHolds(db: Db, where: Option<Expr>, cond: Expr, t: Tuple, args: seq<Value>)
    ensures Holds(db, Conjoin(where, cond).value, t, args, 0)
            <==> Kept(db, where, t, args)
                 && Holds(db, cond, t, args, if where.Some? then Binds(where.value) else 0)
  {
    if where.Some? {
      HoldsAnd(db, Wrap(where.value), cond, t, args, 0);
    }
  }

  function SearchedWhere(where: Option<Expr>, op: string): Expr {
    var isOr := Lower(op) == "or";
    var match_ := if isOr then InFts else FtsMatch;
    if where.None? then match_ else Binary(if isOr then Or else And, match_, Wrap(where.value))
  }

  /** The FROM row that carries the index row of its own log. */
  predicate Indexed(db: Db, t: Tuple, search: Search) {
    search.Search? && Lower(search.op) != "or" ==> t.fts == Some(FtsRow(t.row.id, t.row.raw))
  }

  lemma InIndexMeansMatch(db: Db, i: nat, text: Value)
    requires Synced(db) && i < |db.logs|
    ensures InIndex(db, db.logs[i].id, text) <==> db.matches(text, db.logs[i].raw)
  {
    var f := FtsRow(db.logs[i].id, db.logs[i].raw);
    var k :| 0 <= k < |db.fts| && db.fts[k] == f;
    if InIndex(db, db.logs[i].id, text) {
      var j :| 0 <= j < |db.fts| && db.fts[j].rowid == db.logs[i].id && db.matches(text, db.fts[j].raw);
      assert j == k;
    }
  }

  lemma UserHolds(db: Db, e: Expr, t: Tuple, args: seq<Value>, k: nat)
    requires Binds(e) == 0
    ensures Holds(db, e, t, args, k) <==> UserKeeps(db, Some(e), t.row)
    ensures Holds(db, Wrap(e), t, args, k) <==> UserKeeps(db, Some(e), t.row)
  {
    EvalNoBinds(db, e, t, args, k);
  }

  /** The search condition takes the first argument and means what was asked. */
  lemma SearchHolds(db: Db, where: Option<Expr>, search: Search, t: Tuple, args: seq<Value>)
    requires search.Search? && |args| > 0 && args[0] == search.text
    requires where.Some? ==> Binds(where.value) == 0
    requires Indexed(db, t, search) && (InIndex(db, t.row.id, search.text) <==> db.matches(search.text, t.row.raw))
    ensures Holds(db, SearchedWhere(where, search.op), t, args, 0) <==> Asked(db, where, search, t.row)
    ensures Binds(SearchedWhere(where, search.op)) == 1
  {
    var m := if Lower(search.op) == "or" then InFts else FtsMatch;
    assert Holds(db, m, t, args, 0) <==> db.matches(search.text, t.row.raw);
    if where.Some? {
      UserHolds(db, where.value, t, args, 1);
      assert Binds(Wrap(where.value)) == 0;
      HoldsAnd(db, m, Wrap(where.value), t, args, 0);
    }
  }

  function SearchedFrom(search: Search): Source {
    if search.Search? && Lower(search.op) != "or" then JoinFts(Logs) else Logs
  }

  lemma ComposedStatement(v: Vetted, search: Search, cursor: Cursor)
    requires v.stmt.source == Some(Logs) && Composed(v, search, cursor).Ok?
    ensures var s := Composed(v, search, cursor).value.stmt;
            var base := if search.Search? then Some(SearchedWhere(v.stmt.where, search.op)) else v.stmt.where;
            && s.source == Some(SearchedFrom(search))
            && s.where == (match cursor
                           case NoCursor => base
                           case TimeWindow(a, b) => Conjoin(base, WindowCond(a, b))
                           case PageBefore(ts, id, _) => Conjoin(base, PageCond(ts, id))
                           case StreamAfter(_, _) => Conjoin(base, StreamCond()))
  {
  }

  /** One FROM row is kept exactly when its log is selected. */
  lemma KeptMeansSelected(db: Db, v: Vetted, search: Search, cursor: Cursor, t: Tuple)
    requires v.stmt.source == Some(Logs) && Composed(v, search, cursor).Ok? && InRange(cursor)
    requires v.stmt.where.Some? ==> Binds(v.stmt.where.value) == 0
    requires Indexed(db, t, search)
    requires search.Search? ==> (InIndex(db, t.row.id, search.text) <==> db.matches(search.text, t.row.raw))
    ensures Kept(db, Composed(v, search, cursor).value.stmt.where, t, Args(search, cursor))
            <==> Selected(db, v.stmt.where, search, cursor, t.row)
  {
    var args, where := Args(search, cursor), v.stmt.where;
    var base := if search.Search? then Some(SearchedWhere(where, search.op)) else where;
    ComposedStatement(v, search, cursor);
    var k := if base.Some? then Binds(base.value) else 0;
    assert Kept(db, base, t, args) <==> Asked(db, where, search, t.row) by {
      if search.Search? { SearchHolds(db, where, search, t, args); }
      else if where.Some? { UserHolds(db, where.value, t, args, 0); }
    }
    assert k == (if search.Search? then 1 else 0) by {
      if search.Search? { SearchHolds(db, where, search, t, args); }
    }
    match cursor
    case NoCursor =>
    case TimeWindow(a, b) =>
      ConjoinHolds(db, base, WindowCond(a, b), t, args);
      WindowHolds(db, a, b, t, args, k);
    case PageBefore(ts, id, _) =>
      ConjoinHolds(db, base, PageCond(ts, id), t, args);
      PageHolds(db, ts, id, t, args, k);
    case StreamAfter(_, _) =>
      ConjoinHolds(db, base, StreamCond(), t, args);
      StreamHolds(db, t, args, k);
  }

  lemma {:induction false} JoinRowUnique(fts: seq<FtsRow>, t: Tuple, f: FtsRow)
    requires forall i, j :: 0 <= i < j < |fts| ==> fts[i].rowid != fts[j].rowid
    requires f.rowid == t.row.id
    ensures f in fts ==> JoinRow(fts, t) == [t.(fts := Some(f))]
    ensures (forall i :: 0 <= i < |fts| ==> fts[i].rowid != f.rowid) ==> JoinRow(fts, t) == []
  {
    if fts != [] {
      JoinRowUnique(fts[1..], t, f);
      if fts[0] == f {
        assert forall i :: 0 <= i < |fts[1..]| ==> fts[1..][i].rowid != f.rowid;
      } else if f in fts {
        assert f in fts[1..];
        var j :| 0 <= j < |fts| && fts[j] == f;
        assert fts[0].rowid != f.rowid;
      }
    }
  }

  lemma {:induction false} JoinRowsEach(fts: seq<FtsRow>, ts: seq<Tuple>)
    requires forall i, j :: 0 <= i < j < |fts| ==> fts[i].rowid != fts[j].rowid
    requires forall i :: 0 <= i < |ts| ==> FtsRow(ts[i].row.id, ts[i].row.raw) in fts
    ensures |JoinRows(fts, ts)| == |ts|
    ensures forall i :: 0 <= i < |ts| ==>
              JoinRows(fts, ts)[i] == ts[i].(fts := Some(FtsRow(ts[i].row.id, ts[i].row.raw)))
  {
    if ts != [] {
      JoinRowUnique(fts, ts[0], FtsRow(ts[0].row.id, ts[0].row.raw));
      JoinRowsEach(fts, ts[1..]);
    }
  }

  /** Joining the index neither loses nor repeats a log. */
  lemma FromRows(db: Db, search: Search)
    requires Synced(db)
    ensures var ts := Tuples(db, SearchedFrom(search));
            |ts| == |db.logs|
            && forall i :: 0 <= i < |ts| ==> ts[i].row == db.logs[i] && Indexed(db, ts[i], search)
  {
    if SearchedFrom(search).JoinFts? {
      JoinRowsEach(db.fts, Tuples(db, Logs));
    }
  }

  lemma {:induction false} KeptRowsAre(db: Db, where: Option<Expr>, args: seq<Value>, ts: seq<Tuple>,
                                       rows: seq<LogRow>, user: Option<Expr>, search: Search, cursor: Cursor)
    requires |ts| == |rows|
    requires forall i :: 0 <= i < |ts| ==>
               ts[i].row == rows[i] && (Kept(db, where, ts[i], args) <==> Selected(db, user, search, cursor, rows[i]))
    ensures KeptRows(db, where, ts, args) == SelectedRows(db, rows, user, search, cursor)
  {
    if ts != [] {
      KeptRowsAre(db, where, args, ts[1..], rows[1..], user, search, cursor);
    }
  }

  /**
    Search, then window or cursor, selects exactly the logs r with
    (match(r) op where(r)) and cursor(r), each once and in table order, when the
    arguments are given as the pages give them: search text first, then the cursor.
   */
  lemma ComposedMeaning(db: Db, v: Vetted, search: Search, cursor: Cursor)
    requires Synced(db) && v.stmt.source == Some(Logs) && InRange(cursor)
    requires v.stmt.where.Some? ==> Binds(v.stmt.where.value) == 0
    requires Composed(v, search, cursor).Ok?
    ensures Candidates(db, Composed(v, search, cursor).value.stmt, Args(search, cursor))
            == SelectedRows(db, db.logs, v.stmt.where, search, cursor)
  {
    var s := Composed(v, search, cursor).value.stmt;
    var ts := Tuples(db, SearchedFrom(search));
    FromRows(db, search);
    ComposedStatement(v, search, cursor);
    forall i | 0 <= i < |ts|
      ensures ts[i].row == db.logs[i]
      ensures Kept(db, s.where, ts[i], Args(search, cursor)) <==> Selected(db, v.stmt.where, search, cursor, db.logs[i])
    {
      if search.Search? { InIndexMeansMatch(db, i, search.text); }
      KeptMeansSelected(db, v, search, cursor, ts[i]);
    }
    KeptRowsAre(db, s.where, Args(search, cursor), ts, db.logs, v.stmt.where, search, cursor);
  }

  /** The AND form as the OR form would write it: membership of the id, and no join. */
  function AndByMembership(s: Select): Select {
    s.(where := Some(if s.where.None? then InFts else Binary(And, InFts, Wrap(s.where.value))))
  }

  /** The join form of AND selects the same logs as the membership form, without duplicates. */
  lemma JoinEqualsMembership(db: Db, v: Vetted, op: string, text: Value)
    requires Synced(db) && v.stmt.source == Some(Logs) && Lower(op) != "or"
    requires v.stmt.where.Some? ==> Binds(v.stmt.where.value) == 0
    requires CombineFts(v, op).Ok?
    ensures Candidates(db, CombineFts(v, op).value.stmt, [text]) == Candidates(db, AndByMembership(v.stmt), [text])
  {
    var search, where := Search(op, text), v.stmt.where;
    ComposedMeaning(db, v, search, NoCursor);
    assert Args(search, NoCursor) == [text];
    var ts, w := Tuples(db, Logs), AndByMembership(v.stmt).where;
    forall i | 0 <= i < |ts|
      ensures Kept(db, w, ts[i], [text]) <==> Selected(db, where, search, NoCursor, db.logs[i])
    {
      InIndexMeansMatch(db, i, text);
      if where.Some? {
        UserHolds(db, where.value, ts[i], [text], 1);
        HoldsAnd(db, InFts, Wrap(where.value), ts[i], [text], 0);
      }
    }
    KeptRowsAre(db, w, [text], ts, db.logs, where, search, NoCursor);
  }

  // Counting the selected rows.

  lemma CountNext<T>(x: T, keep: bool, rest: seq<T>, kept: seq<T>, r: T, wanted: bool)
    requires multiset(kept)[r] == (if wanted then multiset(rest)[r] else 0) && (x == r ==> keep == wanted)
    ensures multiset((if keep then [x] else []) + kept)[r] == if wanted then multiset([x] + rest)[r] else 0
  {
  }

  /** How often a row is selected: as often as it stands in the table, if it qualifies. */
  lemma {:induction false} SelectedCount(db: Db, rows: seq<LogRow>, where: Option<Expr>, search: Search, cursor: Cursor,
                                         r: LogRow)
    ensures multiset(SelectedRows(db, rows, where, search, cursor))[r]
            == (if Selected(db, where, search, cursor, r) then multiset(rows)[r] else 0)
  {
    if rows != [] {
      assert rows == [rows[0]] + rows[1..];
      SelectedCount(db, rows[1..], where, search, cursor, r);
      CountNext(rows[0], Selected(db, where, search, cursor, rows[0]), rows[1..],
                SelectedRows(db, rows[1..], where, search, cursor), r, Selected(db, where, search, cursor, r));
      assert rows == [rows[0]] + rows[1..];
    }
  }

  lemma SelectedInTable(db: Db, where: Option<Expr>, search: Search, cursor: Cursor, r: LogRow)
    ensures r in SelectedRows(db, db.logs, where, search, cursor)
            <==> r in db.logs && Selected(db, where, search, cursor, r)
  {
    SelectedCount(db, db.logs, where, search, cursor, r);
    assert r in multiset(SelectedRows(db, db.logs, where, search, cursor))
           <==> r in SelectedRows(db, db.logs, where, search, cursor);
    assert r in multiset(db.logs) <==> r in db.logs;
  }

  lemma TwiceCounts<T>(s: seq<T>, i: nat, j: nat)
    requires i < j < |s| && s[i] == s[j]
    ensures multiset(s)[s[i]] >= 2
  {
    assert s == s[..i] + [s[i]] + s[i + 1..j] + [s[j]] + s[j + 1..];
  }

  lemma {:induction false} OnceInTable(rows: seq<LogRow>, r: LogRow)
    requires forall i, j :: 0 <= i < j < |rows| ==> rows[i].id != rows[j].id
    ensures multiset(rows)[r] <= 1
  {
    if rows != [] {
      OnceInTable(rows[1..], r);
      assert rows == [rows[0]] + rows[1..];
      if rows[0] == r { assert forall k :: 0 <= k < |rows[1..]| ==> rows[1..][k].id != r.id; }
    }
  }

  /** No id comes up twice among the selected rows, in whatever order they are listed. */
  lemma SortedOnce(db: Db, where: Option<Expr>, search: Search, cursor: Cursor, sorted: seq<LogRow>, i: nat, j: nat)
    requires Synced(db) && multiset(sorted) == multiset(SelectedRows(db, db.logs, where, search, cursor))
    requires i < j < |sorted|
    ensures sorted[i].id != sorted[j].id
  {
    if sorted[i].id == sorted[j].id {
      assert sorted[i] in multiset(sorted) && sorted[j] in multiset(sorted);
      SelectedInTable(db, where, search, cursor, sorted[i]);
      SelectedInTable(db, where, search, cursor, sorted[j]);
      assert sorted[i] == sorted[j];
      TwiceCounts(sorted, i, j);
      SelectedCount(db, db.logs, where, search, cursor, sorted[i]);
      OnceInTable(db.logs, sorted[i]);
    }
  }
}
