/**
  The part of SQL the rewriter works on: an expression tree with its
  three-valued meaning on a row, a SELECT statement, and the rows a log-viewer
  statement selects.
 */
module Sql {
  import opened Common
  import opened Text

  datatype LogRow = LogRow(
    id: int, timestamp: int, ingestedAt: int, level: int, service: string, host: string,
    message: Option<string>, parsed: Option<string>, raw: string)

  /** One row of the full-text index over `raw`. */
  datatype FtsRow = FtsRow(rowid: int, raw: string)

  datatype Value = Null | Int(n: int) | Str(s: string)

  datatype Op = And | Or | Eq | Ne | Lt | Le | Gt | Ge

  datatype Expr =
    | Ident(name: string)
    | QualifiedRef(table: string, column: string)
    | StringLit(text: string)
    | NumberLit(digits: string)
    | Bind
    | Paren(x: Expr)
    | Not(x: Expr)
    | Binary(op: Op, x: Expr, y: Expr)
    | Between(x: Expr, lo: Expr, hi: Expr)
    | FtsMatch                  // logs_fts.raw MATCH ?
    | InFts                     // logs.id IN (SELECT "rowid" FROM logs_fts WHERE logs_fts.raw MATCH ?)
    | Call(fn: string, args: seq<Expr>, over: bool, sql: string)  // sql: the call as written
    | Other(sql: string)        // any other SQL over the row, without binds

  /** The number SQLite makes of a limit or offset that is not a plain literal, if it makes one. */
  type LimitOf = Expr -> Option<int>

  /** The database, with the meaning of what the model does not look into. */
  datatype Db = Db(
    logs: seq<LogRow>,
    fts: seq<FtsRow>,
    matches: (Value, string) -> bool,       // does this search text match this raw line
    other: (string, LogRow) -> Value,     // uninterpreted SQL
    numeric: string -> bool,                // does this text count as true
    limitOf: LimitOf)

  /** A row of the FROM clause: a log, and the index row joined to it. */
  datatype Tuple = Tuple(row: LogRow, fts: Option<FtsRow>)

  function ColumnValue(db: Db, row: LogRow, name: string): Value {
    match Lower(name)
    case "id" => Int(row.id)
    case "timestamp" => Int(row.timestamp)
    case "ingested_at" => Int(row.ingestedAt)
    case "level" => Int(row.level)
    case "service" => Str(row.service)
    case "host" => Str(row.host)
    case "message" => if row.message.Some? then Str(row.message.value) else Null
    case "parsed" => if row.parsed.Some? then Str(row.parsed.value) else Null
    case "raw" => Str(row.raw)
    case _ => db.other(name, row)
  }

  datatype Tri = True | False | Unknown

  function Truth(db: Db, v: Value): Tri {
    match v
    case Null => Unknown
    case Int(n) => if n != 0 then True else False
    case Str(s) => if db.numeric(s) then True else False
  }

  function AndTri(a: Tri, b: Tri): Tri {
    if a.False? || b.False? then False else if a.Unknown? || b.Unknown? then Unknown else True
  }

  function OrTri(a: Tri, b: Tri): Tri {
    if a.True? || b.True? then True else if a.Unknown? || b.Unknown? then Unknown else False
  }

  function NotTri(a: Tri): Tri {
    match a case True => False case False => True case Unknown => Unknown
  }

  function FromTri(t: Tri): Value {
    match t case True => Int(1) case False => Int(0) case Unknown => Null
  }

  function FromBool(b: bool): Value { Int(if b then 1 else 0) }

  predicate TextLess(s: string, t: string) {
    if t == [] then false
    else if s == [] then true
    else s[0] < t[0] || (s[0] == t[0] && TextLess(s[1..], t[1..]))
  }

  /** SQLite's order on values: numbers before text. */
  predicate Less(a: Value, b: Value) {
    match (a, b)
    case (Int(m), Int(n)) => m < n
    case (Int(_), Str(_)) => true
    case (Str(s), Str(t)) => TextLess(s, t)
    case _ => false
  }

  function Compare(op: Op, a: Value, b: Value): Value {
    if a.Null? || b.Null? then Null
    else match op
      case Eq => FromBool(a == b)
      case Ne => FromBool(a != b)
      case Lt => FromBool(Less(a, b))
      case Le => FromBool(!Less(b, a))
      case Gt => FromBool(Less(b, a))
      case Ge => FromBool(!Less(a, b))
      case _ => Null
  }

  /** SQL's comparisons fit together: with NULL they are unknown, and otherwise exactly one of <, = and > is true. */
  lemma ComparisonLaws(a: Value, b: Value)
    ensures a.Null? || b.Null? ==> forall op :: Compare(op, a, b) == Null
    ensures !a.Null? && !b.Null? ==>
              var lt, eq, gt := Compare(Lt, a, b) == Int(1), Compare(Eq, a, b) == Int(1), Compare(Gt, a, b) == Int(1);
              && (eq <==> a == b) && (lt || eq || gt) && !(lt && eq) && !(eq && gt) && !(lt && gt)
              && Compare(Le, a, b) == Int(if lt || eq then 1 else 0)
              && Compare(Ge, a, b) == Int(if gt || eq then 1 else 0)
              && Compare(Ne, a, b) == Int(if eq then 0 else 1)
    ensures forall m, n :: Compare(Lt, Int(m), Int(n)) == Int(if m < n then 1 else 0)
    ensures a.Int? && b.Str? ==> Compare(Lt, a, b) == Int(1)
  {
    if a.Str? && b.Str? { TextTrichotomy(a.s, b.s); }
  }

  lemma {:induction false} TextTrichotomy(s: string, t: string)
    ensures TextLess(s, t) || s == t || TextLess(t, s)
    ensures !(TextLess(s, t) && TextLess(t, s)) && !TextLess(s, s)
  {
    if s != [] {
      TextTrichotomy(s[1..], s[1..]);
      if t != [] {
        TextTrichotomy(s[1..], t[1..]);
        assert s == [s[0]] + s[1..] && t == [t[0]] + t[1..];
      }
    }
  }

  /** AND, OR and NOT of SQL: De Morgan, and NULL only where the other side does not decide. */
  lemma LogicLaws(a: Tri, b: Tri)
    ensures NotTri(AndTri(a, b)) == OrTri(NotTri(a), NotTri(b)) && NotTri(NotTri(a)) == a
    ensures AndTri(a, b) == AndTri(b, a) && AndTri(True, a) == a && AndTri(False, a) == False
    ensures AndTri(Unknown, Unknown) == Unknown && NotTri(True) == False && NotTri(Unknown) == Unknown
  {
  }

  /** The number of `?` in an expression. */
  function Binds(e: Expr): nat {
    match e
    case Bind | FtsMatch | InFts => 1
    case Paren(x) => Binds(x)
    case Not(x) => Binds(x)
    case Binary(_, x, y) => Binds(x) + Binds(y)
    case Between(x, lo, hi) => Binds(x) + Binds(lo) + Binds(hi)
    case Call(_, args, _, _) => ArgBinds(args)
    case _ => 0
  }

  function ArgBinds(es: seq<Expr>): nat {
    if es == [] then 0 else Binds(es[0]) + ArgBinds(es[1..])
  }

  function Arg(args: seq<Value>, k: nat): Value {
    if k < |args| then args[k] else Null
  }

  predicate InIndex(db: Db, id: int, search: Value) {
    exists i :: 0 <= i < |db.fts| && db.fts[i].rowid == id && db.matches(search, db.fts[i].raw)
  }

  /**
    The value of an expression on a FROM row. The `?` are numbered from left to
    right: the first one in `e` takes args[k].
   */
  function Eval(db: Db, e: Expr, t: Tuple, args: seq<Value>, k: nat): Value {
    match e
    case Ident(name) => ColumnValue(db, t.row, name)
    case QualifiedRef(_, column) => ColumnValue(db, t.row, column)
    case StringLit(s) => Str(s)
    case NumberLit(s) => if Atoi(s).Some? then Int(Atoi(s).value) else db.other(s, t.row)
    case Bind => Arg(args, k)
    case Paren(x) => Eval(db, x, t, args, k)
    case Not(x) => FromTri(NotTri(Truth(db, Eval(db, x, t, args, k))))
    case Binary(op, x, y) =>
      var a, b := Eval(db, x, t, args, k), Eval(db, y, t, args, k + Binds(x));
      if op.And? then FromTri(AndTri(Truth(db, a), Truth(db, b)))
      else if op.Or? then FromTri(OrTri(Truth(db, a), Truth(db, b)))
      else Compare(op, a, b)
    case Between(x, lo, hi) =>
      var v := Eval(db, x, t, args, k);
      var a, b := Eval(db, lo, t, args, k + Binds(x)), Eval(db, hi, t, args, k + Binds(x) + Binds(lo));
      FromTri(AndTri(Truth(db, Compare(Ge, v, a)), Truth(db, Compare(Le, v, b))))
    case FtsMatch => if t.fts.Some? then FromBool(db.matches(Arg(args, k), t.fts.value.raw)) else Null
    case InFts => FromBool(InIndex(db, t.row.id, Arg(args, k)))
    case Call(_, _, _, sql) => db.other(sql, t.row)
    case Other(sql) => db.other(sql, t.row)
  }

  /** WHERE keeps a row only when its condition is true, not when it is unknown. */
  predicate Holds(db: Db, e: Expr, t: Tuple, args: seq<Value>, k: nat) {
    Truth(db, Eval(db, e, t, args, k)).True?
  }

  lemma HoldsAnd(db: Db, x: Expr, y: Expr, t: Tuple, args: seq<Value>, k: nat)
    ensures Holds(db, Binary(And, x, y), t, args, k)
            <==> Holds(db, x, t, args, k) && Holds(db, y, t, args, k + Binds(x))
    ensures Holds(db, Binary(Or, x, y), t, args, k)
            <==> Holds(db, x, t, args, k) || Holds(db, y, t, args, k + Binds(x))
  {
  }

  lemma LeafNoBinds(db: Db, e: Expr, t: Tuple, args: seq<Value>, k: nat)
    requires Binds(e) == 0 && !e.Paren? && !e.Not? && !e.Binary? && !e.Between?
    ensures Eval(db, e, t, args, k) == Eval(db, e, Tuple(t.row, None), [], 0)
  {
  }

  lemma BetweenNoBinds(db: Db, e: Expr, t: Tuple, args: seq<Value>, k: nat)
    requires e.Between? && Binds(e) == 0
    requires Eval(db, e.x, t, args, k) == Eval(db, e.x, Tuple(t.row, None), [], 0)
    requires Eval(db, e.lo, t, args, k) == Eval(db, e.lo, Tuple(t.row, None), [], 0)
    requires Eval(db, e.hi, t, args, k) == Eval(db, e.hi, Tuple(t.row, None), [], 0)
    ensures Eval(db, e, t, args, k) == Eval(db, e, Tuple(t.row, None), [], 0)
  {
    assert Binds(e.x) == 0 && Binds(e.lo) == 0;
  }

  /** Without binds only the log row matters: not the arguments, not the joined index row. */
  lemma {:induction false} EvalNoBinds(db: Db, e: Expr, t: Tuple, args: seq<Value>, k: nat)
    requires Binds(e) == 0
    ensures Eval(db, e, t, args, k) == Eval(db, e, Tuple(t.row, None), [], 0)
  {
    match e
    case Paren(x) => EvalNoBinds(db, x, t, args, k);
    case Not(x) => EvalNoBinds(db, x, t, args, k);
    case Binary(_, x, y) =>
      EvalNoBinds(db, x, t, args, k);
      EvalNoBinds(db, y, t, args, k);
    case Between(x, lo, hi) =>
      EvalNoBinds(db, x, t, args, k);
      EvalNoBinds(db, lo, t, args, k);
      EvalNoBinds(db, hi, t, args, k);
      BetweenNoBinds(db, e, t, args, k);
    case _ => LeafNoBinds(db, e, t, args, k);
  }

  /** FROM: the logs table, alone or joined with its full-text index on the row id. */
  datatype Source = Logs | JoinFts(left: Source)

  datatype ResultColumn = Star | TableStar(table: string) | Column(e: Expr)

  datatype OrderTerm = OrderTerm(e: Expr, desc: bool)

  datatype Select = Select(
    columns: seq<ResultColumn>, source: Option<Source>, where: Option<Expr>,
    groupBy: seq<Expr>, having: Option<Expr>, distinct: bool, windows: nat,
    order: seq<OrderTerm>, limit: Option<Expr>, offset: Option<Expr>,
    compound: Option<Select>)

  function JoinRow(fts: seq<FtsRow>, t: Tuple): seq<Tuple> {
    if fts == [] then []
    else (if fts[0].rowid == t.row.id then [t.(fts := Some(fts[0]))] else []) + JoinRow(fts[1..], t)
  }

  function JoinRows(fts: seq<FtsRow>, ts: seq<Tuple>): seq<Tuple> {
    if ts == [] then [] else JoinRow(fts, ts[0]) + JoinRows(fts, ts[1..])
  }

  function Tuples(db: Db, source: Source): seq<Tuple> {
    match source
    case Logs => seq(|db.logs|, i requires 0 <= i < |db.logs| => Tuple(db.logs[i], None))
    case JoinFts(left) => JoinRows(db.fts, Tuples(db, left))
  }

  predicate Kept(db: Db, where: Option<Expr>, t: Tuple, args: seq<Value>) {
    where.Some? ==> Holds(db, where.value, t, args, 0)
  }

  function KeptRows(db: Db, where: Option<Expr>, ts: seq<Tuple>, args: seq<Value>): seq<LogRow> {
    if ts == [] then []
    else (if Kept(db, where, ts[0], args) then [ts[0].row] else []) + KeptRows(db, where, ts[1..], args)
  }

  /** The logs that FROM and WHERE select, before ORDER BY and LIMIT. */
  function Candidates(db: Db, s: Select, args: seq<Value>): seq<LogRow> {
    if s.source.None? then [] else KeptRows(db, s.where, Tuples(db, s.source.value), args)
  }

  /** `a` comes strictly before `b` under the ordering terms. */
  predicate Before(db: Db, order: seq<OrderTerm>, a: LogRow, b: LogRow) {
    if order == [] then false
    else
      var va, vb := Eval(db, order[0].e, Tuple(a, None), [], 0), Eval(db, order[0].e, Tuple(b, None), [], 0);
      if order[0].desc then Less(vb, va) || (!Less(va, vb) && Before(db, order[1..], a, b))
      else Less(va, vb) || (!Less(vb, va) && Before(db, order[1..], a, b))
  }

  /** A literal that strconv.Atoi reads. */
  predicate Readable(e: Expr) { e.NumberLit? && Atoi(e.digits).Some? }

  /** LIMIT and OFFSET: a negative or absent one is none. */
  function Bound(limitOf: LimitOf, e: Option<Expr>): Option<nat> {
    if e.None? then None
    else
      var n := if Readable(e.value) then Atoi(e.value.digits) else limitOf(e.value);
      if n.Some? && n.value >= 0 then Some(n.value) else None
  }

  function Slice<T>(rows: seq<T>, limit: Option<nat>, offset: Option<nat>): seq<T> {
    var skip := if offset.Some? then offset.value else 0;
    var rest := if skip <= |rows| then rows[skip..] else [];
    if limit.Some? && limit.value < |rest| then rest[..limit.value] else rest
  }

  /** `sorted` is the candidates in some order the ORDER BY allows. */
  ghost predicate SortedCandidates(db: Db, s: Select, args: seq<Value>, sorted: seq<LogRow>) {
    && multiset(sorted) == multiset(Candidates(db, s, args))
    && forall i, j :: 0 <= i < j < |sorted| ==> !Before(db, s.order, sorted[j], sorted[i])
  }

  /** `rows` is an answer SQLite may give to the statement. */
  ghost predicate IsAnswer(db: Db, s: Select, args: seq<Value>, rows: seq<LogRow>) {
    exists sorted :: SortedCandidates(db, s, args, sorted) && rows == Slice(sorted, Bound(db.limitOf, s.limit), Bound(db.limitOf, s.offset))
  }

  lemma SliceIsPrefix<T>(sorted: seq<T>, limit: Option<nat>)
    ensures var answer := Slice(sorted, limit, None);
            answer <= sorted && (sorted != [] && limit != Some(0) ==> answer != [])
  {
    assert sorted[0..] == sorted;
  }

  /** Without OFFSET an answer is the front of the sorted candidates. */
  lemma AnswerIsPrefix(db: Db, s: Select, args: seq<Value>, answer: seq<LogRow>) returns (sorted: seq<LogRow>)
    requires IsAnswer(db, s, args, answer) && Bound(db.limitOf, s.offset) == None
    ensures SortedCandidates(db, s, args, sorted)
    ensures answer <= sorted && (sorted != [] && Bound(db.limitOf, s.limit) != Some(0) ==> answer != [])
  {
    sorted :| SortedCandidates(db, s, args, sorted) && answer == Slice(sorted, Bound(db.limitOf, s.limit), Bound(db.limitOf, s.offset));
    SliceIsPrefix(sorted, Bound(db.limitOf, s.limit));
  }

  /** The triggers keep the index in step: one index row per log, with its id and raw line. */
  ghost predicate Synced(db: Db) {
    && (forall i, j :: 0 <= i < j < |db.logs| ==> db.logs[i].id != db.logs[j].id)
    && (forall i, j :: 0 <= i < j < |db.fts| ==> db.fts[i].rowid != db.fts[j].rowid)
    && (forall i :: 0 <= i < |db.logs| ==> FtsRow(db.logs[i].id, db.logs[i].raw) in db.fts)
  }
}
