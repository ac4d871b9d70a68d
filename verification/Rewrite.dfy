/**
  The query rewriter: shape detection, the LIMIT clamp, and the rewrites that
  merge quick filters, full-text search, windows and cursors into a vetted SELECT.
 */
module Rewrite {
  import opened Common
  import opened Text
  import opened Sql

  datatype Shape = LogViewer | Aggregation

  datatype Error = UnsupportedShape | BadLevel | BadColumn | BadPageSize

  datatype Result<+T> = Ok(value: T) | Err(error: Error)

  /** A parsed and vetted SELECT, as a value. */
  datatype Vetted = Vetted(stmt: Select, shape: Shape, compound: bool)

  const AGGREGATES := {"count", "sum", "avg", "min", "max", "total", "group_concat", "string_agg"}

  predicate HasAggregate(e: Expr) {
    match e
    case Call(fn, args, over, _) => Lower(fn) in AGGREGATES || over || AnyAggregate(args)
    case Paren(x) => HasAggregate(x)
    case Not(x) => HasAggregate(x)
    case Binary(_, x, y) => HasAggregate(x) || HasAggregate(y)
    case Between(x, lo, hi) => HasAggregate(x) || HasAggregate(lo) || HasAggregate(hi)
    case _ => false
  }

  predicate AnyAggregate(es: seq<Expr>) {
    es != [] && (HasAggregate(es[0]) || AnyAggregate(es[1..]))
  }

  function DetectShape(s: Select): Shape {
    if |s.groupBy| > 0 || s.having.Some? || s.distinct || s.windows > 0 then Aggregation
    else if exists i :: 0 <= i < |s.columns| && s.columns[i].Column? && HasAggregate(s.columns[i].e) then Aggregation
    else if s.compound.Some? && DetectShape(s.compound.value).Aggregation? then Aggregation
    else LogViewer
  }

  /** Injects LIMIT MAX_ROWS when absent and clamps larger literals; other limits pass through. */
  function ClampLimit(s: Select): Select {
    if s.limit.None? then s.(limit := Some(NumberLit(Itoa(MAX_ROWS))))
    else if s.limit.value.NumberLit? then
      var n := Atoi(s.limit.value.digits);
      if n.Some? && n.value > MAX_ROWS then s.(limit := Some(NumberLit(Itoa(MAX_ROWS)))) else s
    else s
  }

  /** SQLite will stop at MAX_ROWS rows or earlier. */
  predicate RowCapped(limitOf: LimitOf, s: Select) {
    Bound(limitOf, s.limit).Some? && Bound(limitOf, s.limit).value <= MAX_ROWS
  }

  /** The flags validation sets are true of the statement. */
  predicate WellVetted(v: Vetted) {
    v.shape == DetectShape(v.stmt) && v.compound == v.stmt.compound.Some?
  }

  /** The last step of validation, on a parsed SELECT that passed the visitors. */
  function Vet(s: Select): Vetted {
    Vetted(ClampLimit(s), DetectShape(s), s.compound.Some?)
  }

  function Wrap(e: Expr): Expr {
    if e.Paren? then e else Paren(e)
  }

  /** ANDs a condition onto WHERE. */
  function Conjoin(where: Option<Expr>, cond: Expr): Option<Expr> {
    Some(if where.None? then cond else Binary(And, Wrap(where.value), cond))
  }

  // Quick filters.

  function EqColName(e: Expr): string {
    match e
    case Ident(name) => Lower(name)
    case QualifiedRef(_, column) => Lower(column)
    case _ => ""
  }

  /** `col = literal` */
  predicate IsEqOn(e: Expr, col: string) {
    e.Binary? && e.op.Eq? && EqColName(e.x) == col && (e.y.StringLit? || e.y.NumberLit?)
  }

  /** Looks for `col = literal` along AND-chains and parentheses only. */
  predicate FindsEq(e: Expr, col: string) {
    match e
    case Paren(x) => FindsEq(x, col)
    case Binary(And, x, y) => FindsEq(x, col) || FindsEq(y, col)
    case _ => IsEqOn(e, col)
  }

  /** Replaces the literal of the equality that FindsEq reports first. */
  function Retarget(e: Expr, col: string, lit: Expr): Expr
    requires FindsEq(e, col)
  {
    match e
    case Paren(x) => Paren(Retarget(x, col, lit))
    case Binary(And, x, y) =>
      if FindsEq(x, col) then Binary(And, Retarget(x, col, lit), y) else Binary(And, x, Retarget(y, col, lit))
    case Binary(_, x, _) => Binary(Eq, x, lit)
  }

  function FilterLiteral(column: string, value: string): Result<Expr> {
    if column == "service" || column == "host" then Ok(StringLit(value))
    else if column == "level" then (if Atoi(value).None? then Err(BadLevel) else Ok(NumberLit(value)))
    else Err(BadColumn)
  }

  const TIMESTAMP_ASC := [OrderTerm(Ident("timestamp"), false)]
  const ID_ASC := [OrderTerm(Ident("id"), false)]
  const NEWEST_FIRST := [OrderTerm(Ident("timestamp"), true), OrderTerm(Ident("id"), true)]

  /** An aggregation is turned into a query for the logs underneath; OFFSET is left as it was. */
  function DrillIn(s: Select): Select {
    s.(columns := [Star], groupBy := [], having := None, windows := 0, distinct := false,
       order := TIMESTAMP_ASC, limit := Some(NumberLit("50")))
  }

  function FilteredWhere(where: Option<Expr>, column: string, lit: Expr): Option<Expr> {
    if where.Some? && FindsEq(where.value, column) then Some(Retarget(where.value, column, lit))
    else Conjoin(where, Binary(Eq, Ident(column), lit))
  }

  function QuickFilter(v: Vetted, column: string, value: string): Result<Vetted> {
    if v.compound then Err(UnsupportedShape)
    else
      var lit := FilterLiteral(column, value);
      if lit.Err? then Err(lit.error)
      else
        var s := if v.shape.Aggregation? then DrillIn(v.stmt) else v.stmt;
        Ok(v.(stmt := s.(where := FilteredWhere(s.where, column, lit.value)), shape := LogViewer))
  }

  // Full-text search.

  predicate ReferencesFts(source: Source) { source.JoinFts? }

  function CombineFts(v: Vetted, op: string): Result<Vetted> {
    if !v.shape.LogViewer? || v.compound || v.stmt.source.None? then Err(UnsupportedShape)
    else
      var s := v.stmt;
      var isOr := Lower(op) == "or";
      var join := !isOr && !ReferencesFts(s.source.value);
      var match_ := if isOr then InFts else FtsMatch;
      Ok(v.(stmt := s.(
        source := if join then Some(JoinFts(s.source.value)) else s.source,
        columns := if join && s.columns == [Star] then [TableStar("logs")] else s.columns,
        where := Some(if s.where.None? then match_
                      else Binary(if isOr then Or else And, match_, Wrap(s.where.value))))))
  }

  // Window and cursors.

  function WindowCond(fromMs: int, toMs: int): Expr {
    Between(Ident("timestamp"), NumberLit(Itoa(fromMs)), NumberLit(Itoa(toMs)))
  }

  function Window(v: Vetted, fromMs: int, toMs: int): Result<Vetted> {
    if v.compound then Err(UnsupportedShape)
    else Ok(v.(stmt := v.stmt.(where := Conjoin(v.stmt.where, WindowCond(fromMs, toMs)))))
  }

  function StreamCond(): Expr { Binary(Gt, Ident("id"), Bind) }

  function StreamCursor(v: Vetted, limit: int): Result<Vetted> {
    if !v.shape.LogViewer? || v.compound then Err(UnsupportedShape)
    else Ok(v.(stmt := v.stmt.(where := Conjoin(v.stmt.where, StreamCond()),
                               order := ID_ASC, limit := Some(NumberLit(Itoa(limit))), offset := None)))
  }

  function PageCond(beforeTs: int, beforeId: int): Expr {
    var ts := NumberLit(Itoa(beforeTs));
    Paren(Binary(Or, Binary(Lt, Ident("timestamp"), ts),
                 Paren(Binary(And, Binary(Eq, Ident("timestamp"), ts),
                              Binary(Lt, Ident("id"), NumberLit(Itoa(beforeId)))))))
  }

  function Paginate(v: Vetted, beforeTs: int, beforeId: int, pageSize: int): Result<Vetted> {
    if !v.shape.LogViewer? || v.compound then Err(UnsupportedShape)
    else if pageSize <= 0 || pageSize > MAX_ROWS then Err(BadPageSize)
    else Ok(v.(stmt := v.stmt.(where := Conjoin(v.stmt.where, PageCond(beforeTs, beforeId)),
                               order := NEWEST_FIRST, limit := Some(NumberLit(Itoa(pageSize))), offset := None)))
  }

  /** A rewrite either succeeds and leaves the new value, or reports the error and changes nothing. */
  predicate Outcome(before: Vetted, r: Result<Vetted>, after: Vetted, err: Option<Error>) {
    match r
    case Ok(v) => err.None? && after == v
    case Err(e) => err == Some(e) && after == before
  }

  /** The vetted query the rewrites mutate in place. */
  class Validated {
    var stmt: Select
    var shape: Shape
    const compound: bool

    constructor (s: Select)
      ensures Value() == Vet(s) && WellVetted(Value())
      ensures forall limitOf :: RowCapped(limitOf, Value().stmt) <==> CapsWell(limitOf, s.limit)
    {
      stmt := ClampLimit(s);
      shape := DetectShape(s);
      compound := s.compound.Some?;
      new;
      ClampKeepsShape(s);
      forall limitOf ensures RowCapped(limitOf, Value().stmt) <==> CapsWell(limitOf, s.limit) {
        VetCapsIff(limitOf, s);
      }
    }

    function Value(): Vetted
      reads this
    {
      Vetted(stmt, shape, compound)
    }

    method CombineFTS(op: string) returns (err: Option<Error>)
      modifies this
      ensures Outcome(old(Value()), CombineFts(old(Value()), op), Value(), err)
    {
      if shape != LogViewer || compound { return Some(UnsupportedShape); }
      if stmt.source.None? { return Some(UnsupportedShape); }
      var isOr := Lower(op) == "or";
      var match_;
      if isOr {
        match_ := InFts;
      } else {
        if !ReferencesFts(stmt.source.value) {
          stmt := stmt.(source := Some(JoinFts(stmt.source.value)));
          // bare * would now expand the index's columns too
          if stmt.columns == [Star] {
            stmt := stmt.(columns := [TableStar("logs")]);
          }
        }
        match_ := FtsMatch;
      }
      var tok := if isOr then Or else And;
      if stmt.where.None? {
        stmt := stmt.(where := Some(match_));
      } else {
        stmt := stmt.(where := Some(Binary(tok, match_, Wrap(stmt.where.value))));
      }
      return None;
    }

    method ApplyQuickFilter(column: string, value: string) returns (err: Option<Error>)
      modifies this
      ensures Outcome(old(Value()), QuickFilter(old(Value()), column, value), Value(), err)
    {
      if compound { return Some(UnsupportedShape); }
      var lit: Expr;
      if column == "service" || column == "host" {
        lit := StringLit(value);
      } else if column == "level" {
        if Atoi(value).None? { return Some(BadLevel); }
        lit := NumberLit(value);
      } else {
        return Some(BadColumn);
      }
      if shape == Aggregation {
        stmt := stmt.(columns := [Star]);
        stmt := stmt.(groupBy := [], having := None, windows := 0, distinct := false);
        stmt := stmt.(order := TIMESTAMP_ASC, limit := Some(NumberLit("50")));
        shape := LogViewer;
      }
      if stmt.where.Some? && FindsEq(stmt.where.value, column) {
        stmt := stmt.(where := Some(Retarget(stmt.where.value, column, lit)));
        return None;
      }
      var cond := Binary(Eq, Ident(column), lit);
      if stmt.where.None? {
        stmt := stmt.(where := Some(cond));
      } else {
        stmt := stmt.(where := Some(Binary(And, Wrap(stmt.where.value), cond)));
      }
      return None;
    }

    method ApplyWindow(fromMs: int, toMs: int) returns (err: Option<Error>)
      modifies this
      ensures Outcome(old(Value()), Window(old(Value()), fromMs, toMs), Value(), err)
    {
      if compound { return Some(UnsupportedShape); }
      stmt := stmt.(where := Conjoin(stmt.where, WindowCond(fromMs, toMs)));
      return None;
    }

    method ApplyStreamCursor(limit: int) returns (err: Option<Error>)
      modifies this
      ensures Outcome(old(Value()), StreamCursor(old(Value()), limit), Value(), err)
    {
      if shape != LogViewer || compound { return Some(UnsupportedShape); }
      stmt := stmt.(where := Conjoin(stmt.where, StreamCond()));
      stmt := stmt.(order := ID_ASC);
      stmt := stmt.(limit := Some(NumberLit(Itoa(limit))));
      stmt := stmt.(offset := None);
      return None;
    }

    method ApplyPagination(beforeTs: int, beforeId: int, pageSize: int) returns (err: Option<Error>)
      modifies this
      ensures Outcome(old(Value()), Paginate(old(Value()), beforeTs, beforeId, pageSize), Value(), err)
    {
      if shape != LogViewer || compound { return Some(UnsupportedShape); }
      if pageSize <= 0 || pageSize > MAX_ROWS { return Some(BadPageSize); }
      stmt := stmt.(where := Conjoin(stmt.where, PageCond(beforeTs, beforeId)));
      stmt := stmt.(order := NEWEST_FIRST);
      stmt := stmt.(limit := Some(NumberLit(Itoa(pageSize))));
      stmt := stmt.(offset := None);
      return None;
    }
  }

  /** Clamping the limit does not change the shape of a statement. */
  lemma ClampKeepsShape(s: Select)
    ensures WellVetted(Vet(s))
  {
  }

  /** On a long answer the cap is what keeps the rows within MAX_ROWS. */
  lemma CapMeaning<T>(limitOf: LimitOf, s: Select, sorted: seq<T>)
    requires |sorted| > MAX_ROWS
    ensures |Slice(sorted, Bound(limitOf, s.limit), None)| <= MAX_ROWS <==> RowCapped(limitOf, s)
  {
  }

  /** A limit that is absent, a literal that is not negative, or another expression that SQLite finds in range. */
  predicate CapsWell(limitOf: LimitOf, limit: Option<Expr>) {
    if limit.None? then true
    else if Readable(limit.value) then Atoi(limit.value.digits).value >= 0
    else limitOf(limit.value).Some? && 0 <= limitOf(limit.value).value <= MAX_ROWS
  }

  /**
    Exactly these limits leave a row cap after validation. The scan loop's own cap
    covers the others.
   */
  lemma VetCapsIff(limitOf: LimitOf, s: Select)
    ensures RowCapped(limitOf, Vet(s).stmt) <==> CapsWell(limitOf, s.limit)
    ensures CapsWell(limitOf, s.limit) ==>
              var n := Bound(limitOf, s.limit);
              Bound(limitOf, Vet(s).stmt.limit) == Some(if n.Some? && n.value <= MAX_ROWS then n.value else MAX_ROWS)
  {
    AtoiItoa(MAX_ROWS);
  }

  /** Limits that get past validation: a sum above the cap, and a negated number, which is no limit at all. */
  lemma UnreadLimitsPass(limitOf: LimitOf, s: Select)
    requires limitOf(Other("10000 + 1")) == Some(10001) && limitOf(Other("-1")) == Some(-1)
    ensures var v := Vet(s.(limit := Some(Other("10000 + 1"))));
            Bound(limitOf, v.stmt.limit) == Some(10001) && !RowCapped(limitOf, v.stmt)
    ensures var v := Vet(s.(limit := Some(Other("-1"))));
            Bound(limitOf, v.stmt.limit) == None && !RowCapped(limitOf, v.stmt)
  {
  }

  /** Every rewrite of a vetted query keeps its flags true. */
  lemma RewritesKeepWellVetted(v: Vetted, column: string, value: string, op: string, a: int, b: int, size: int)
    requires WellVetted(v)
    ensures QuickFilter(v, column, value).Ok? ==> WellVetted(QuickFilter(v, column, value).value)
    ensures CombineFts(v, op).Ok? ==> WellVetted(CombineFts(v, op).value)
    ensures Window(v, a, b).Ok? ==> WellVetted(Window(v, a, b).value)
    ensures Paginate(v, a, b, size).Ok? ==> WellVetted(Paginate(v, a, b, size).value)
    ensures StreamCursor(v, size).Ok? ==> WellVetted(StreamCursor(v, size).value)
  {
  }

  /**
    When the row cap survives: search and window leave it as it was, drilling in and
    paging always set one, and the live tail sets one exactly when its limit is in range.
   */
  lemma RewritesCapIff(limitOf: LimitOf, v: Vetted, column: string, value: string, op: string, a: int, b: int, size: int)
    requires IsInt64(size)
    ensures QuickFilter(v, column, value).Ok? ==>
              (RowCapped(limitOf, QuickFilter(v, column, value).value.stmt)
               <==> v.shape.Aggregation? || RowCapped(limitOf, v.stmt))
    ensures CombineFts(v, op).Ok? ==> (RowCapped(limitOf, CombineFts(v, op).value.stmt) <==> RowCapped(limitOf, v.stmt))
    ensures Window(v, a, b).Ok? ==> (RowCapped(limitOf, Window(v, a, b).value.stmt) <==> RowCapped(limitOf, v.stmt))
    ensures Paginate(v, a, b, size).Ok? ==> RowCapped(limitOf, Paginate(v, a, b, size).value.stmt)
    ensures StreamCursor(v, size).Ok? ==>
              (RowCapped(limitOf, StreamCursor(v, size).value.stmt) <==> 0 <= size <= 10_000)
  {
    AtoiItoa(size);
    FiftyReads();
  }

  lemma FiftyReads()
    ensures Atoi("50") == Some(50)
  {
    assert AllDigits("50") && "50"[..1] == "5" && "5"[..0] == "";
    assert DigitsValue("5") == 5;
  }
}
