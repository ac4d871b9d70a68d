/**
  The rewrites and the text they end up in: the rewritten condition is printed and read
  again by SQLite, and reads as the tree the rewriter built.
 */
module Reprint {
  import opened Common
  import opened Text
  import opened Sql
  import opened SqlText
  import opened Rewrite
  import opened Compose
  import opened QueryPage

  predicate PrintableWhere(where: Option<Expr>) {
    where.Some? ==> Printable(where.value)
  }

  /** Parentheses make any condition fit anywhere. */
  lemma WrapFits(e: Expr)
    requires Printable(e)
    ensures Printable(Wrap(e)) && Level(Wrap(e)) == TIGHT
  {
  }

  lemma ConjoinPrints(where: Option<Expr>, cond: Expr)
    requires PrintableWhere(where) && Printable(cond) && Level(cond) > OpLevel(And)
    ensures PrintableWhere(Conjoin(where, cond))
  {
    if where.Some? { WrapFits(where.value); }
  }

  /** Replacing a literal changes nothing about how tight a condition is. */
  lemma {:induction false} RetargetPrints(e: Expr, col: string, lit: Expr)
    requires FindsEq(e, col) && Printable(e) && (lit.StringLit? || lit.NumberLit?)
    ensures Printable(Retarget(e, col, lit)) && Level(Retarget(e, col, lit)) == Level(e)
  {
    if e.Paren? {
      RetargetPrints(e.x, col, lit);
    } else if e.Binary? && e.op.And? {
      if FindsEq(e.x, col) { RetargetPrints(e.x, col, lit); } else { RetargetPrints(e.y, col, lit); }
    }
  }

  lemma FilterPrints(v: Vetted, col: string, value: string)
    requires PrintableWhere(v.stmt.where) && QuickFilter(v, col, value).Ok?
    ensures PrintableWhere(QuickFilter(v, col, value).value.stmt.where)
  {
    var where, lit := v.stmt.where, FilterLiteral(col, value).value;
    if where.Some? && FindsEq(where.value, col) {
      RetargetPrints(where.value, col, lit);
    } else {
      ConjoinPrints(where, Binary(Eq, Ident(col), lit));
    }
  }

  lemma {:induction false} FiltersPrint(v: Vetted, fs: seq<Param>)
    requires PrintableWhere(v.stmt.where) && Filtered(v, fs).Ok?
    ensures PrintableWhere(Filtered(v, fs).value.stmt.where)
  {
    if fs != [] {
      FiltersPrint(v, fs[..|fs| - 1]);
      FilterPrints(Filtered(v, fs[..|fs| - 1]).value, fs[|fs| - 1].col, fs[|fs| - 1].value);
    }
  }

  lemma SearchPrints(v: Vetted, op: string)
    requires PrintableWhere(v.stmt.where) && CombineFts(v, op).Ok?
    ensures PrintableWhere(CombineFts(v, op).value.stmt.where)
  {
    if v.stmt.where.Some? { WrapFits(v.stmt.where.value); }
  }

  lemma LeavesPrint(op: Op, x: Expr, y: Expr)
    requires IsLeaf(x) && IsLeaf(y)
    ensures Printable(Binary(op, x, y)) && Level(Binary(op, x, y)) == OpLevel(op)
  {
    assert Printable(x) && Printable(y) && Level(x) == Level(y) == TIGHT;
  }

  lemma JoinPrints(op: Op, x: Expr, y: Expr)
    requires Printable(x) && Printable(y) && Level(x) >= OpLevel(op) && Level(y) > OpLevel(op)
    ensures Printable(Paren(Binary(op, x, y))) && Level(Paren(Binary(op, x, y))) == TIGHT
  {
    assert Printable(Binary(op, x, y));
  }

  lemma PageCondPrints(ts: int, id: int)
    ensures Printable(PageCond(ts, id)) && Level(PageCond(ts, id)) == TIGHT
  {
    var t, n := NumberLit(Itoa(ts)), NumberLit(Itoa(id));
    LeavesPrint(Lt, Ident("timestamp"), t);
    LeavesPrint(Eq, Ident("timestamp"), t);
    LeavesPrint(Lt, Ident("id"), n);
    JoinPrints(And, Binary(Eq, Ident("timestamp"), t), Binary(Lt, Ident("id"), n));
    JoinPrints(Or, Binary(Lt, Ident("timestamp"), t),
               Paren(Binary(And, Binary(Eq, Ident("timestamp"), t), Binary(Lt, Ident("id"), n))));
  }

  lemma CursorPrints(v: Vetted, search: Search, cursor: Cursor)
    requires PrintableWhere(v.stmt.where) && Composed(v, search, cursor).Ok?
    ensures PrintableWhere(Composed(v, search, cursor).value.stmt.where)
  {
    if search.Search? { SearchPrints(v, search.op); }
    var where := if search.Search? then CombineFts(v, search.op).value.stmt.where else v.stmt.where;
    match cursor
    case NoCursor =>
    case TimeWindow(a, b) => ConjoinPrints(where, WindowCond(a, b));
    case PageBefore(ts, id, _) =>
      PageCondPrints(ts, id);
      ConjoinPrints(where, PageCond(ts, id));
    case StreamAfter(_, _) => ConjoinPrints(where, StreamCond());
  }

  /**
    The condition of any page request, built on a condition that was itself read from
    some text, is found again by SQLite in the text it is printed as: no OR of the
    user's, of the search or of the cursor escapes from where the rewriter put it.
   */
  lemma ChainReadsBack(v: Vetted, fs: seq<Param>, search: Search, cursor: Cursor, text: seq<Token>)
    requires v.stmt.where.Some? ==> Read(text) == v.stmt.where
    requires Chained(v, fs, search, cursor).Ok? && Chained(v, fs, search, cursor).value.stmt.where.Some?
    ensures var w := Chained(v, fs, search, cursor).value.stmt.where; Read(Print(w.value)) == w
  {
    if v.stmt.where.Some? { PrintRead(text); }
    FiltersPrint(v, fs);
    CursorPrints(Filtered(v, fs).value, search, cursor);
    ReadPrinted(Chained(v, fs, search, cursor).value.stmt.where.value);
  }

  /** Why: without its parentheses a user's OR would let rows past the added condition. */
  lemma BareOrEscapes(a: Expr, b: Expr, cond: Expr)
    requires IsLeaf(a) && IsLeaf(b) && Printable(cond) && Level(cond) > OpLevel(And)
    ensures Read(Print(Binary(And, Binary(Or, a, b), cond))) == Some(Binary(Or, a, Binary(And, b, cond)))
  {
    var e := Binary(Or, a, Binary(And, b, cond));
    ReadPrinted(e);
    Regroup(Print(a), [Infix(Or)], Print(b), [Infix(And)], Print(cond));
  }

  lemma Regroup<T>(a: seq<T>, b: seq<T>, c: seq<T>, d: seq<T>, e: seq<T>)
    ensures a + b + c + d + e == a + b + (c + d + e)
  {
  }
}
