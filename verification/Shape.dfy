/**
  What the shape of a statement means, from query/validate.go, and what drilling in makes
  of an aggregation, from query/rewrite.go.
 */
module Shape {
  import opened Common
  import opened Text
  import opened Sql
  import opened Rewrite
  import opened Compose

  /** `x` stands somewhere in `e`, at any depth. */
  predicate Within(x: Expr, e: Expr) {
    x == e ||
    match e
    case Paren(y) => Within(x, y)
    case Not(y) => Within(x, y)
    case Binary(_, y, z) => Within(x, y) || Within(x, z)
    case Between(y, lo, hi) => Within(x, y) || Within(x, lo) || Within(x, hi)
    case Call(_, args, _, _) => exists i :: 0 <= i < |args| && Within(x, args[i])
    case _ => false
  }

  /** A call of one of the eight aggregates, in upper or lower case, or of any function over a window. */
  predicate Aggregates(x: Expr) {
    x.Call? &&
    (x.over
     || Lower(x.fn) == "count" || Lower(x.fn) == "sum" || Lower(x.fn) == "avg" || Lower(x.fn) == "min"
     || Lower(x.fn) == "max" || Lower(x.fn) == "total" || Lower(x.fn) == "group_concat" || Lower(x.fn) == "string_agg")
  }

  ghost predicate HoldsAggregate(e: Expr) {
    exists x :: Within(x, e) && Aggregates(x)
  }

  /** The search through a column finds an aggregate exactly when one stands in it. */
  lemma {:induction false} HasAggregateIff(e: Expr)
    ensures HasAggregate(e) <==> HoldsAggregate(e)
    decreases e, 1
  {
    if e.Call? {
      CallHasAggregateIff(e);
    } else if e.Paren? || e.Not? {
      HasAggregateIff(e.x);
      Above(e, e.x);
    } else if e.Binary? {
      HasAggregateIff(e.x);
      HasAggregateIff(e.y);
      Above(e, e.x);
      Above(e, e.y);
    } else if e.Between? {
      HasAggregateIff(e.x);
      HasAggregateIff(e.lo);
      HasAggregateIff(e.hi);
      Above(e, e.x);
      Above(e, e.lo);
      Above(e, e.hi);
    }
  }

  predicate Child(y: Expr, e: Expr) {
    match e
    case Paren(a) => y == a
    case Not(a) => y == a
    case Binary(_, a, b) => y == a || y == b
    case Between(a, b, c) => y == a || y == b || y == c
    case Call(_, args, _, _) => y in args
    case _ => false
  }

  lemma Above(e: Expr, y: Expr)
    requires Child(y, e)
    ensures HoldsAggregate(y) ==> HoldsAggregate(e)
  {
    if HoldsAggregate(y) {
      var x :| Within(x, y) && Aggregates(x);
      assert Within(x, e);
    }
  }

  lemma {:induction false} CallHasAggregateIff(e: Expr)
    requires e.Call?
    ensures HasAggregate(e) <==> HoldsAggregate(e)
    decreases e, 0
  {
    assert Within(e, e);
    forall i | 0 <= i < |e.args| ensures HasAggregate(e.args[i]) <==> HoldsAggregate(e.args[i]) {
      HasAggregateIff(e.args[i]);
      Above(e, e.args[i]);
    }
    AnyIff(e.args);
    if exists i :: 0 <= i < |e.args| && HasAggregate(e.args[i]) {
      var i :| 0 <= i < |e.args| && HasAggregate(e.args[i]);
      Above(e, e.args[i]);
    }
  }

  lemma {:induction false} AnyIff(es: seq<Expr>)
    ensures AnyAggregate(es) <==> exists i :: 0 <= i < |es| && HasAggregate(es[i])
  {
    if es != [] { AnyIff(es[1..]); }
  }

  /** The arms of a compound statement. */
  function Arms(s: Select): seq<Select> {
    [s] + if s.compound.Some? then Arms(s.compound.value) else []
  }

  ghost predicate AggregatesIn(s: Select) {
    || s.groupBy != [] || s.having.Some? || s.distinct || s.windows > 0
    || exists i :: 0 <= i < |s.columns| && s.columns[i].Column? && HoldsAggregate(s.columns[i].e)
  }

  /**
    A statement is an aggregation exactly when some arm of it groups, filters groups,
    removes duplicates or names windows, or has a column with an aggregate anywhere in it.
   */
  lemma {:induction false} ShapeIff(s: Select)
    ensures DetectShape(s).Aggregation? <==> exists i :: 0 <= i < |Arms(s)| && AggregatesIn(Arms(s)[i])
  {
    forall i | 0 <= i < |s.columns| && s.columns[i].Column?
      ensures HasAggregate(s.columns[i].e) <==> HoldsAggregate(s.columns[i].e)
    {
      HasAggregateIff(s.columns[i].e);
    }
    assert Arms(s)[0] == s;
    if s.compound.Some? {
      ShapeIff(s.compound.value);
      var rest := Arms(s.compound.value);
      assert forall i :: 0 <= i < |rest| ==> Arms(s)[i + 1] == rest[i];
      if exists i :: 0 <= i < |rest| && AggregatesIn(rest[i]) {
        var i :| 0 <= i < |rest| && AggregatesIn(rest[i]);
        assert AggregatesIn(Arms(s)[i + 1]);
      }
    }
  }

  // Drilling in.

  /**
    A quick filter on a plain query leaves everything but its condition; on an aggregation
    it asks for the logs underneath: every column, oldest first, fifty of them.
   */
  lemma DrillsInIff(v: Vetted, column: string, value: string)
    requires WellVetted(v) && QuickFilter(v, column, value).Ok?
    ensures var s, t := v.stmt, QuickFilter(v, column, value).value.stmt;
            if AggregatesIn(s)
            then t == Select([Star], s.source, t.where, [], None, false, 0, [OrderTerm(Ident("timestamp"), false)],
                             Some(NumberLit("50")), s.offset, None)
            else t == s.(where := t.where)
  {
    ShapeOfOne(v.stmt);
  }

  lemma ShapeOfOne(s: Select)
    requires s.compound.None?
    ensures DetectShape(s).Aggregation? <==> AggregatesIn(s)
  {
    ShapeIff(s);
    assert Arms(s) == [s];
    assert Arms(s)[0] == s;
  }

  lemma OldestFirst(db: Db, a: LogRow, b: LogRow)
    ensures Before(db, TIMESTAMP_ASC, a, b) <==> a.timestamp < b.timestamp
  {
    NumberEvals(db, "timestamp", 0, Tuple(a, None), [], 0);
    NumberEvals(db, "timestamp", 0, Tuple(b, None), [], 0);
    assert TIMESTAMP_ASC[1..] == [];
  }

  /** What an aggregation shows once a filter has drilled in: at most fifty logs, oldest first. */
  lemma DrilledInAnswer(db: Db, v: Vetted, column: string, value: string, answer: seq<LogRow>)
    requires WellVetted(v) && AggregatesIn(v.stmt) && QuickFilter(v, column, value).Ok?
    requires IsAnswer(db, QuickFilter(v, column, value).value.stmt, [], answer)
    ensures |answer| <= 50
    ensures forall i, j :: 0 <= i < j < |answer| ==> answer[i].timestamp <= answer[j].timestamp
  {
    var s := QuickFilter(v, column, value).value.stmt;
    DrillsInIff(v, column, value);
    FiftyReads();
    assert Bound(db.limitOf, s.limit) == Some(50) && s.order == TIMESTAMP_ASC;
    AnswerOldestFirst(db, s, answer);
  }

  lemma AnswerOldestFirst(db: Db, s: Select, answer: seq<LogRow>)
    requires s.order == TIMESTAMP_ASC && IsAnswer(db, s, [], answer)
    ensures Bound(db.limitOf, s.limit).Some? ==> |answer| <= Bound(db.limitOf, s.limit).value
    ensures forall i, j :: 0 <= i < j < |answer| ==> answer[i].timestamp <= answer[j].timestamp
  {
    var limit, offset := Bound(db.limitOf, s.limit), Bound(db.limitOf, s.offset);
    var sorted :| SortedCandidates(db, s, [], sorted) && answer == Slice(sorted, limit, offset);
    SliceKeepsPlaces(sorted, limit, offset);
    SortedRises(db, sorted);
  }

  lemma SortedRises(db: Db, sorted: seq<LogRow>)
    requires forall i, j :: 0 <= i < j < |sorted| ==> !Before(db, TIMESTAMP_ASC, sorted[j], sorted[i])
    ensures forall i, j :: 0 <= i < j < |sorted| ==> sorted[i].timestamp <= sorted[j].timestamp
  {
    forall i, j | 0 <= i < j < |sorted| ensures sorted[i].timestamp <= sorted[j].timestamp {
      OldestFirst(db, sorted[j], sorted[i]);
    }
  }

  lemma SliceKeepsPlaces<T>(rows: seq<T>, limit: Option<nat>, offset: Option<nat>)
    ensures var k := if offset.Some? then offset.value else 0;
            var out := Slice(rows, limit, offset);
            && (limit.Some? ==> |out| <= limit.value)
            && forall i :: 0 <= i < |out| ==> k + i < |rows| && out[i] == rows[k + i]
  {
  }

  // Which equalities a filter sees.

  /** `name` or `table.name`, in any case. */
  predicate Names(e: Expr, col: string) {
    (e.Ident? && Lower(e.name) == col) || (e.QualifiedRef? && Lower(e.column) == col)
  }

  /** An equality is on a column exactly when its left side names it, qualified or not, and its right side is a literal. */
  lemma EqOnIff(e: Expr, col: string)
    requires col != ""
    ensures IsEqOn(e, col) <==>
              e.Binary? && e.op == Eq && Names(e.x, col) && (e.y.StringLit? || e.y.NumberLit?)
  {
  }

  /** `logs.SERVICE = 'a'`, alone or in an AND chain, is found and its literal replaced. */
  lemma SpellingsRetarget(table: string, was: string, text: string, more: Expr)
    ensures var eq, lit := Binary(Eq, QualifiedRef(table, "SERVICE"), StringLit(was)), StringLit(text);
            && FilteredWhere(Some(eq), "service", lit) == Some(Binary(Eq, QualifiedRef(table, "SERVICE"), lit))
            && FilteredWhere(Some(Binary(And, Paren(eq), more)), "service", lit)
               == Some(Binary(And, Paren(Binary(Eq, QualifiedRef(table, "SERVICE"), lit)), more))
  {
    var eq, lit := Binary(Eq, QualifiedRef(table, "SERVICE"), StringLit(was)), StringLit(text);
    assert Lower("SERVICE") == "service";
    assert IsEqOn(eq, "service") && FindsEq(Paren(eq), "service");
    assert Retarget(eq, "service", lit) == Binary(Eq, QualifiedRef(table, "SERVICE"), lit);
    assert Retarget(Paren(eq), "service", lit) == Paren(Retarget(eq, "service", lit));
  }
}
