/** What the rewrites do to the set of rows a query selects. */
module RewriteMeaning {
  import opened Common
  import opened Text
  import opened Sql
  import opened Rewrite

  /** The conditions a WHERE joins by AND, through parentheses; OR and NOT are left whole. */
  function Conjuncts(e: Expr): seq<Expr> {
    match e
    case Paren(x) => Conjuncts(x)
    case Binary(And, x, y) => Conjuncts(x) + Conjuncts(y)
    case _ => [e]
  }

  function WhereConjuncts(where: Option<Expr>): seq<Expr> {
    if where.None? then [] else Conjuncts(where.value)
  }

  /** The position of the first `col = literal`, or the length when there is none. */
  function FirstEq(es: seq<Expr>, col: string): (i: nat)
    ensures i <= |es|
    ensures i < |es| ==> IsEqOn(es[i], col)
    ensures forall j :: 0 <= j < i ==> !IsEqOn(es[j], col)
  {
    if es == [] || IsEqOn(es[0], col) then 0 else 1 + FirstEq(es[1..], col)
  }

  lemma {:induction false} FirstEqAppend(xs: seq<Expr>, ys: seq<Expr>, col: string)
    ensures FirstEq(xs + ys, col)
            == (if FirstEq(xs, col) < |xs| then FirstEq(xs, col) else |xs| + FirstEq(ys, col))
  {
    if xs == [] {
      assert xs + ys == ys;
    } else {
      assert (xs + ys)[1..] == xs[1..] + ys;
      FirstEqAppend(xs[1..], ys, col);
    }
  }

  /** The search along AND-chains finds an equality exactly when some conjunct is one. */
  lemma {:induction false} FindsEqConjunct(e: Expr, col: string)
    ensures FindsEq(e, col) <==> FirstEq(Conjuncts(e), col) < |Conjuncts(e)|
  {
    if e.Paren? {
      FindsEqConjunct(e.x, col);
    } else if e.Binary? && e.op.And? {
      FindsEqConjunct(e.x, col);
      FindsEqConjunct(e.y, col);
      FirstEqAppend(Conjuncts(e.x), Conjuncts(e.y), col);
    }
  }

  function WithLiteral(eq: Expr, lit: Expr): Expr {
    if eq.Binary? then Binary(Eq, eq.x, lit) else eq
  }

  /** Retargeting changes the literal of the first matching conjunct and nothing else. */
  lemma {:induction false} RetargetConjuncts(e: Expr, col: string, lit: Expr)
    requires FindsEq(e, col) && FirstEq(Conjuncts(e), col) < |Conjuncts(e)|
    ensures var es, i := Conjuncts(e), FirstEq(Conjuncts(e), col);
            Conjuncts(Retarget(e, col, lit)) == es[i := WithLiteral(es[i], lit)]
    decreases e, 1
  {
    if e.Paren? {
      RetargetConjuncts(e.x, col, lit);
    } else if e.Binary? && e.op.And? {
      FindsEqConjunct(e.x, col);
      FindsEqConjunct(e.y, col);
      FirstEqAppend(Conjuncts(e.x), Conjuncts(e.y), col);
      if FindsEq(e.x, col) { RetargetLeft(e, col, lit); } else { RetargetRight(e, col, lit); }
    }
  }

  lemma {:induction false} RetargetLeft(e: Expr, col: string, lit: Expr)
    requires e.Binary? && e.op.And? && FindsEq(e.x, col)
    requires FirstEq(Conjuncts(e.x), col) < |Conjuncts(e.x)|
    ensures var xs, i := Conjuncts(e.x), FirstEq(Conjuncts(e.x), col);
            Conjuncts(Retarget(e, col, lit)) == (xs + Conjuncts(e.y))[i := WithLiteral(xs[i], lit)]
    decreases e, 0
  {
    RetargetConjuncts(e.x, col, lit);
  }

  lemma {:induction false} RetargetRight(e: Expr, col: string, lit: Expr)
    requires e.Binary? && e.op.And? && !FindsEq(e.x, col) && FindsEq(e.y, col)
    requires FirstEq(Conjuncts(e.y), col) < |Conjuncts(e.y)|
    ensures var xs, ys, i := Conjuncts(e.x), Conjuncts(e.y), FirstEq(Conjuncts(e.y), col);
            Conjuncts(Retarget(e, col, lit)) == (xs + ys)[|xs| + i := WithLiteral(ys[i], lit)]
    decreases e, 0
  {
    RetargetConjuncts(e.y, col, lit);
  }

  /** The conjunct list after a quick filter: retargeted in place, or one equality longer. */
  lemma QuickFilterConjuncts(where: Option<Expr>, col: string, lit: Expr)
    ensures var es, i := WhereConjuncts(where), FirstEq(WhereConjuncts(where), col);
            WhereConjuncts(FilteredWhere(where, col, lit))
            == (if i < |es| then es[i := WithLiteral(es[i], lit)] else es + [Binary(Eq, Ident(col), lit)])
  {
    var eq := Binary(Eq, Ident(col), lit);
    assert Conjuncts(eq) == [eq];
    if where.Some? {
      var e := where.value;
      FindsEqConjunct(e, col);
      if FindsEq(e, col) {
        RetargetConjuncts(e, col, lit);
      } else {
        assert Conjuncts(Wrap(e)) == Conjuncts(e);
      }
    }
  }

  predicate AllHold(db: Db, es: seq<Expr>, t: Tuple) {
    forall i :: 0 <= i < |es| ==> Holds(db, es[i], t, [], 0)
  }

  lemma AllHoldAppend(db: Db, xs: seq<Expr>, ys: seq<Expr>, t: Tuple)
    ensures AllHold(db, xs + ys, t) <==> AllHold(db, xs, t) && AllHold(db, ys, t)
  {
    if AllHold(db, xs + ys, t) {
      forall i | 0 <= i < |xs| ensures Holds(db, xs[i], t, [], 0) { assert (xs + ys)[i] == xs[i]; }
      forall i | 0 <= i < |ys| ensures Holds(db, ys[i], t, [], 0) { assert (xs + ys)[|xs| + i] == ys[i]; }
    }
  }

  /** A WHERE without binds keeps a row exactly when all its conjuncts are true on it. */
  lemma {:induction false} HoldsConjuncts(db: Db, e: Expr, t: Tuple)
    requires Binds(e) == 0
    ensures Holds(db, e, t, [], 0) <==> AllHold(db, Conjuncts(e), t)
  {
    if e.Paren? {
      HoldsConjuncts(db, e.x, t);
    } else if e.Binary? && e.op.And? {
      HoldsConjuncts(db, e.x, t);
      HoldsConjuncts(db, e.y, t);
      HoldsAnd(db, e.x, e.y, t, [], 0);
      AllHoldAppend(db, Conjuncts(e.x), Conjuncts(e.y), t);
    } else {
      assert Conjuncts(e)[0] == e;
    }
  }

  /** The value a quick filter asks for. */
  function Wanted(lit: Expr): Value {
    if lit.StringLit? then Str(lit.text)
    else if lit.NumberLit? && Atoi(lit.digits).Some? then Int(Atoi(lit.digits).value)
    else Null
  }

  /** Everything the old WHERE asked for, apart from its first equality on this column. */
  function Others(where: Option<Expr>, col: string): seq<Expr> {
    var es, i := WhereConjuncts(where), FirstEq(WhereConjuncts(where), col);
    if i < |es| then es[..i] + es[i + 1..] else es
  }

  predicate FilterColumn(col: string) {
    col == "service" || col == "host" || col == "level"
  }

  /** An equality on a filter column is true exactly on the rows with that value. */
  lemma EqHolds(db: Db, eq: Expr, col: string, t: Tuple)
    requires IsEqOn(eq, col) && FilterColumn(col) && !Wanted(eq.y).Null?
    ensures Holds(db, eq, t, [], 0) <==> ColumnValue(db, t.row, col) == Wanted(eq.y)
  {
    assert Lower(col) == col;
    var name := if eq.x.Ident? then eq.x.name else eq.x.column;
    assert Lower(name) == col;
    assert ColumnValue(db, t.row, name) == ColumnValue(db, t.row, col);
    assert Eval(db, eq.x, t, [], 0) == ColumnValue(db, t.row, col);
    assert Eval(db, eq.y, t, [], Binds(eq.x)) == Wanted(eq.y);
    assert !ColumnValue(db, t.row, col).Null?;
    assert Eval(db, eq, t, [], 0) == FromBool(ColumnValue(db, t.row, col) == Wanted(eq.y));
  }

  lemma {:induction false} BindsOfConjuncts(e: Expr, i: nat)
    requires Binds(e) == 0 && i < |Conjuncts(e)|
    ensures Binds(Conjuncts(e)[i]) == 0
  {
    if e.Paren? {
      BindsOfConjuncts(e.x, i);
    } else if e.Binary? && e.op.And? {
      if i < |Conjuncts(e.x)| { BindsOfConjuncts(e.x, i); } else { BindsOfConjuncts(e.y, i - |Conjuncts(e.x)|); }
    }
  }

  lemma {:induction false} RetargetBinds(e: Expr, col: string, lit: Expr)
    requires FindsEq(e, col) && Binds(e) == 0 && Binds(lit) == 0
    ensures Binds(Retarget(e, col, lit)) == 0
  {
    if e.Paren? {
      RetargetBinds(e.x, col, lit);
    } else if e.Binary? && e.op.And? {
      if FindsEq(e.x, col) { RetargetBinds(e.x, col, lit); } else { RetargetBinds(e.y, col, lit); }
    }
  }

  /** A literal the filter accepts is a literal with a value, and no bind. */
  lemma LiteralValue(col: string, value: string)
    requires FilterLiteral(col, value).Ok?
    ensures var lit := FilterLiteral(col, value).value;
            FilterColumn(col) && (lit.StringLit? || lit.NumberLit?) && !Wanted(lit).Null? && Binds(lit) == 0
            && Wanted(lit) == (if col == "level" then Int(Atoi(value).value) else Str(value))
  {
  }

  lemma OthersHold(db: Db, es: seq<Expr>, i: nat, eq: Expr, t: Tuple)
    requires i < |es|
    ensures AllHold(db, es[i := eq], t) <==> AllHold(db, es[..i] + es[i + 1..], t) && Holds(db, eq, t, [], 0)
  {
    assert es[i := eq] == es[..i] + [eq] + es[i + 1..];
    AllHoldAppend(db, es[..i], [eq], t);
    AllHoldAppend(db, es[..i] + [eq], es[i + 1..], t);
    AllHoldAppend(db, es[..i], es[i + 1..], t);
    SingletonHolds(db, eq, t);
  }

  lemma FilteredBinds(where: Option<Expr>, col: string, lit: Expr)
    requires (where.Some? ==> Binds(where.value) == 0) && Binds(lit) == 0
    ensures Binds(FilteredWhere(where, col, lit).value) == 0
  {
    if where.Some? && FindsEq(where.value, col) {
      RetargetBinds(where.value, col, lit);
    } else if where.Some? {
      assert Binds(Wrap(where.value)) == 0;
      assert Binds(Binary(Eq, Ident(col), lit)) == 0;
    }
  }

  lemma SingletonHolds(db: Db, e: Expr, t: Tuple)
    ensures AllHold(db, [e], t) <==> Holds(db, e, t, [], 0)
  {
    assert [e][0] == e;
  }

  lemma ConjunctsHold(db: Db, where: Option<Expr>, col: string, lit: Expr, t: Tuple)
    requires FilterColumn(col) && (lit.StringLit? || lit.NumberLit?) && !Wanted(lit).Null?
    ensures AllHold(db, WhereConjuncts(FilteredWhere(where, col, lit)), t)
            <==> AllHold(db, Others(where, col), t) && ColumnValue(db, t.row, col) == Wanted(lit)
  {
    QuickFilterConjuncts(where, col, lit);
    var es, i := WhereConjuncts(where), FirstEq(WhereConjuncts(where), col);
    assert Lower(col) == col;
    var eq := if i < |es| then WithLiteral(es[i], lit) else Binary(Eq, Ident(col), lit);
    EqHolds(db, eq, col, t);
    if i < |es| {
      OthersHold(db, es, i, eq, t);
    } else {
      AllHoldAppend(db, es, [eq], t);
      SingletonHolds(db, eq, t);
    }
  }

  /**
    A quick filter selects exactly the rows with the wanted value that also meet
    every other condition of the old WHERE; nothing under OR or NOT is touched.
   */
  lemma QuickFilterMeaning(db: Db, v: Vetted, col: string, value: string, t: Tuple)
    requires QuickFilter(v, col, value).Ok?
    requires v.stmt.where.Some? ==> Binds(v.stmt.where.value) == 0
    ensures Kept(db, QuickFilter(v, col, value).value.stmt.where, t, [])
            <==> AllHold(db, Others(v.stmt.where, col), t)
                 && ColumnValue(db, t.row, col) == (if col == "level" then Int(Atoi(value).value) else Str(value))
    ensures QuickFilter(v, col, value).value.shape == LogViewer
  {
    var lit := FilterLiteral(col, value).value;
    LiteralValue(col, value);
    FilteredBinds(v.stmt.where, col, lit);
    HoldsConjuncts(db, FilteredWhere(v.stmt.where, col, lit).value, t);
    ConjunctsHold(db, v.stmt.where, col, lit, t);
  }

  lemma {:induction false} RetargetTwice(e: Expr, col: string, a: Expr, b: Expr)
    requires FindsEq(e, col) && (a.StringLit? || a.NumberLit?)
    ensures FindsEq(Retarget(e, col, a), col)
    ensures Retarget(Retarget(e, col, a), col, b) == Retarget(e, col, b)
  {
    if e.Paren? {
      RetargetTwice(e.x, col, a, b);
    } else if e.Binary? && e.op.And? {
      if FindsEq(e.x, col) { RetargetTwice(e.x, col, a, b); } else { RetargetTwice(e.y, col, a, b); }
    }
  }

  lemma FilteredTwice(where: Option<Expr>, col: string, a: Expr, b: Expr)
    requires FilterColumn(col) && (a.StringLit? || a.NumberLit?)
    ensures FilteredWhere(FilteredWhere(where, col, a), col, b) == FilteredWhere(where, col, b)
  {
    var eq := Binary(Eq, Ident(col), a);
    assert Lower(col) == col;
    assert FindsEq(eq, col) && Retarget(eq, col, b) == Binary(Eq, Ident(col), b);
    if where.Some? {
      var e := where.value;
      if FindsEq(e, col) {
        RetargetTwice(e, col, a, b);
      } else {
        assert !FindsEq(Wrap(e), col);
        assert FindsEq(Binary(And, Wrap(e), eq), col);
        assert Retarget(Binary(And, Wrap(e), eq), col, b) == Binary(And, Wrap(e), Retarget(eq, col, b));
      }
    }
  }

  /** Clicking value `b` after value `a` leaves the same query as clicking `b` alone; so clicking twice is clicking once. */
  lemma QuickFilterLastWins(v: Vetted, col: string, a: string, b: string)
    requires QuickFilter(v, col, a).Ok?
    ensures QuickFilter(QuickFilter(v, col, a).value, col, b) == QuickFilter(v, col, b)
  {
    LiteralValue(col, a);
    if FilterLiteral(col, b).Ok? {
      FilteredTwice(v.stmt.where, col, FilterLiteral(col, a).value, FilterLiteral(col, b).value);
    }
  }
}
