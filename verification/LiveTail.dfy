/**
  Live tail by polling: the table grows and is trimmed while the stream polls it
  with a moving id cursor. Over every interleaving each matching row is sent once,
  in id order.
 */
module LiveTail {
  import opened Common
  import opened Text
  import opened Sql
  import opened Rewrite
  import opened Compose
  import opened Execute

  /** The stream's query: vetted once, polled for ever. */
  datatype Stream = Stream(v: Vetted, search: Search, limit: int)

  /** `ever` is the history of the table: every row inserted so far, in order. */
  datatype Tail = Tail(db: Db, ever: seq<LogRow>, anchor: int, lastId: int, sent: seq<LogRow>)

  datatype Action = Insert(db: Db, rows: seq<LogRow>) | Trim(db: Db) | Poll(page: seq<LogRow>)

  ghost predicate ValidStream(q: Stream) {
    && q.v.stmt.source == Some(Logs)
    && (q.v.stmt.where.Some? ==> Binds(q.v.stmt.where.value) == 0)
    && q.v.shape.LogViewer? && !q.v.compound
    && IsInt64(q.limit)
  }

  predicate Ascending(rows: seq<LogRow>) {
    forall i, j :: 0 <= i < j < |rows| ==> rows[i].id < rows[j].id
  }

  /** The database with other tables but the same meaning of text, search and columns. */
  ghost predicate SameMeaning(a: Db, b: Db) {
    a.matches == b.matches && a.other == b.other && a.numeric == b.numeric
  }

  function PollQuery(q: Stream, lastId: int): Result<Vetted> {
    Composed(q.v, q.search, StreamAfter(lastId, q.limit))
  }

  /** The cursor after the rows of a poll: the largest id seen. */
  function Advance(lastId: int, page: seq<LogRow>): int
    decreases |page|
  {
    if page == [] then lastId
    else
      var before := Advance(lastId, page[..|page| - 1]);
      if page[|page| - 1].id > before then page[|page| - 1].id else before
  }

  /** The poll loop over the returned rows. */
  method Deliver(start: int, page: seq<LogRow>) returns (lastId: int)
    ensures lastId == Advance(start, page)
    ensures lastId >= start && forall i :: 0 <= i < |page| ==> page[i].id <= lastId
    ensures lastId == start || exists i :: 0 <= i < |page| && page[i].id == lastId
  {
    lastId := start;
    for i := 0 to |page|
      invariant lastId == Advance(start, page[..i]) && lastId >= start
      invariant forall j :: 0 <= j < i ==> page[j].id <= lastId
      invariant lastId == start || exists j :: 0 <= j < i && page[j].id == lastId
    {
      assert page[..i + 1][..i] == page[..i];
      if page[i].id > lastId {
        lastId := page[i].id;
      }
    }
    assert page[..|page|] == page;
  }

  /** `page` is what one poll may come back with, byte cap included. */
  ghost predicate Polled(q: Stream, t: Tail, page: seq<LogRow>) {
    && PollQuery(q, t.lastId).Ok?
    && exists answer ::
         IsAnswer(t.db, PollQuery(q, t.lastId).value.stmt, Args(q.search, StreamAfter(t.lastId, q.limit)), answer)
         && Capped(answer, page)
  }

  /** The stream starts at the largest id in the table, or at zero. */
  ghost predicate Starts(t: Tail) {
    && Synced(t.db) && t.ever == t.db.logs
    && t.anchor == t.lastId && t.sent == []
    && (forall r :: r in t.db.logs ==> r.id <= t.anchor)
    && (if t.db.logs == [] then t.anchor == 0 else exists r :: r in t.db.logs && r.id == t.anchor)
  }

  /**
    One step: an atomic insert, a deletion of rows, or a poll. An inserted row's id
    differs from the ids in the table; nothing more is asked of it.
   */
  ghost predicate Step(q: Stream, t: Tail, a: Action, t': Tail) {
    match a
    case Insert(db, rows) =>
      && SameMeaning(t.db, db) && Synced(db)
      && db.logs == t.db.logs + rows
      && t' == t.(db := db, ever := t.ever + rows)
    case Trim(db) =>
      && SameMeaning(t.db, db) && Synced(db)
      && (forall r :: r in db.logs ==> r in t.db.logs)
      && t' == t.(db := db)
    case Poll(page) =>
      && Polled(q, t, page)
      && t' == t.(sent := t.sent + page, lastId := Advance(t.lastId, page))
  }

  /** A run: each state follows from the one before by its action. */
  ghost predicate Run(q: Stream, ts: seq<Tail>, actions: seq<Action>) {
    && |ts| == |actions| + 1
    && Starts(ts[0])
    && forall i :: 0 <= i < |actions| ==> Step(q, ts[i], actions[i], ts[i + 1])
  }

  predicate Wanted(q: Stream, t: Tail, r: LogRow) {
    Asked(t.db, q.v.stmt.where, q.search, r) && t.anchor < r.id <= t.lastId
  }

  /** What holds of every run: only wanted rows are sent, once each, in id order. */
  ghost predicate Inv(q: Stream, t: Tail) {
    && Synced(t.db)
    && t.lastId == (if t.sent == [] then t.anchor else t.sent[|t.sent| - 1].id)
    && (forall r :: r in t.db.logs ==> r in t.ever)
    && Ascending(t.sent)
    && (forall r :: r in t.sent ==> r in t.ever && Wanted(q, t, r))
  }

  /** No matching row of the table between anchor and cursor is missing. */
  ghost predicate Complete(q: Stream, t: Tail) {
    forall r :: r in t.db.logs && Wanted(q, t, r) ==> r in t.sent
  }

  /** No new row that matches falls behind the cursor, unless it is a copy of one that was sent. */
  ghost predicate Fits(q: Stream, t: Tail, rows: seq<LogRow>) {
    forall r :: r in rows && Wanted(q, t, r) ==> r in t.sent
  }

  lemma EvalSameLeaf(a: Db, b: Db, e: Expr, t: Tuple, k: nat)
    requires SameMeaning(a, b) && Binds(e) == 0 && !e.Paren? && !e.Not? && !e.Binary? && !e.Between?
    ensures Eval(a, e, t, [], k) == Eval(b, e, t, [], k)
  {
  }

  lemma EvalSameBetween(a: Db, b: Db, e: Expr, t: Tuple, k: nat)
    requires SameMeaning(a, b) && e.Between? && Binds(e) == 0
    requires Eval(a, e.x, t, [], k) == Eval(b, e.x, t, [], k)
    requires Eval(a, e.lo, t, [], k) == Eval(b, e.lo, t, [], k)
    requires Eval(a, e.hi, t, [], k) == Eval(b, e.hi, t, [], k)
    ensures Eval(a, e, t, [], k) == Eval(b, e, t, [], k)
  {
    var v, lo, hi := Eval(a, e.x, t, [], k), Eval(a, e.lo, t, [], k), Eval(a, e.hi, t, [], k);
    assert Binds(e.x) == 0 && Binds(e.lo) == 0;
    assert Truth(a, Compare(Ge, v, lo)) == Truth(b, Compare(Ge, v, lo));
    assert Truth(a, Compare(Le, v, hi)) == Truth(b, Compare(Le, v, hi));
  }

  lemma EvalSameBinary(a: Db, b: Db, e: Expr, t: Tuple, k: nat)
    requires SameMeaning(a, b) && e.Binary? && Binds(e) == 0
    requires Eval(a, e.x, t, [], k) == Eval(b, e.x, t, [], k)
    requires Eval(a, e.y, t, [], k) == Eval(b, e.y, t, [], k)
    ensures Eval(a, e, t, [], k) == Eval(b, e, t, [], k)
  {
    var x, y := Eval(a, e.x, t, [], k), Eval(a, e.y, t, [], k);
    assert Binds(e.x) == 0;
    assert Truth(a, x) == Truth(b, x) && Truth(a, y) == Truth(b, y);
  }

  /** What a bind-free condition says of a row does not depend on the tables around it. */
  lemma {:induction false} EvalSame(a: Db, b: Db, e: Expr, t: Tuple, k: nat)
    requires SameMeaning(a, b) && Binds(e) == 0
    ensures Eval(a, e, t, [], k) == Eval(b, e, t, [], k)
  {
    match e
    case Paren(x) => EvalSame(a, b, x, t, k);
    case Not(x) => EvalSame(a, b, x, t, k);
    case Binary(_, x, y) =>
      EvalSame(a, b, x, t, k);
      EvalSame(a, b, y, t, k);
      EvalSameBinary(a, b, e, t, k);
    case Between(x, lo, hi) =>
      EvalSame(a, b, x, t, k);
      EvalSame(a, b, lo, t, k);
      EvalSame(a, b, hi, t, k);
      EvalSameBetween(a, b, e, t, k);
    case _ => EvalSameLeaf(a, b, e, t, k);
  }

  lemma AskedSame(q: Stream, a: Db, b: Db, r: LogRow)
    requires ValidStream(q) && SameMeaning(a, b)
    ensures Asked(a, q.v.stmt.where, q.search, r) <==> Asked(b, q.v.stmt.where, q.search, r)
  {
    if q.v.stmt.where.Some? { EvalSame(a, b, q.v.stmt.where.value, Tuple(r, None), 0); }
  }

  lemma BeforeIsSmaller(db: Db, a: LogRow, b: LogRow)
    ensures Before(db, ID_ASC, a, b) <==> a.id < b.id
  {
    NumberEvals(db, "id", 0, Tuple(a, None), [], 0);
    NumberEvals(db, "id", 0, Tuple(b, None), [], 0);
    assert ID_ASC[1..] == [];
  }

  lemma {:induction false} AdvanceToLast(lastId: int, page: seq<LogRow>)
    requires Ascending(page) && (page != [] ==> page[0].id > lastId)
    ensures Advance(lastId, page) == (if page == [] then lastId else page[|page| - 1].id)
    decreases |page|
  {
    if page != [] {
      AdvanceToLast(lastId, page[..|page| - 1]);
    }
  }

  /** The poll statement orders the new matching rows by id. */
  lemma PollStatement(q: Stream, t: Tail)
    requires ValidStream(q) && Synced(t.db) && PollQuery(q, t.lastId).Ok?
    ensures var s := PollQuery(q, t.lastId).value.stmt;
            && s.order == ID_ASC && Bound(t.db.limitOf, s.offset) == None
            && Candidates(t.db, s, Args(q.search, StreamAfter(t.lastId, q.limit)))
               == SelectedRows(t.db, t.db.logs, q.v.stmt.where, q.search, StreamAfter(t.lastId, q.limit))
  {
    ComposedMeaning(t.db, q.v, q.search, StreamAfter(t.lastId, q.limit));
  }

  /** A run of the new matching rows in id order, with nothing skipped before its end. */
  ghost predicate Brings(q: Stream, t: Tail, page: seq<LogRow>) {
    && Ascending(page)
    && (forall r :: r in page ==> r in t.db.logs && Asked(t.db, q.v.stmt.where, q.search, r) && r.id > t.lastId)
    && (page != [] ==> forall r | r in t.db.logs && Asked(t.db, q.v.stmt.where, q.search, r) ::
          t.lastId < r.id <= page[|page| - 1].id ==> r in page)
  }

  lemma PrefixBrings(q: Stream, t: Tail, sorted: seq<LogRow>, page: seq<LogRow>)
    requires Ascending(sorted) && page <= sorted
    requires multiset(sorted)
             == multiset(SelectedRows(t.db, t.db.logs, q.v.stmt.where, q.search, StreamAfter(t.lastId, q.limit)))
    ensures Brings(q, t, page)
  {
    var cursor := StreamAfter(t.lastId, q.limit);
    forall r ensures r in sorted <==> r in t.db.logs && Selected(t.db, q.v.stmt.where, q.search, cursor, r) {
      SelectedInTable(t.db, q.v.stmt.where, q.search, cursor, r);
      assert r in multiset(sorted) <==> r in sorted;
    }
    PrefixOfAscending(sorted, page);
  }

  lemma PollBrings(q: Stream, t: Tail, page: seq<LogRow>)
    requires ValidStream(q) && Synced(t.db) && Polled(q, t, page)
    ensures Brings(q, t, page)
  {
    var answer :|
      IsAnswer(t.db, PollQuery(q, t.lastId).value.stmt, Args(q.search, StreamAfter(t.lastId, q.limit)), answer)
      && Capped(answer, page);
    PollStatement(q, t);
    var sorted := AnswerIsPrefix(t.db, PollQuery(q, t.lastId).value.stmt, Args(q.search, StreamAfter(t.lastId, q.limit)), answer);
    SortedAscends(q, t, sorted);
    PrefixBrings(q, t, sorted, page);
  }

  lemma SortedAscends(q: Stream, t: Tail, sorted: seq<LogRow>)
    requires Synced(t.db)
    requires multiset(sorted)
             == multiset(SelectedRows(t.db, t.db.logs, q.v.stmt.where, q.search, StreamAfter(t.lastId, q.limit)))
    requires forall i, j :: 0 <= i < j < |sorted| ==> !Before(t.db, ID_ASC, sorted[j], sorted[i])
    ensures Ascending(sorted)
  {
    forall i, j | 0 <= i < j < |sorted| ensures sorted[i].id < sorted[j].id {
      BeforeIsSmaller(t.db, sorted[j], sorted[i]);
      SortedOnce(t.db, q.v.stmt.where, q.search, StreamAfter(t.lastId, q.limit), sorted, i, j);
    }
  }

  lemma PrefixOfAscending(sorted: seq<LogRow>, page: seq<LogRow>)
    requires Ascending(sorted) && page <= sorted
    ensures Ascending(page)
    ensures forall r :: r in page ==> r in sorted
    ensures forall r :: r in sorted && page != [] && r.id <= page[|page| - 1].id ==> r in page
  {
    forall r | r in sorted && page != [] && r.id <= page[|page| - 1].id ensures r in page {
      var i :| 0 <= i < |sorted| && sorted[i] == r;
      assert i < |page|;
      assert page[i] == r;
    }
  }

  lemma SentAscends(sent: seq<LogRow>, page: seq<LogRow>, lastId: int)
    requires Ascending(sent) && Ascending(page)
    requires forall r :: r in sent ==> r.id <= lastId
    requires forall r :: r in page ==> r.id > lastId
    ensures Ascending(sent + page)
  {
    forall i, j | 0 <= i < j < |sent + page| ensures (sent + page)[i].id < (sent + page)[j].id {
      if i < |sent| <= j { assert sent[i] in sent && page[j - |sent|] in page; }
    }
  }

  lemma UpToLast(page: seq<LogRow>)
    requires Ascending(page)
    ensures forall r :: r in page ==> r.id <= page[|page| - 1].id
  {
    forall r | r in page ensures r.id <= page[|page| - 1].id {
      var i :| 0 <= i < |page| && page[i] == r;
      assert i == |page| - 1 || page[i].id < page[|page| - 1].id;
    }
  }

  /** The state after a poll that brought some rows. */
  function After(t: Tail, page: seq<LogRow>): Tail
    requires page != []
  {
    t.(sent := t.sent + page, lastId := page[|page| - 1].id)
  }

  lemma AnchorBelow(q: Stream, t: Tail)
    requires Inv(q, t)
    ensures t.anchor <= t.lastId
    ensures forall r :: r in t.sent ==> r.id <= t.lastId
  {
    if t.sent != [] { assert t.sent[|t.sent| - 1] in t.sent; }
  }

  lemma PollWanted(q: Stream, t: Tail, page: seq<LogRow>, r: LogRow)
    requires Inv(q, t) && Brings(q, t, page) && page != [] && t.lastId < page[|page| - 1].id
    ensures r in After(t, page).sent ==> r in t.ever && Wanted(q, After(t, page), r)
    ensures Complete(q, t) && r in t.db.logs && Wanted(q, After(t, page), r) ==> r in After(t, page).sent
  {
    UpToLast(page);
    AnchorBelow(q, t);
    if r in t.sent { assert Wanted(q, t, r); }
    if r in t.db.logs && r.id <= t.lastId && Wanted(q, After(t, page), r) { assert Wanted(q, t, r); }
  }

  lemma PollInv(q: Stream, t: Tail, page: seq<LogRow>, t': Tail)
    requires ValidStream(q) && Inv(q, t) && Step(q, t, Poll(page), t')
    ensures Inv(q, t') && (Complete(q, t) ==> Complete(q, t'))
  {
    if page == [] {
      assert t' == t;
    } else {
      PollBrings(q, t, page);
      assert page[0] in page && page[|page| - 1] in page;
      AdvanceToLast(t.lastId, page);
      assert t' == After(t, page);
      AnchorBelow(q, t);
      SentAscends(t.sent, page, t.lastId);
      forall r
        ensures r in t'.sent ==> r in t.ever && Wanted(q, t', r)
        ensures Complete(q, t) && r in t.db.logs && Wanted(q, t', r) ==> r in t'.sent
      {
        PollWanted(q, t, page, r);
      }
    }
  }

  /** Inserts and deletes never spoil what was sent; an insert keeps the tail complete exactly when it fits. */
  lemma TableInv(q: Stream, t: Tail, a: Action, t': Tail)
    requires ValidStream(q) && Inv(q, t) && !a.Poll? && Step(q, t, a, t')
    ensures Inv(q, t')
    ensures Complete(q, t) ==> (Complete(q, t') <==> (a.Insert? ==> Fits(q, t, a.rows)))
  {
    forall r ensures Wanted(q, t', r) <==> Wanted(q, t, r) {
      AskedSame(q, t.db, t'.db, r);
    }
    if a.Insert? {
      assert forall r :: r in t'.db.logs <==> r in t.db.logs || r in a.rows;
    }
  }

  lemma {:induction false} RunInv(q: Stream, ts: seq<Tail>, actions: seq<Action>, n: nat)
    requires ValidStream(q) && Run(q, ts, actions) && n < |ts|
    ensures Inv(q, ts[n])
  {
    if n > 0 {
      RunInv(q, ts, actions, n - 1);
      if actions[n - 1].Poll? {
        PollInv(q, ts[n - 1], actions[n - 1].page, ts[n]);
      } else {
        TableInv(q, ts[n - 1], actions[n - 1], ts[n]);
      }
    }
  }

  /** Every insert of the run fits. */
  ghost predicate AllFit(q: Stream, ts: seq<Tail>, actions: seq<Action>, n: nat)
    requires |ts| == |actions| + 1 && n <= |actions|
  {
    forall i :: 0 <= i < n && actions[i].Insert? ==> Fits(q, ts[i], actions[i].rows)
  }

  lemma {:induction false} RunComplete(q: Stream, ts: seq<Tail>, actions: seq<Action>, n: nat)
    requires ValidStream(q) && Run(q, ts, actions) && n < |ts| && AllFit(q, ts, actions, n)
    ensures Complete(q, ts[n])
  {
    if n > 0 {
      RunComplete(q, ts, actions, n - 1);
      RunInv(q, ts, actions, n - 1);
      if actions[n - 1].Poll? {
        PollInv(q, ts[n - 1], actions[n - 1].page, ts[n]);
      } else {
        TableInv(q, ts[n - 1], actions[n - 1], ts[n]);
      }
    }
  }

  /**
    In every run, whatever ids the table hands out, the rows sent are in id order, each
    once, and all of them match and lie between anchor and cursor.
   */
  lemma LiveTailSound(q: Stream, ts: seq<Tail>, actions: seq<Action>, n: nat)
    requires ValidStream(q) && Run(q, ts, actions) && n < |ts|
    ensures Ascending(ts[n].sent)
    ensures forall r :: r in ts[n].sent ==> r in ts[n].ever && Wanted(q, ts[n], r)
  {
    RunInv(q, ts, actions, n);
  }

  /** A run never misses a matching row between anchor and cursor if and only if every insert fits. */
  lemma LiveTailExactIff(q: Stream, ts: seq<Tail>, actions: seq<Action>)
    requires ValidStream(q) && Run(q, ts, actions)
    ensures (forall n :: 0 <= n < |ts| ==> Complete(q, ts[n])) <==> AllFit(q, ts, actions, |actions|)
  {
    if AllFit(q, ts, actions, |actions|) {
      forall n | 0 <= n < |ts| ensures Complete(q, ts[n]) { RunComplete(q, ts, actions, n); }
    }
    if forall n :: 0 <= n < |ts| ==> Complete(q, ts[n]) {
      forall i | 0 <= i < |actions| && actions[i].Insert? ensures Fits(q, ts[i], actions[i].rows) {
        RunInv(q, ts, actions, i);
        assert Complete(q, ts[i]) && Complete(q, ts[i + 1]);
        TableInv(q, ts[i], actions[i], ts[i + 1]);
      }
    }
  }

  /** Rows with ids above the cursor fit, also ids that were used before. */
  lemma LiveTailExact(q: Stream, ts: seq<Tail>, actions: seq<Action>, n: nat)
    requires ValidStream(q) && Run(q, ts, actions) && n < |ts|
    requires forall i :: 0 <= i < n && actions[i].Insert? ==> forall r :: r in actions[i].rows ==> r.id > ts[i].lastId
    ensures forall r :: r in ts[n].db.logs && Wanted(q, ts[n], r) ==> r in ts[n].sent
  {
    RunComplete(q, ts, actions, n);
  }

  /** The matching rows between anchor and cursor, in table order. */
  function WantedRows(q: Stream, t: Tail, rows: seq<LogRow>): seq<LogRow> {
    if rows == [] then []
    else (if Wanted(q, t, rows[0]) then [rows[0]] else []) + WantedRows(q, t, rows[1..])
  }

  lemma {:induction false} WantedRowsAre(q: Stream, t: Tail, rows: seq<LogRow>)
    requires Ascending(rows)
    ensures Ascending(WantedRows(q, t, rows))
    ensures forall r :: r in WantedRows(q, t, rows) <==> r in rows && Wanted(q, t, r)
  {
    if rows != [] {
      WantedRowsAre(q, t, rows[1..]);
      forall r | r in WantedRows(q, t, rows[1..]) ensures rows[0].id < r.id {
        var i :| 0 <= i < |rows[1..]| && rows[1..][i] == r;
      }
    }
  }

  /** Two lists in id order with the same rows are the same list. */
  lemma {:induction false} AscendingUnique(xs: seq<LogRow>, ys: seq<LogRow>)
    requires Ascending(xs) && Ascending(ys)
    requires forall r :: r in xs <==> r in ys
    ensures xs == ys
  {
    if xs == [] {
      HasMember(ys);
    } else {
      assert xs[0] in ys;
      assert ys[0] in xs;
      assert xs[0] == ys[0];
      forall r ensures r in xs[1..] <==> r in ys[1..] {
        assert r in xs[1..] ==> r in xs && r.id > xs[0].id;
        assert r in ys[1..] ==> r in ys && r.id > ys[0].id;
      }
      AscendingUnique(xs[1..], ys[1..]);
    }
  }

  /**
    While nothing has been deleted and every insert fits, what was sent is exactly the
    matching rows past the anchor, up to the cursor; `table` is the table in id order.
   */
  lemma LiveTailComplete(q: Stream, ts: seq<Tail>, actions: seq<Action>, n: nat, table: seq<LogRow>)
    requires ValidStream(q) && Run(q, ts, actions) && n < |ts| && AllFit(q, ts, actions, n)
    requires ts[n].db.logs == ts[n].ever
    requires Ascending(table) && multiset(table) == multiset(ts[n].db.logs)
    ensures ts[n].sent == WantedRows(q, ts[n], table)
  {
    RunInv(q, ts, actions, n);
    RunComplete(q, ts, actions, n);
    forall r ensures r in table <==> r in ts[n].db.logs {
      assert r in multiset(table) <==> r in multiset(ts[n].db.logs);
    }
    WantedRowsAre(q, ts[n], table);
    AscendingUnique(ts[n].sent, WantedRows(q, ts[n], table));
  }

  // Progress.

  /** The matching rows the stream has still to send. */
  function Waiting(q: Stream, t: Tail): seq<LogRow> {
    SelectedRows(t.db, t.db.logs, q.v.stmt.where, q.search, StreamAfter(t.lastId, q.limit))
  }

  lemma PollLimit(q: Stream, t: Tail)
    requires ValidStream(q) && q.limit >= 0 && PollQuery(q, t.lastId).Ok?
    ensures Bound(t.db.limitOf, PollQuery(q, t.lastId).value.stmt.limit) == Some(q.limit)
  {
    AtoiItoa(q.limit);
    assert PollQuery(q, t.lastId).value.stmt.limit == Some(NumberLit(Itoa(q.limit)));
  }

  /** A poll with a limit above zero brings some row whenever one is waiting. */
  lemma PollIsFront(q: Stream, t: Tail, page: seq<LogRow>) returns (rest: seq<LogRow>)
    requires ValidStream(q) && q.limit > 0 && Synced(t.db) && Polled(q, t, page)
    ensures Ascending(page + rest) && multiset(page + rest) == multiset(Waiting(q, t))
    ensures page == [] ==> rest == []
  {
    var s, args := PollQuery(q, t.lastId).value.stmt, Args(q.search, StreamAfter(t.lastId, q.limit));
    var answer :| IsAnswer(t.db, s, args, answer) && Capped(answer, page);
    PollStatement(q, t);
    PollLimit(q, t);
    var sorted := AnswerIsPrefix(t.db, s, args, answer);
    SortedAscends(q, t, sorted);
    rest := sorted[|page|..];
    assert page + rest == sorted;
  }

  lemma BehindCut(page: seq<LogRow>, rest: seq<LogRow>, r: LogRow)
    requires Ascending(page + rest) && page != []
    ensures multiset(rest)[r] == if r.id > page[|page| - 1].id then multiset(page + rest)[r] else 0
  {
    var all, last := page + rest, |page| - 1;
    assert all[last] == page[last];
    if r in multiset(page) {
      var i :| 0 <= i < |page| && page[i] == r;
      assert all[i] == r;
    }
    if r in multiset(rest) {
      var i :| 0 <= i < |rest| && rest[i] == r;
      assert all[|page| + i] == r;
    }
  }

  lemma RestWaits(q: Stream, t: Tail, page: seq<LogRow>, rest: seq<LogRow>, r: LogRow)
    requires page != [] && Ascending(page + rest) && multiset(page + rest) == multiset(Waiting(q, t))
    requires page[|page| - 1].id > t.lastId
    ensures multiset(rest)[r] == multiset(Waiting(q, After(t, page)))[r]
  {
    BehindCut(page, rest, r);
    SelectedCount(t.db, t.db.logs, q.v.stmt.where, q.search, StreamAfter(t.lastId, q.limit), r);
    SelectedCount(t.db, t.db.logs, q.v.stmt.where, q.search, StreamAfter(page[|page| - 1].id, q.limit), r);
  }

  /** What waits after a poll is what waited before it, less the page. */
  lemma PollSplits(q: Stream, t: Tail, page: seq<LogRow>)
    requires ValidStream(q) && q.limit > 0 && Synced(t.db) && Polled(q, t, page) && page != []
    ensures page[|page| - 1].id > t.lastId
    ensures multiset(Waiting(q, t)) == multiset(page) + multiset(Waiting(q, After(t, page)))
  {
    var rest := PollIsFront(q, t, page);
    var last := page[|page| - 1];
    assert last in multiset(page + rest);
    SelectedInTable(t.db, q.v.stmt.where, q.search, StreamAfter(t.lastId, q.limit), last);
    forall r ensures multiset(rest)[r] == multiset(Waiting(q, After(t, page)))[r] {
      RestWaits(q, t, page, rest, r);
    }
    assert multiset(rest) == multiset(Waiting(q, After(t, page)));
  }

  /** A poll comes back empty if and only if no matching row is above the cursor; any other leaves fewer waiting. */
  lemma PollShrinks(q: Stream, t: Tail, page: seq<LogRow>, t': Tail)
    requires ValidStream(q) && q.limit > 0 && Inv(q, t) && Step(q, t, Poll(page), t')
    ensures page == [] <==> forall r | r in t.db.logs && Asked(t.db, q.v.stmt.where, q.search, r) :: r.id <= t.lastId
    ensures |Waiting(q, t')| == |Waiting(q, t)| - |page|
    ensures page == [] ==> Waiting(q, t) == []
  {
    NoneWaiting(q, t);
    if page == [] {
      var rest := PollIsFront(q, t, page);
      assert |multiset(Waiting(q, t))| == 0;
      assert t' == t;
    } else {
      PollSplits(q, t, page);
      PollBrings(q, t, page);
      assert page[0] in page;
      AdvanceToLast(t.lastId, page);
      assert t' == After(t, page);
      assert |multiset(Waiting(q, t))| == |multiset(page)| + |multiset(Waiting(q, t'))|;
    }
  }

  lemma NoneWaiting(q: Stream, t: Tail)
    ensures Waiting(q, t) == []
            <==> forall r | r in t.db.logs && Asked(t.db, q.v.stmt.where, q.search, r) :: r.id <= t.lastId
  {
    HasMember(Waiting(q, t));
    forall r ensures r in Waiting(q, t)
                     <==> r in t.db.logs && Asked(t.db, q.v.stmt.where, q.search, r) && r.id > t.lastId {
      SelectedInTable(t.db, q.v.stmt.where, q.search, StreamAfter(t.lastId, q.limit), r);
    }
  }

  lemma {:induction false} PollsCatchUp(q: Stream, ts: seq<Tail>, actions: seq<Action>, m: nat, n: nat)
    requires ValidStream(q) && q.limit > 0 && Run(q, ts, actions) && m <= n < |ts|
    requires forall i :: m <= i < n ==> actions[i].Poll?
    ensures Waiting(q, ts[n]) == [] || |Waiting(q, ts[n])| <= |Waiting(q, ts[m])| - (n - m)
    ensures ts[n].db == ts[m].db
    decreases n - m
  {
    if m < n {
      PollsCatchUp(q, ts, actions, m, n - 1);
      RunInv(q, ts, actions, n - 1);
      PollShrinks(q, ts[n - 1], actions[n - 1].page, ts[n]);
    }
  }

  /**
    As many polls in a row as rows are waiting send them all: every matching row of the
    table past the anchor has then been sent, if the inserts before fitted.
   */
  lemma LiveTailCatchesUp(q: Stream, ts: seq<Tail>, actions: seq<Action>, m: nat, n: nat)
    requires ValidStream(q) && q.limit > 0 && Run(q, ts, actions) && m <= n < |ts| && AllFit(q, ts, actions, n)
    requires (forall i :: m <= i < n ==> actions[i].Poll?) && n - m >= |Waiting(q, ts[m])|
    ensures forall r | r in ts[n].db.logs && Asked(ts[n].db, q.v.stmt.where, q.search, r) && r.id > ts[n].anchor ::
              r in ts[n].sent
  {
    PollsCatchUp(q, ts, actions, m, n);
    NoneWaiting(q, ts[n]);
    RunComplete(q, ts, actions, n);
  }

  lemma {:induction false} AnchorStays(q: Stream, ts: seq<Tail>, actions: seq<Action>, n: nat)
    requires Run(q, ts, actions) && n < |ts|
    ensures ts[n].anchor == ts[0].anchor
  {
    if n > 0 {
      AnchorStays(q, ts, actions, n - 1);
      assert Step(q, ts[n - 1], actions[n - 1], ts[n]);
    }
  }

  /** A stream never sends a row that was in the table when it started. */
  lemma NoBackfill(q: Stream, ts: seq<Tail>, actions: seq<Action>, n: nat, r: LogRow)
    requires ValidStream(q) && Run(q, ts, actions) && n < |ts| && r in ts[0].db.logs
    ensures r !in ts[n].sent
  {
    RunInv(q, ts, actions, n);
    AnchorStays(q, ts, actions, n);
    assert r in ts[n].sent ==> Wanted(q, ts[n], r);
  }

  /** And skips nothing newer: a matching row with an id above all that were there is sent once the polls have caught up. */
  lemma SendsTheNew(q: Stream, ts: seq<Tail>, actions: seq<Action>, m: nat, n: nat, r: LogRow)
    requires ValidStream(q) && q.limit > 0 && Run(q, ts, actions) && m <= n < |ts| && AllFit(q, ts, actions, n)
    requires (forall i :: m <= i < n ==> actions[i].Poll?) && n - m >= |Waiting(q, ts[m])|
    requires r in ts[n].db.logs && Asked(ts[n].db, q.v.stmt.where, q.search, r)
    requires r.id > 0 && forall x :: x in ts[0].db.logs ==> x.id < r.id
    ensures r in ts[n].sent
  {
    AnchorStays(q, ts, actions, n);
    LiveTailCatchesUp(q, ts, actions, m, n);
  }

  // An insert that does not fit.

  /** A database with one log, indexed. */
  function WithLog(db: Db, r: LogRow): Db {
    db.(logs := [r], fts := [FtsRow(r.id, r.raw)])
  }

  /** The first poll after a row came in brings that row. */
  lemma FirstPoll(q: Stream, t: Tail, a: LogRow)
    requires ValidStream(q) && q.limit > 0 && Synced(t.db)
    requires t.db.logs == [a] && a.id > t.lastId && Asked(t.db, q.v.stmt.where, q.search, a)
    ensures Polled(q, t, [a])
  {
    var s, args := PollQuery(q, t.lastId).value.stmt, Args(q.search, StreamAfter(t.lastId, q.limit));
    PollStatement(q, t);
    assert Candidates(t.db, s, args) == [a];
    AtoiItoa(q.limit);
    assert Bound(t.db.limitOf, s.limit) == Some(q.limit);
    assert SortedCandidates(t.db, s, args, [a]);
    assert [a] == Slice([a], Bound(t.db.limitOf, s.limit), Bound(t.db.limitOf, s.offset));
    assert IsAnswer(t.db, s, args, [a]) && Capped([a], [a]);
  }

  lemma RunOn(q: Stream, ts: seq<Tail>, actions: seq<Action>, a: Action, t: Tail)
    returns (ts': seq<Tail>, actions': seq<Action>)
    requires Run(q, ts, actions) && Step(q, ts[|ts| - 1], a, t)
    ensures Run(q, ts', actions') && ts' == ts + [t]
  {
    ts', actions' := ts + [t], actions + [a];
    forall i | 0 <= i < |actions'| ensures Step(q, ts'[i], actions'[i], ts'[i + 1]) {
      if i < |actions| { assert Step(q, ts[i], actions[i], ts[i + 1]); }
    }
  }

  lemma FirstInsert(q: Stream, t: Tail, r: LogRow)
    requires t.db.logs == []
    ensures Step(q, t, Insert(WithLog(t.db, r), [r]), t.(db := WithLog(t.db, r), ever := t.ever + [r]))
  {
    assert t.db.logs + [r] == [r];
    assert FtsRow(r.id, r.raw) in WithLog(t.db, r).fts;
  }

  lemma FirstPollSteps(q: Stream, t: Tail, a: LogRow)
    requires Polled(q, t, [a]) && a.id > t.lastId && t.sent == []
    ensures Step(q, t, Poll([a]), t.(sent := [a], lastId := a.id))
  {
    AdvanceToLast(t.lastId, [a]);
    assert [] + [a] == [a];
  }

  /**
    The table hands out the id of a deleted row again: the newest row is sent and then
    deleted, and the next row gets its id. It matches and lies
    behind the cursor, where no poll looks.
   */
  lemma ReusedIdMissed(q: Stream, db: Db, a: LogRow, b: LogRow) returns (ts: seq<Tail>, actions: seq<Action>)
    requires ValidStream(q) && q.limit > 0 && db.logs == [] && db.fts == []
    requires a != b && a.id == b.id > 0
    requires Asked(db, q.v.stmt.where, q.search, a) && Asked(db, q.v.stmt.where, q.search, b)
    ensures Run(q, ts, actions) && |ts| == 5
    ensures b in ts[4].db.logs && Wanted(q, ts[4], b) && b !in ts[4].sent
  {
    var t0 := Tail(db, [], 0, 0, []);
    var t1 := t0.(db := WithLog(db, a), ever := [] + [a]);
    var t2 := t1.(sent := [a], lastId := a.id);
    var t3 := t2.(db := db);
    var t4 := t3.(db := WithLog(db, b), ever := t3.ever + [b]);
    AskedSame(q, db, t1.db, a);
    AskedSame(q, db, t4.db, b);
    FirstInsert(q, t0, a);
    FirstPoll(q, t1, a);
    FirstPollSteps(q, t1, a);
    assert Step(q, t2, Trim(db), t3);
    FirstInsert(q, t3, b);
    ts, actions := RunOn(q, [t0], [], Insert(t1.db, [a]), t1);
    ts, actions := RunOn(q, ts, actions, Poll([a]), t2);
    ts, actions := RunOn(q, ts, actions, Trim(db), t3);
    ts, actions := RunOn(q, ts, actions, Insert(t4.db, [b]), t4);
  }
}
