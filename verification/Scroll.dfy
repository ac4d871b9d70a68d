/** Infinite scroll: repeating the paginated query enumerates the rows below a cursor exactly once. */
module Scroll {
  import opened Common
  import opened Text
  import opened Sql
  import opened Rewrite
  import opened Compose
  import opened Execute

  /** A request: the vetted query, the search, and the database it runs on. */
  datatype Request = Request(db: Db, v: Vetted, search: Search, size: int)

  ghost predicate ValidRequest(q: Request) {
    && Synced(q.db)
    && q.v.stmt.source == Some(Logs)
    && (q.v.stmt.where.Some? ==> Binds(q.v.stmt.where.value) == 0)
    && q.v.shape.LogViewer? && !q.v.compound
    && 0 < q.size <= MAX_ROWS
    && (forall i :: 0 <= i < |q.db.logs| ==> IsInt64(q.db.logs[i].timestamp) && IsInt64(q.db.logs[i].id))
  }

  /** The statement of one page request. */
  function PageQuery(q: Request, ts: int, id: int): Result<Vetted> {
    Composed(q.v, q.search, PageBefore(ts, id, q.size))
  }

  /** `page` is what one request may come back with, byte cap included. */
  ghost predicate Fetched(q: Request, ts: int, id: int, page: seq<LogRow>) {
    && PageQuery(q, ts, id).Ok?
    && exists answer ::
         IsAnswer(q.db, PageQuery(q, ts, id).value.stmt, Args(q.search, PageBefore(ts, id, q.size)), answer)
         && Capped(answer, page)
  }

  /** The rows the scroll has still to show below a cursor. */
  function Remaining(q: Request, ts: int, id: int): seq<LogRow> {
    SelectedRows(q.db, q.db.logs, q.v.stmt.where, q.search, PageBefore(ts, id, q.size))
  }

  predicate Descending(rows: seq<LogRow>) {
    forall i, j :: 0 <= i < j < |rows| ==> Older(rows[j], rows[i].timestamp, rows[i].id)
  }

  lemma BeforeIsNewer(db: Db, a: LogRow, b: LogRow)
    ensures Before(db, NEWEST_FIRST, a, b) <==> Older(b, a.timestamp, a.id)
  {
    NumberEvals(db, "timestamp", 0, Tuple(a, None), [], 0);
    NumberEvals(db, "timestamp", 0, Tuple(b, None), [], 0);
    NumberEvals(db, "id", 0, Tuple(a, None), [], 0);
    NumberEvals(db, "id", 0, Tuple(b, None), [], 0);
    var rest := NEWEST_FIRST[1..];
    assert rest == [OrderTerm(Ident("id"), true)] && rest[1..] == [];
    assert Before(db, rest, a, b) <==> a.id > b.id;
  }

  /** The sorted candidates come out strictly newest first. */
  lemma SortedDescends(q: Request, ts: int, id: int, sorted: seq<LogRow>)
    requires Synced(q.db) && multiset(sorted) == multiset(Remaining(q, ts, id))
    requires forall i, j :: 0 <= i < j < |sorted| ==> !Before(q.db, NEWEST_FIRST, sorted[j], sorted[i])
    ensures Descending(sorted)
  {
    forall i, j | 0 <= i < j < |sorted| ensures Older(sorted[j], sorted[i].timestamp, sorted[i].id) {
      BeforeIsNewer(q.db, sorted[j], sorted[i]);
      SortedOnce(q.db, q.v.stmt.where, q.search, PageBefore(ts, id, q.size), sorted, i, j);
    }
  }

  /** The page statement orders the remaining rows newest first and takes the first `size`. */
  lemma PageStatement(q: Request, ts: int, id: int)
    requires ValidRequest(q) && IsInt64(ts) && IsInt64(id) && PageQuery(q, ts, id).Ok?
    ensures var s := PageQuery(q, ts, id).value.stmt;
            && s.order == NEWEST_FIRST && Bound(q.db.limitOf, s.limit) == Some(q.size) && Bound(q.db.limitOf, s.offset) == None
            && Candidates(q.db, s, Args(q.search, PageBefore(ts, id, q.size))) == Remaining(q, ts, id)
  {
    ComposedMeaning(q.db, q.v, q.search, PageBefore(ts, id, q.size));
    AtoiItoa(q.size);
  }

  /** A fetched page is a prefix of the remaining rows, newest first, and empty only when none remain. */
  lemma FetchedIsPrefix(q: Request, ts: int, id: int, page: seq<LogRow>) returns (rest: seq<LogRow>)
    requires ValidRequest(q) && IsInt64(ts) && IsInt64(id) && Fetched(q, ts, id, page)
    ensures Descending(page + rest)
    ensures multiset(page + rest) == multiset(Remaining(q, ts, id))
    ensures page == [] ==> rest == []
  {
    var answer :|
      IsAnswer(q.db, PageQuery(q, ts, id).value.stmt, Args(q.search, PageBefore(ts, id, q.size)), answer)
      && Capped(answer, page);
    PageStatement(q, ts, id);
    var sorted := AnswerIsPrefix(q.db, PageQuery(q, ts, id).value.stmt, Args(q.search, PageBefore(ts, id, q.size)), answer);
    SortedDescends(q, ts, id, sorted);
    rest := sorted[|page|..];
    assert page + rest == sorted;
  }

  /** The cursor a page hands on: its oldest row's. */
  function NextTs(page: seq<LogRow>): int
    requires page != []
  {
    page[|page| - 1].timestamp
  }

  function NextId(page: seq<LogRow>): int
    requires page != []
  {
    page[|page| - 1].id
  }

  /** The view's cursor, the smallest of the page, is that of the last row fetched. */
  lemma OldestIsLast(page: seq<LogRow>, next: (int, int))
    requires Descending(page) && page != []
    requires exists r :: r in page && next == (r.timestamp, r.id)
    requires forall r :: r in page ==> !Older(r, next.0, next.1)
    ensures next == (NextTs(page), NextId(page))
  {
    var r :| r in page && next == (r.timestamp, r.id);
    var i :| 0 <= i < |page| && page[i] == r;
    assert page[|page| - 1] in page;
  }

  /** In a descending list cut after `last`, older than `last` means behind the cut. */
  lemma CutCounts(page: seq<LogRow>, rest: seq<LogRow>, r: LogRow)
    requires Descending(page + rest) && page != []
    ensures multiset(page)[r] == (if Older(r, NextTs(page), NextId(page)) then 0 else multiset(page + rest)[r])
    ensures multiset(rest)[r] == (if Older(r, NextTs(page), NextId(page)) then multiset(page + rest)[r] else 0)
  {
    var all, last := page + rest, |page| - 1;
    assert all[last] == page[last];
    if r in multiset(page) {
      var i :| 0 <= i < |page| && page[i] == r;
      assert all[i] == r;
      assert i == last || Older(all[last], all[i].timestamp, all[i].id);
    }
    if r in multiset(rest) {
      var i :| 0 <= i < |rest| && rest[i] == r;
      assert all[|page| + i] == r;
    }
  }

  /** What remains after a page is what remained before it, less the page. */
  lemma PageSplits(q: Request, ts: int, id: int, page: seq<LogRow>)
    requires ValidRequest(q) && IsInt64(ts) && IsInt64(id) && Fetched(q, ts, id, page) && page != []
    ensures multiset(Remaining(q, ts, id)) == multiset(page) + multiset(Remaining(q, NextTs(page), NextId(page)))
    ensures IsInt64(NextTs(page)) && IsInt64(NextId(page))
    ensures Descending(page)
  {
    var rest := FetchedIsPrefix(q, ts, id, page);
    assert Descending(page) by {
      assert forall i :: 0 <= i < |page| ==> (page + rest)[i] == page[i];
    }
    var oldest := page[|page| - 1];
    assert oldest in multiset(page + rest);
    SelectedInTable(q.db, q.v.stmt.where, q.search, PageBefore(ts, id, q.size), oldest);
    forall r ensures multiset(rest)[r] == multiset(Remaining(q, NextTs(page), NextId(page)))[r] {
      RestCount(q, ts, id, page, rest, r);
    }
    assert multiset(rest) == multiset(Remaining(q, NextTs(page), NextId(page)));
  }

  lemma RestCount(q: Request, ts: int, id: int, page: seq<LogRow>, rest: seq<LogRow>, r: LogRow)
    requires page != [] && Descending(page + rest)
    requires multiset(page + rest) == multiset(Remaining(q, ts, id))
    requires page[|page| - 1] in Remaining(q, ts, id)
    ensures multiset(rest)[r] == multiset(Remaining(q, NextTs(page), NextId(page)))[r]
  {
    CutCounts(page, rest, r);
    SelectedInTable(q.db, q.v.stmt.where, q.search, PageBefore(ts, id, q.size), page[|page| - 1]);
    SelectedCount(q.db, q.db.logs, q.v.stmt.where, q.search, PageBefore(ts, id, q.size), r);
    SelectedCount(q.db, q.db.logs, q.v.stmt.where, q.search, PageBefore(NextTs(page), NextId(page), q.size), r);
  }

  /** A whole scroll: each page is fetched at the cursor of the one before, the last one comes back empty. */
  ghost predicate IsScroll(q: Request, ts: int, id: int, pages: seq<seq<LogRow>>)
    decreases |pages|
  {
    && pages != []
    && Fetched(q, ts, id, pages[0])
    && (if |pages| == 1 then pages[0] == []
        else pages[0] != [] && IsScroll(q, NextTs(pages[0]), NextId(pages[0]), pages[1..]))
  }

  lemma DescendingAppend(xs: seq<LogRow>, ys: seq<LogRow>)
    requires Descending(xs) && Descending(ys) && xs != []
    requires forall y :: y in ys ==> Older(y, NextTs(xs), NextId(xs))
    ensures Descending(xs + ys)
  {
    forall i, j | 0 <= i < j < |xs + ys|
      ensures Older((xs + ys)[j], (xs + ys)[i].timestamp, (xs + ys)[i].id)
    {
      if i < |xs| <= j {
        assert ys[j - |xs|] in ys;
        assert i == |xs| - 1 || Older(xs[|xs| - 1], xs[i].timestamp, xs[i].id);
      }
    }
  }

  /**
    The pages of a scroll, put together, are the matching rows below the start
    cursor: strictly newest first, each exactly once, none missing.
   */
  lemma {:induction false} ScrollExact(q: Request, ts: int, id: int, pages: seq<seq<LogRow>>)
    requires ValidRequest(q) && IsInt64(ts) && IsInt64(id) && IsScroll(q, ts, id, pages)
    ensures multiset(Concat(pages)) == multiset(Remaining(q, ts, id))
    ensures Descending(Concat(pages))
    decreases |pages|
  {
    if |pages| == 1 {
      var rest := FetchedIsPrefix(q, ts, id, pages[0]);
      assert Concat(pages) == [];
    } else {
      var page, more := pages[0], Concat(pages[1..]);
      PageSplits(q, ts, id, page);
      ScrollExact(q, NextTs(page), NextId(page), pages[1..]);
      forall y | y in more ensures Older(y, NextTs(page), NextId(page)) {
        assert y in multiset(more);
        SelectedInTable(q.db, q.v.stmt.where, q.search, PageBefore(NextTs(page), NextId(page), q.size), y);
      }
      DescendingAppend(page, more);
    }
  }

  /** Every non-empty page shrinks what remains by its own length, so a scroll cannot go on for ever. */
  lemma ScrollShrinks(q: Request, ts: int, id: int, page: seq<LogRow>)
    requires ValidRequest(q) && IsInt64(ts) && IsInt64(id) && Fetched(q, ts, id, page)
    ensures page == [] <==> Remaining(q, ts, id) == []
    ensures page != [] ==> |Remaining(q, NextTs(page), NextId(page))| == |Remaining(q, ts, id)| - |page|
  {
    if page == [] {
      var rest := FetchedIsPrefix(q, ts, id, page);
      assert |multiset(Remaining(q, ts, id))| == 0;
    } else {
      PageSplits(q, ts, id, page);
      assert |multiset(Remaining(q, ts, id))| == |multiset(page)| + |multiset(Remaining(q, NextTs(page), NextId(page)))|;
    }
  }

  // Scrolls exist, and they end.

  lemma {:induction false} CanSort(rows: seq<LogRow>) returns (sorted: seq<LogRow>)
    ensures InOrder(true, sorted) && multiset(sorted) == multiset(rows)
  {
    if rows == [] {
      sorted := [];
    } else {
      var rest := CanSort(rows[1..]);
      PutInSorts(true, rest, rows[0]);
      PutInKeeps(true, rest, rows[0]);
      sorted := PutIn(true, rest, rows[0]);
      assert rows == [rows[0]] + rows[1..];
    }
  }

  /** Every page request can be answered. */
  lemma CanFetch(q: Request, ts: int, id: int) returns (page: seq<LogRow>)
    requires ValidRequest(q) && IsInt64(ts) && IsInt64(id)
    ensures Fetched(q, ts, id, page)
  {
    assert PageQuery(q, ts, id).Ok?;
    var s, args := PageQuery(q, ts, id).value.stmt, Args(q.search, PageBefore(ts, id, q.size));
    PageStatement(q, ts, id);
    var sorted := CanSort(Remaining(q, ts, id));
    forall i, j | 0 <= i < j < |sorted| ensures !Before(q.db, s.order, sorted[j], sorted[i]) {
      BeforeIsNewer(q.db, sorted[j], sorted[i]);
      assert Ahead(true, sorted[i], sorted[j]);
    }
    assert SortedCandidates(q.db, s, args, sorted);
    page := Slice(sorted, Bound(q.db.limitOf, s.limit), Bound(q.db.limitOf, s.offset));
    assert IsAnswer(q.db, s, args, page) && Capped(page, page);
  }

  /** Every request has a scroll that reaches the end. */
  lemma {:induction false} ScrollExists(q: Request, ts: int, id: int) returns (pages: seq<seq<LogRow>>)
    requires ValidRequest(q) && IsInt64(ts) && IsInt64(id)
    ensures IsScroll(q, ts, id, pages)
    decreases |Remaining(q, ts, id)|
  {
    var page := CanFetch(q, ts, id);
    ScrollShrinks(q, ts, id, page);
    if page == [] {
      pages := [page];
    } else {
      PageSplits(q, ts, id, page);
      var rest := ScrollExists(q, NextTs(page), NextId(page));
      pages := [page] + rest;
      assert pages[1..] == rest;
    }
  }

  /** No scroll takes more pages than there are rows left, and the empty one. */
  lemma {:induction false} ScrollEnds(q: Request, ts: int, id: int, pages: seq<seq<LogRow>>)
    requires ValidRequest(q) && IsInt64(ts) && IsInt64(id) && IsScroll(q, ts, id, pages)
    ensures |pages| <= |Remaining(q, ts, id)| + 1
    decreases |pages|
  {
    if |pages| > 1 {
      ScrollShrinks(q, ts, id, pages[0]);
      PageSplits(q, ts, id, pages[0]);
      ScrollEnds(q, NextTs(pages[0]), NextId(pages[0]), pages[1..]);
    }
  }
}
