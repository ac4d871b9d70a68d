/** Running a query: the scan loop with its row and byte caps, and the view built from the rows. */
module Execute {
  import opened Common
  import opened Sql
  import opened Compose

  const MAX_RESULT_BYTES := 64 * 1024 * 1024

  /** What a caller may rely on: a prefix of the answer, and not an empty one unless the answer is. */
  ghost predicate Capped<T>(answer: seq<T>, res: seq<T>) {
    res <= answer && (answer != [] ==> res != [])
  }

  /** Copies rows until one of the caps is reached; a row's size is the bytes of its text columns. */
  method Execute<T>(answer: seq<T>, size: T -> nat) returns (res: seq<T>, truncated: bool)
    ensures Capped(answer, res)
    ensures |res| <= 10_000
    ensures res != [] ==> Total(res[..|res| - 1], size) < 67_108_864
    ensures |res| < |answer| ==> |res| == 10_000 || Total(res, size) >= 67_108_864
    ensures truncated <==> |res| < |answer| || Total(res, size) >= 67_108_864
  {
    res, truncated := [], false;
    var resultBytes := 0;
    for i := 0 to |answer|
      invariant res == answer[..i] && |res| <= MAX_ROWS && !truncated
      invariant resultBytes == Total(res, size) < MAX_RESULT_BYTES
      invariant res != [] ==> Total(res[..|res| - 1], size) < MAX_RESULT_BYTES
    {
      if |res| >= MAX_ROWS {
        truncated := true;
        break;
      }
      TotalAppend(res, [answer[i]], size);
      resultBytes := resultBytes + size(answer[i]);
      ghost var before := res;
      res := res + [answer[i]];
      assert res[..|res| - 1] == before;
      if resultBytes >= MAX_RESULT_BYTES {
        truncated := true;
        break;
      }
    }
  }

  /** `a` may stand before `b`, newest or oldest row first. */
  predicate Ahead(newest: bool, a: LogRow, b: LogRow) {
    if newest then NotOlder(a, b) else NotOlder(b, a)
  }

  predicate InOrder(newest: bool, rows: seq<LogRow>) {
    forall i, j :: 0 <= i < j < |rows| ==> Ahead(newest, rows[i], rows[j])
  }

  /** A row put into its place, before the first row that may follow it. */
  function PutIn(newest: bool, sorted: seq<LogRow>, r: LogRow): seq<LogRow> {
    if sorted == [] then [r]
    else if Ahead(newest, r, sorted[0]) then [r] + sorted
    else [sorted[0]] + PutIn(newest, sorted[1..], r)
  }

  lemma {:induction false} PutInKeeps(newest: bool, sorted: seq<LogRow>, r: LogRow)
    ensures multiset(PutIn(newest, sorted, r)) == multiset(sorted) + multiset{r}
  {
    if sorted != [] {
      assert sorted == [sorted[0]] + sorted[1..];
      PutInKeeps(newest, sorted[1..], r);
    }
  }

  lemma {:induction false} PutInSorts(newest: bool, sorted: seq<LogRow>, r: LogRow)
    requires InOrder(newest, sorted)
    ensures InOrder(newest, PutIn(newest, sorted, r))
  {
    if sorted != [] {
      var first, rest := sorted[0], sorted[1..];
      if Ahead(newest, r, first) {
        forall j | 0 <= j < |sorted| ensures Ahead(newest, r, sorted[j]) {
          assert j == 0 || Ahead(newest, first, sorted[j]);
        }
      } else {
        PutInSorts(newest, rest, r);
        PutInKeeps(newest, rest, r);
        var all := PutIn(newest, rest, r);
        forall j | 0 <= j < |all| ensures Ahead(newest, first, all[j]) {
          assert all[j] in multiset(all);
          assert all[j] == r || all[j] in rest;
        }
      }
    }
  }

  /**
    The rows in chronological order, oldest first, and the cursor for the next
    page: the oldest row's, offered whenever there is a row at all.
   */
  method FillResults(rows: seq<LogRow>) returns (view: seq<LogRow>, next: Option<(int, int)>)
    ensures InOrder(false, view) && multiset(view) == multiset(rows)
    ensures next.Some? <==> rows != []
    ensures next.Some? ==>
              && (exists r :: r in rows && next.value == (r.timestamp, r.id))
              && (forall r :: r in rows ==> !Older(r, next.value.0, next.value.1))
  {
    view := [];
    for i := 0 to |rows|
      invariant InOrder(false, view) && multiset(view) == multiset(rows[..i])
    {
      assert rows[..i + 1] == rows[..i] + [rows[i]];
      PutInSorts(false, view, rows[i]);
      PutInKeeps(false, view, rows[i]);
      view := PutIn(false, view, rows[i]);
    }
    assert rows[..|rows|] == rows;
    if |view| > 0 {
      next := Some((view[0].timestamp, view[0].id));
      assert view[0] in multiset(rows);
      forall r | r in rows ensures !Older(r, view[0].timestamp, view[0].id) {
        assert r in multiset(view);
        var j :| 0 <= j < |view| && view[j] == r;
        assert j == 0 || Ahead(false, view[0], view[j]);
      }
    } else {
      next := None;
      assert |multiset(rows)| == 0;
    }
  }
}
