/**
  The metrics ingestion pipeline: handlers and the scrape loop push whole row
  batches through the gate; one writer appends them to a buffer and flushes it in
  chunks. Every chunk insert is a step of its own and may fail.
 */
module MetricsPipeline {
  import opened Common
  import Gate

  const BATCH_CHAN_SIZE := 100
  const BATCH_SIZE := 500
  const MAX_BUFFERED_ROWS := 500_000

  datatype Row = Row(timestamp: int, name: string, kind: int, value: real, service: string, host: string, labels: string)

  function RowCount(rows: seq<Row>): nat { |rows| }

  function Limits(): Gate.Limits<seq<Row>> {
    Gate.Limits(RowCount, MAX_BUFFERED_ROWS, BATCH_CHAN_SIZE)
  }

  function Min(a: nat, b: nat): nat { if a <= b then a else b }

  /** Table, buffer and number of stored chunks after flushing from the i-th insert on. */
  function Flushed(table: seq<Row>, buf: seq<Row>, ok: nat -> bool, i: nat): (seq<Row>, seq<Row>, nat)
    decreases |buf|
  {
    if buf == [] || !ok(i) then (table, buf, i)
    else
      var n := Min(|buf|, BATCH_SIZE);
      Flushed(table + buf[..n], buf[n..], ok, i + 1)
  }

  /** What is stored is a prefix of the buffer, in whole chunks of 500 up to the first failure; the rest is kept. */
  lemma {:induction false} FlushedForm(table: seq<Row>, buf: seq<Row>, ok: nat -> bool, i: nat)
    ensures var (t, b, k) := Flushed(table, buf, ok, i);
            && k >= i
            && (var n := Min((k - i) * 500, |buf|); t == table + buf[..n] && b == buf[n..])
            && (forall j :: i <= j < k ==> ok(j)) && (b == [] || !ok(k))
            && (k > i ==> (k - i - 1) * 500 < |buf|)
    decreases |buf|
  {
    if buf == [] || !ok(i) {
      assert table + buf[..0] == table;
    } else {
      var n := Min(|buf|, BATCH_SIZE);
      FlushedForm(table + buf[..n], buf[n..], ok, i + 1);
      var (t, b, k) := Flushed(table, buf, ok, i);
      var m := Min((k - i - 1) * 500, |buf| - n);
      assert table + buf[..n] + buf[n..][..m] == table + buf[..n + m];
      assert buf[n..][m..] == buf[n + m..];
    }
  }

  class Writer {
    var buf: seq<Row>
    var table: seq<Row>

    constructor ()
      ensures buf == [] && table == []
    {
      buf, table := [], [];
    }

    /**
      Flushes the buffer chunk by chunk; `ok(i)` tells whether the i-th insert
      succeeds. What is persisted is a prefix of the buffer, in chunks of
      BATCH_SIZE, and a failure keeps exactly the rest.
     */
    method TryFlush(ok: nat -> bool) returns (chunks: nat)
      modifies this
      ensures (table, buf, chunks) == Flushed(old(table), old(buf), ok, 0)
      ensures var n := Min(chunks * 500, |old(buf)|);
              table == old(table) + old(buf)[..n] && buf == old(buf)[n..]
      ensures forall i: nat :: i < chunks ==> ok(i)
      ensures buf == [] || !ok(chunks)
      ensures chunks > 0 ==> (chunks - 1) * 500 < |old(buf)|
    {
      FlushedForm(table, buf, ok, 0);
      chunks := 0;
      while |buf| > 0
        invariant Flushed(old(table), old(buf), ok, 0) == Flushed(table, buf, ok, chunks)
        decreases |buf|
      {
        var n := Min(|buf|, BATCH_SIZE);
        if !ok(chunks) { return; }
        table := table + buf[..n];
        buf := buf[n..];
        chunks := chunks + 1;
      }
    }
  }

  /** What the writer goroutine is doing. */
  datatype Phase =
    | Loop
    | Holding(rows: seq<Row>)   // received, row budget not given back yet
    | Flushing(ending: bool)    // inside tryFlush; ending: the channel was closed and empty
    | Stopped

  datatype Pipeline = Pipeline(
    gate: Gate.Gate<seq<Row>>,
    phase: Phase,
    buf: seq<Row>,
    table: seq<Row>,
    dropped: seq<Row>,
    returned: bool)

  datatype WriterAction = TakeBatch | AppendBatch | StartFlush | Chunk(ok: bool) | SeeClosed

  datatype Action = Admit(a: Gate.Action<seq<Row>>) | Write(w: WriterAction) | Return

  function Init(handlers: nat): Pipeline {
    Pipeline(Gate.Init(handlers), Loop, [], [], [], false)
  }

  /** Leaving tryFlush: back to the loop, or at the end giving up on what is left. */
  function LeaveFlush(p: Pipeline): Pipeline
    requires p.phase.Flushing?
  {
    if p.phase.ending then p.(phase := Stopped, dropped := p.buf, buf := []) else p.(phase := Loop)
  }

  function WriterStep(p: Pipeline, a: WriterAction): Option<Pipeline> {
    match a
    case TakeBatch =>
      if p.phase.Loop? && |p.buf| < BATCH_SIZE && p.gate.queue != []
      then Some(p.(phase := Holding(p.gate.queue[0]), gate := Gate.Take(p.gate))) else None
    case AppendBatch =>
      if p.phase.Holding?
      then Some(p.(gate := Gate.Release(p.gate, |p.phase.rows|), buf := p.buf + p.phase.rows, phase := Loop)) else None
    case StartFlush =>  // the buffer is full, or the ticker fired
      if p.phase.Loop? && p.buf != [] then Some(p.(phase := Flushing(false))) else None
    case Chunk(ok) =>
      if p.phase.Flushing? && p.buf != [] then
        var n := Min(|p.buf|, BATCH_SIZE);
        var q := if ok then p.(table := p.table + p.buf[..n], buf := p.buf[n..]) else p;
        Some(if ok && q.buf != [] then q else LeaveFlush(q))
      else None
    case SeeClosed =>
      if p.phase.Loop? && |p.buf| < BATCH_SIZE && p.gate.queue == [] && p.gate.queueClosed
      then Some(if p.buf != [] then p.(phase := Flushing(true)) else p.(phase := Stopped)) else None
  }

  function Step(p: Pipeline, a: Action): Option<Pipeline> {
    match a
    case Admit(ga) =>
      // an empty batch is accepted before the gate is touched
      if ga.Enter? && ga.x == [] then None
      else
        var g := Gate.Step(Limits(), p.gate, ga);
        if g.Some? then Some(p.(gate := g.value)) else None
    case Write(wa) => WriterStep(p, wa)
    case Return =>
      if p.gate.queueClosed && p.phase.Stopped? && !p.returned then Some(p.(returned := true)) else None
  }

  function Exec(p: Pipeline, run: seq<Action>): Option<Pipeline>
    decreases |run|
  {
    if run == [] then Some(p)
    else
      var q := Step(p, run[0]);
      if q.None? then None else Exec(q.value, run[1..])
  }

  /** The actions of the admission gate, as actions of the pipeline. */
  function Admits(run: seq<Gate.Action<seq<Row>>>): seq<Action> {
    if run == [] then [] else [Admit(run[0])] + Admits(run[1..])
  }

  lemma {:induction false} AdmitsRun(p: Pipeline, run: seq<Gate.Action<seq<Row>>>)
    requires Gate.Exec(Limits(), p.gate, run).Some?
    requires forall i :: 0 <= i < |run| && run[i].Enter? ==> run[i].x != []
    ensures Exec(p, Admits(run)) == Some(p.(gate := Gate.Exec(Limits(), p.gate, run).value))
    decreases |run|
  {
    if run != [] {
      assert Admits(run)[1..] == Admits(run[1..]);
      AdmitsRun(p.(gate := Gate.Step(Limits(), p.gate, run[0]).value), run[1..]);
    }
  }

  /**
    TryPush, uninterrupted, takes a batch exactly when the pipeline is open, the rows
    fit into 500000 with all that is buffered, and fewer than 100 batches are queued; a
    refused batch leaves no trace. An empty batch never reaches the gate.
   */
  lemma TryPushIff(p: Pipeline, h: nat, rows: seq<Row>)
    requires Reachable(p) && h < |p.gate.handlers| && p.gate.handlers[h].Idle? && rows != []
    requires !p.gate.closing.Locked? && !p.gate.closing.Marked?
    ensures var g := p.gate;
            var fits := g.closing.Open? && g.counter + |rows| <= 500_000 && |g.queue| < 100;
            Exec(p, Admits(Gate.Call(Limits(), g, h, rows)))
            == Some(if !fits then p
                    else p.(gate := g.(counter := g.counter + |rows|, queue := g.queue + [rows], accepted := g.accepted + [rows])))
  {
    ReachableInv(p);
    Gate.CallAdmitsIff(Limits(), p.gate, h, rows);
    Gate.CallEnters(Limits(), p.gate, h, rows);
    AdmitsRun(p, Gate.Call(Limits(), p.gate, h, rows));
  }

  /** The inserts i, i + 1, ... before j, as actions. */
  function Inserts(ok: nat -> bool, i: nat, j: nat): seq<Action>
    decreases j - i
  {
    if i >= j then [] else [Write(Chunk(ok(i)))] + Inserts(ok, i + 1, j)
  }

  /** The inserts of one flush take the state system where the flush loop takes the writer. */
  lemma {:induction false} InsertsFlush(p: Pipeline, ok: nat -> bool, i: nat)
    requires p.phase.Flushing? && p.buf != []
    ensures var (table, buf, k) := Flushed(p.table, p.buf, ok, i);
            Exec(p, Inserts(ok, i, if buf == [] then k else k + 1)) == Some(LeaveFlush(p.(table := table, buf := buf)))
    decreases |p.buf|
  {
    var (table, buf, k) := Flushed(p.table, p.buf, ok, i);
    FlushedForward(p.table, p.buf, ok, i);
    var run := Inserts(ok, i, if buf == [] then k else k + 1);
    var q := Step(p, Write(Chunk(ok(i)))).value;
    assert run[0] == Write(Chunk(ok(i))) && run[1..] == Inserts(ok, i + 1, if buf == [] then k else k + 1);
    if q.phase.Flushing? { InsertsFlush(q, ok, i + 1); }
  }

  lemma {:induction false} FlushedForward(table: seq<Row>, buf: seq<Row>, ok: nat -> bool, i: nat)
    ensures var r := Flushed(table, buf, ok, i); r.2 >= i && (r.1 == [] && buf != [] ==> r.2 > i)
    decreases |buf|
  {
    if buf != [] && ok(i) {
      var n := Min(|buf|, BATCH_SIZE);
      FlushedForward(table + buf[..n], buf[n..], ok, i + 1);
    }
  }

  function InHand(p: Pipeline): seq<Row> {
    if p.phase.Holding? then p.phase.rows else []
  }

  /** One queue from end to end: rows leave in the order they were accepted. */
  ghost predicate Fifo(p: Pipeline) {
    Concat(p.gate.accepted) == p.table + p.dropped + p.buf + InHand(p) + Concat(p.gate.queue)
  }

  ghost predicate Staged(p: Pipeline) {
    && (p.phase.Stopped? ==> p.gate.queueClosed && p.gate.queue == [] && p.buf == [])
    && (p.phase.Flushing? ==> p.buf != [])
    && (p.phase.Flushing? && p.phase.ending ==> p.gate.queueClosed && p.gate.queue == [])
    && (!p.phase.Stopped? ==> p.dropped == [])
    && (p.returned ==> p.phase.Stopped?)
  }

  ghost predicate Inv(p: Pipeline) {
    Gate.Inv(Limits(), p.gate, |InHand(p)|) && Fifo(p) && Staged(p)
  }

  lemma InitInv(handlers: nat)
    ensures Inv(Init(handlers))
  {
    Gate.InitInv(Limits(), handlers);
  }

  lemma AdmitInv(p: Pipeline, ga: Gate.Action<seq<Row>>)
    requires Inv(p) && Step(p, Admit(ga)).Some?
    ensures Inv(Step(p, Admit(ga)).value)
  {
    AdmitFifo(p, ga);
    Gate.StepInv(Limits(), p.gate, ga, |InHand(p)|);
    Gate.StepExtends(Limits(), p.gate, ga);
  }

  lemma AdmitFifo(p: Pipeline, ga: Gate.Action<seq<Row>>)
    requires Fifo(p) && Step(p, Admit(ga)).Some?
    ensures Fifo(Step(p, Admit(ga)).value)
  {
    var q := Step(p, Admit(ga)).value;
    Gate.StepExtends(Limits(), p.gate, ga);
    var more := q.gate.accepted[|p.gate.accepted|..];
    ConcatAppend(p.gate.accepted, more);
    ConcatAppend(p.gate.queue, more);
  }

  lemma ChunkFifo(p: Pipeline, ok: bool)
    requires Fifo(p) && Staged(p) && WriterStep(p, Chunk(ok)).Some?
    ensures Fifo(WriterStep(p, Chunk(ok)).value)
  {
    var q := WriterStep(p, Chunk(ok)).value;
    var n := Min(|p.buf|, BATCH_SIZE);
    assert p.table + p.buf == p.table + p.buf[..n] + p.buf[n..];
    assert p.table + p.dropped + p.buf == p.table + p.buf;
    assert q.table + q.dropped + q.buf == p.table + p.buf;
  }

  lemma WriterFifo(p: Pipeline, a: WriterAction)
    requires Fifo(p) && Staged(p) && WriterStep(p, a).Some?
    ensures Fifo(WriterStep(p, a).value)
  {
    match a
    case Chunk(ok) => ChunkFifo(p, ok);
    case TakeBatch => assert p.table + p.dropped + p.buf + [] + Concat(p.gate.queue)
                          == p.table + p.dropped + p.buf + p.gate.queue[0] + Concat(p.gate.queue[1..]);
    case AppendBatch => assert p.table + p.dropped + (p.buf + p.phase.rows) + []
                            == p.table + p.dropped + p.buf + p.phase.rows;
    case _ =>
  }

  lemma WriterInv(p: Pipeline, a: WriterAction)
    requires Inv(p) && WriterStep(p, a).Some?
    ensures Inv(WriterStep(p, a).value)
  {
    WriterFifo(p, a);
    match a
    case TakeBatch => Gate.TakeInv(Limits(), p.gate, 0);
    case AppendBatch => Gate.ReleaseInv(Limits(), p.gate, |p.phase.rows|, |p.phase.rows|);
    case _ =>
  }

  lemma {:induction false} ExecInv(p: Pipeline, run: seq<Action>)
    requires Inv(p) && Exec(p, run).Some?
    ensures Inv(Exec(p, run).value)
    decreases |run|
  {
    if run != [] {
      match run[0] {
        case Admit(ga) => AdmitInv(p, ga);
        case Write(wa) => WriterInv(p, wa);
        case Return =>
      }
      ExecInv(Step(p, run[0]).value, run[1..]);
    }
  }

  /** `p` is reached by some run from the start, with any number of producers. */
  ghost predicate Reachable(p: Pipeline) {
    exists handlers: nat, run: seq<Action> :: Exec(Init(handlers), run) == Some(p)
  }

  lemma ReachableInv(p: Pipeline)
    requires Reachable(p)
    ensures Inv(p)
  {
    var handlers: nat, run: seq<Action> :| Exec(Init(handlers), run) == Some(p);
    InitInv(handlers);
    ExecInv(Init(handlers), run);
  }

  /**
    Persisted, dropped, buffered, in-hand and queued rows, in this order, are the
    accepted batches in acceptance order; rows are dropped only by the final drain.
   */
  lemma ExactFifo(p: Pipeline)
    requires Reachable(p)
    ensures p.table + p.dropped + p.buf + InHand(p) + Concat(p.gate.queue) == Concat(p.gate.accepted)
    ensures p.dropped != [] ==> p.phase.Stopped?
  {
    ReachableInv(p);
  }

  /** The row counter is exact at every moment, and admitted rows never exceed the budget. */
  lemma AdmissionBudget(p: Pipeline)
    requires Reachable(p)
    ensures var admitted := Total(p.gate.queue, RowCount) + |InHand(p)|;
            && p.gate.counter == admitted + Gate.Claims(Limits(), p.gate.handlers)
            && admitted + Gate.Granted(Limits(), p.gate.handlers) <= MAX_BUFFERED_ROWS
            && |p.gate.queue| <= BATCH_CHAN_SIZE
    ensures !p.gate.panicked
    ensures p.gate.queueClosed ==> forall h :: 0 <= h < |p.gate.handlers| ==> !p.gate.handlers[h].Reserved?
  {
    ReachableInv(p);
  }

  /**
    Backpressure: the writer takes a batch exactly while it waits with fewer than 500
    rows and one is queued, and sees the end exactly when none will ever be.
   */
  lemma TakesIff(p: Pipeline)
    ensures Step(p, Write(TakeBatch)).Some? <==> p.phase.Loop? && |p.buf| < 500 && p.gate.queue != []
    ensures Step(p, Write(SeeClosed)).Some? <==>
              p.phase.Loop? && |p.buf| < 500 && p.gate.queue == [] && p.gate.queueClosed
  {
  }

  /** At the end there is one last flush, and the writer stops whatever comes of it: what it could not store is dropped. */
  lemma LastFlush(p: Pipeline, ok: nat -> bool)
    requires p.phase.Loop? && |p.buf| < 500 && p.gate.queue == [] && p.gate.queueClosed
    ensures var (table, buf, k) := Flushed(p.table, p.buf, ok, 0);
            var last := if p.buf == [] then [] else Inserts(ok, 0, if buf == [] then k else k + 1);
            Exec(p, [Write(SeeClosed)] + last)
            == Some(if p.buf == [] then p.(phase := Stopped) else p.(phase := Stopped, table := table, buf := [], dropped := buf))
  {
    var q := Step(p, Write(SeeClosed)).value;
    var (table, buf, k) := Flushed(p.table, p.buf, ok, 0);
    var last := if p.buf == [] then [] else Inserts(ok, 0, if buf == [] then k else k + 1);
    assert ([Write(SeeClosed)] + last)[1..] == last;
    if p.buf != [] { InsertsFlush(q, ok, 0); }
  }

  /** When Shutdown returns the table is the accepted rows in order, up to what the last flush dropped. */
  lemma ShutdownComplete(p: Pipeline)
    requires Reachable(p) && p.returned
    ensures p.gate.queue == [] && p.buf == [] && p.gate.counter == 0
    ensures p.table + p.dropped == Concat(p.gate.accepted)
  {
    ReachableInv(p);
    Gate.DrainedCounter(Limits(), p.gate);
  }

  /** While Shutdown waits behind the closed channel, the writer or Shutdown itself can move. */
  lemma ShutdownNeverStuck(p: Pipeline)
    requires Reachable(p) && p.gate.queueClosed && !p.returned
    ensures exists a: Action :: !a.Admit? && Step(p, a).Some?
  {
    ReachableInv(p);
    var a := match p.phase
      case Stopped => Return
      case Holding(_) => Write(AppendBatch)
      case Flushing(_) => Write(Chunk(true))
      case Loop => Write(if |p.buf| >= BATCH_SIZE then StartFlush else if p.gate.queue != [] then TakeBatch else SeeClosed);
    assert Step(p, a).Some?;
  }

  /** The steps that are left to do, not counting failed chunk inserts. */
  function Work(p: Pipeline): nat {
    QueueWork(p.gate.queue) + 3 * |InHand(p)| + 3 * |p.buf| + PhaseWork(p.phase) + (if p.returned then 0 else 1)
  }

  function QueueWork(bs: seq<seq<Row>>): nat {
    if bs == [] then 0 else 3 * |bs[0]| + 2 + QueueWork(bs[1..])
  }

  function PhaseWork(ph: Phase): nat {
    match ph
    case Stopped => 0
    case Flushing(_) => 1
    case Loop => 2
    case Holding(_) => 3
  }

  predicate FailedChunk(a: Action) {
    a.Write? && a.w.Chunk? && !a.w.ok
  }

  function FailedChunks(run: seq<Action>): nat {
    if run == [] then 0 else (if FailedChunk(run[0]) then 1 else 0) + FailedChunks(run[1..])
  }

  lemma WriterWorks(p: Pipeline, wa: WriterAction)
    requires WriterStep(p, wa).Some?
    ensures Work(WriterStep(p, wa).value) + 1 <= Work(p) + (if FailedChunk(Write(wa)) then 2 else 0)
  {
  }

  lemma StepWorks(p: Pipeline, a: Action)
    requires !a.Admit? && Step(p, a).Some?
    ensures Work(Step(p, a).value) + 1 <= Work(p) + (if FailedChunk(a) then 2 else 0)
  {
    if a.Write? { WriterWorks(p, a.w); }
  }

  /** Without new admissions a run is bounded: it can only go on while chunk inserts keep failing. */
  lemma {:induction false} ShutdownBounded(p: Pipeline, run: seq<Action>)
    requires Exec(p, run).Some?
    requires forall i :: 0 <= i < |run| ==> !run[i].Admit?
    ensures |run| <= Work(p) + 2 * FailedChunks(run)
    decreases |run|
  {
    if run != [] {
      StepWorks(p, run[0]);
      ShutdownBounded(Step(p, run[0]).value, run[1..]);
    }
  }

  lemma {:induction false} NoneFailed(run: seq<Action>)
    requires forall i :: 0 <= i < |run| ==> !FailedChunk(run[i])
    ensures FailedChunks(run) == 0
  {
    if run != [] { NoneFailed(run[1..]); }
  }

  /** When no insert fails, the writer comes to rest within a number of steps fixed beforehand. */
  lemma ShutdownTerminates(p: Pipeline, run: seq<Action>)
    requires Exec(p, run).Some? && forall i :: 0 <= i < |run| ==> !run[i].Admit? && !FailedChunk(run[i])
    ensures |run| <= Work(p)
  {
    NoneFailed(run);
    ShutdownBounded(p, run);
  }
}
