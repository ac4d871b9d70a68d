/**
  The log ingestion pipeline as a step system:
  handlers -> ingestChan -> parser workers -> parsedChan -> fan-out ->
  (broadcaster, batchInputChan) -> batch writer -> table.
  A run is any sequence of enabled actions, so every interleaving of the
  handlers, workers, fan-out, writer and Shutdown is covered.
 */
module LogPipeline {
  import opened Common
  import Gate
  import opened W = BatchWriter

  const INGEST_CHAN_SIZE := 1000
  const PARSED_CHAN_SIZE := 5000
  const BATCH_INPUT_CHAN_SIZE := 1000
  const MAX_BUFFERED_BYTES := 256 * 1024 * 1024

  datatype IngestEvent = IngestEvent(service: string, host: string, payload: seq<bv8>, receivedAt: int)

  function PayloadSize(ev: IngestEvent): nat { |ev.payload| }

  function Limits(): Gate.Limits<IngestEvent> {
    Gate.Limits(PayloadSize, MAX_BUFFERED_BYTES, INGEST_CHAN_SIZE)
  }

  /** parsePayload followed by the timestamp clamp: any pure function of the event. */
  type Parser = IngestEvent -> seq<StandardLog>

  datatype Worker = Waiting | Parsing(ev: IngestEvent, rest: seq<StandardLog>) | Stopped

  datatype Fanout = Ready | Holding(log: StandardLog, published: bool) | Finished

  datatype Pipeline = Pipeline(
    gate: Gate.Gate<IngestEvent>,
    workers: seq<Worker>,
    parsed: seq<StandardLog>, parsedClosed: bool,
    fanout: Fanout,
    batch: seq<StandardLog>, batchClosed: bool,
    writer: W.State,
    returned: bool,                // Shutdown has returned
    sent: seq<StandardLog>,        // history: every log put on parsedChan, in order
    published: seq<StandardLog>,   // history: every log handed to the broadcaster, in order
    panicked: bool)                // a send hit a closed channel behind the gate

  datatype WorkerAction = TakeEvent | SendLog | ReleaseBytes | StopWorker
  datatype FanoutAction = TakeLog | Publish | Forward | StopFanout
  datatype WriterAction = Receive | Flush(ok: bool) | Tick(ok: bool) | Drain(ok: bool)
  datatype ShutdownAction = CloseParsed | CloseBatch | Return

  datatype Action =
    | Admit(a: Gate.Action<IngestEvent>)  // TryIngest, and Shutdown up to the close of ingestChan
    | Parse(w: nat, worker: WorkerAction)
    | Fan(fan: FanoutAction)
    | Write(write: WriterAction)
    | Shut(shut: ShutdownAction)

  function Init(handlers: nat, workers: nat): Pipeline {
    Pipeline(Gate.Init(handlers), seq(workers, _ => Waiting), [], false, Ready, [], false,
             W.FRESH, false, [], [], false)
  }

  function At(p: Pipeline, w: nat): Worker {
    if w < |p.workers| then p.workers[w] else Stopped
  }

  predicate AllStopped(ws: seq<Worker>) {
    forall i :: 0 <= i < |ws| ==> ws[i].Stopped?
  }

  function WorkerStep(parse: Parser, p: Pipeline, w: nat, a: WorkerAction): Option<Pipeline> {
    match a
    case TakeEvent =>
      if At(p, w).Waiting? && p.gate.queue != [] then
        var ev := p.gate.queue[0];
        Some(p.(gate := Gate.Take(p.gate), workers := p.workers[w := Parsing(ev, parse(ev))]))
      else None
    case SendLog =>
      if !(At(p, w).Parsing? && At(p, w).rest != []) then None
      else if p.parsedClosed then Some(p.(panicked := true))
      else if |p.parsed| < PARSED_CHAN_SIZE then
        var rest := At(p, w).rest;
        Some(p.(workers := p.workers[w := At(p, w).(rest := rest[1..])],
                parsed := p.parsed + [rest[0]], sent := p.sent + [rest[0]]))
      else None
    case ReleaseBytes =>
      if At(p, w).Parsing? && At(p, w).rest == []
      then Some(p.(gate := Gate.Release(p.gate, PayloadSize(At(p, w).ev)), workers := p.workers[w := Waiting]))
      else None
    case StopWorker =>
      if At(p, w).Waiting? && p.gate.queue == [] && p.gate.queueClosed
      then Some(p.(workers := p.workers[w := Stopped])) else None
  }

  function FanoutStep(p: Pipeline, a: FanoutAction): Option<Pipeline> {
    match a
    case TakeLog =>
      if p.fanout.Ready? && p.parsed != []
      then Some(p.(fanout := Holding(p.parsed[0], false), parsed := p.parsed[1..])) else None
    case Publish =>
      if p.fanout.Holding? && !p.fanout.published
      then Some(p.(fanout := p.fanout.(published := true), published := p.published + [p.fanout.log])) else None
    case Forward =>
      if !(p.fanout.Holding? && p.fanout.published) then None
      else if p.batchClosed then Some(p.(panicked := true))
      else if |p.batch| < BATCH_INPUT_CHAN_SIZE
      then Some(p.(batch := p.batch + [p.fanout.log], fanout := Ready)) else None
    case StopFanout =>
      if p.fanout.Ready? && p.parsed == [] && p.parsedClosed then Some(p.(fanout := Finished)) else None
  }

  function WriterStep(p: Pipeline, a: WriterAction): Option<Pipeline> {
    if p.writer.stopped then None
    else if |p.writer.buf| >= BATCH_SIZE then
      if a.Flush? then Some(p.(writer := W.Flushed(p.writer, a.ok))) else None
    else match a
      case Receive =>
        if p.batch != [] then Some(p.(writer := W.Received(p.writer, p.batch[0]), batch := p.batch[1..])) else None
      case Tick(ok) =>
        if p.writer.armed then Some(p.(writer := W.Ticked(p.writer, ok))) else None
      case Drain(ok) =>
        if p.batch == [] && p.batchClosed then Some(p.(writer := W.Drained(p.writer, ok))) else None
      case Flush(_) => None
  }

  /** Shutdown after the close of ingestChan: each close waits for the stage in front of it. */
  function ShutdownStep(p: Pipeline, a: ShutdownAction): Option<Pipeline> {
    match a
    case CloseParsed =>
      if p.gate.queueClosed && AllStopped(p.workers) && !p.parsedClosed
      then Some(p.(parsedClosed := true)) else None
    case CloseBatch =>
      if p.parsedClosed && p.fanout.Finished? && !p.batchClosed then Some(p.(batchClosed := true)) else None
    case Return =>
      if p.batchClosed && p.writer.stopped && !p.returned then Some(p.(returned := true)) else None
  }

  function Step(parse: Parser, p: Pipeline, a: Action): Option<Pipeline> {
    match a
    case Admit(ga) =>
      var g := Gate.Step(Limits(), p.gate, ga);
      if g.Some? then Some(p.(gate := g.value)) else None
    case Parse(w, wa) => WorkerStep(parse, p, w, wa)
    case Fan(fa) => FanoutStep(p, fa)
    case Write(wa) => WriterStep(p, wa)
    case Shut(sa) => ShutdownStep(p, sa)
  }

  /** The pipeline after a run, or None when some action was not enabled. */
  function Exec(parse: Parser, p: Pipeline, run: seq<Action>): Option<Pipeline>
    decreases |run|
  {
    if run == [] then Some(p)
    else
      var q := Step(parse, p, run[0]);
      if q.None? then None else Exec(parse, q.value, run[1..])
  }

  /** The actions of the admission gate, as actions of the pipeline. */
  function Admits(run: seq<Gate.Action<IngestEvent>>): seq<Action> {
    if run == [] then [] else [Admit(run[0])] + Admits(run[1..])
  }

  lemma {:induction false} AdmitsRun(parse: Parser, p: Pipeline, run: seq<Gate.Action<IngestEvent>>)
    requires Gate.Exec(Limits(), p.gate, run).Some?
    ensures Exec(parse, p, Admits(run)) == Some(p.(gate := Gate.Exec(Limits(), p.gate, run).value))
    decreases |run|
  {
    if run != [] {
      assert Admits(run)[1..] == Admits(run[1..]);
      AdmitsRun(parse, p.(gate := Gate.Step(Limits(), p.gate, run[0]).value), run[1..]);
    }
  }

  /**
    TryIngest, uninterrupted, takes a payload exactly when the pipeline is open, the
    payload fits into 256 MiB with all that is buffered, and fewer than 1000 payloads
    are queued; a refused payload leaves no trace.
   */
  lemma TryIngestIff(parse: Parser, p: Pipeline, h: nat, ev: IngestEvent)
    requires Reachable(parse, p) && h < |p.gate.handlers| && p.gate.handlers[h].Idle?
    requires !p.gate.closing.Locked? && !p.gate.closing.Marked?
    ensures var g := p.gate;
            var fits := g.closing.Open? && g.counter + |ev.payload| <= 268_435_456 && |g.queue| < 1000;
            Exec(parse, p, Admits(Gate.Call(Limits(), g, h, ev)))
            == Some(if !fits then p
                    else p.(gate := g.(counter := g.counter + |ev.payload|, queue := g.queue + [ev], accepted := g.accepted + [ev])))
  {
    ReachableInv(parse, p);
    Gate.CallAdmitsIff(Limits(), p.gate, h, ev);
    AdmitsRun(parse, p, Gate.Call(Limits(), p.gate, h, ev));
  }

  /** The logs a sequence of payloads parses into. */
  function Logs(parse: Parser, evs: seq<IngestEvent>): multiset<StandardLog> {
    if evs == [] then multiset{} else multiset(parse(evs[0])) + Logs(parse, evs[1..])
  }

  /** The parsed logs the workers still have to send. */
  function Unsent(ws: seq<Worker>): multiset<StandardLog> {
    if ws == [] then multiset{} else multiset(Rest(ws[0])) + Unsent(ws[1..])
  }

  function Rest(w: Worker): seq<StandardLog> {
    if w.Parsing? then w.rest else []
  }

  /** The payload bytes the workers have taken and not released. */
  function Held(ws: seq<Worker>): nat {
    if ws == [] then 0 else HeldBy(ws[0]) + Held(ws[1..])
  }

  function HeldBy(w: Worker): nat {
    if w.Parsing? then PayloadSize(w.ev) else 0
  }

  function InFanout(f: Fanout): seq<StandardLog> {
    if f.Holding? then [f.log] else []
  }

  function PublishedInFanout(f: Fanout): seq<StandardLog> {
    if f.Holding? && f.published then [f.log] else []
  }

  /** Accepted payloads are unparsed, half sent, or wholly on their way. */
  ghost predicate Conserved(parse: Parser, p: Pipeline) {
    Logs(parse, p.gate.accepted) == Logs(parse, p.gate.queue) + Unsent(p.workers) + multiset(p.sent)
  }

  /** Behind parsedChan the order never changes, and the broadcaster is never behind the table. */
  ghost predicate InOrder(p: Pipeline) {
    && p.sent == W.Seen(p.writer) + p.batch + InFanout(p.fanout) + p.parsed
    && p.published == W.Seen(p.writer) + p.batch + PublishedInFanout(p.fanout)
  }

  /** Stages stop in producer-to-consumer order, each one empty before the next closes. */
  ghost predicate Staged(p: Pipeline) {
    && !p.panicked
    && |p.workers| > 0
    && (forall i :: 0 <= i < |p.workers| && p.workers[i].Stopped? ==> p.gate.queueClosed && p.gate.queue == [])
    && (p.parsedClosed ==> p.gate.queueClosed && AllStopped(p.workers))
    && (p.fanout.Finished? ==> p.parsedClosed && p.parsed == [])
    && (p.batchClosed ==> p.fanout.Finished?)
    && (p.writer.stopped ==> p.batchClosed && p.batch == [])
    && (p.returned ==> p.writer.stopped)
    && |p.parsed| <= PARSED_CHAN_SIZE
    && |p.batch| <= BATCH_INPUT_CHAN_SIZE
    && W.Valid(p.writer)
  }

  ghost predicate Inv(parse: Parser, p: Pipeline) {
    && Gate.Inv(Limits(), p.gate, Held(p.workers))
    && Conserved(parse, p)
    && InOrder(p)
    && Staged(p)
  }

  lemma {:induction false} LogsAppend(parse: Parser, xs: seq<IngestEvent>, ys: seq<IngestEvent>)
    ensures Logs(parse, xs + ys) == Logs(parse, xs) + Logs(parse, ys)
  {
    if xs == [] {
      assert xs + ys == ys;
    } else {
      assert (xs + ys)[1..] == xs[1..] + ys;
      LogsAppend(parse, xs[1..], ys);
    }
  }

  lemma Cancel<T>(a: multiset<T>, b: multiset<T>, c: multiset<T>)
    requires a + c == b + c
    ensures a == b
  {
    forall x ensures a[x] == b[x] { assert (a + c)[x] == (b + c)[x]; }
  }

  lemma {:induction false} UnsentMoves(ws: seq<Worker>, w: nat, to: Worker)
    requires w < |ws|
    ensures Unsent(ws[w := to]) + multiset(Rest(ws[w])) == Unsent(ws) + multiset(Rest(to))
  {
    if w == 0 {
      assert ws[w := to][1..] == ws[1..];
    } else {
      assert ws[w := to][1..] == ws[1..][w - 1 := to];
      UnsentMoves(ws[1..], w - 1, to);
      var h, u, u' := multiset(Rest(ws[0])), Unsent(ws[1..]), Unsent(ws[1..][w - 1 := to]);
      assert h + u' + multiset(Rest(ws[w])) == h + (u' + multiset(Rest(ws[w])));
      assert h + u + multiset(Rest(to)) == h + (u + multiset(Rest(to)));
    }
  }

  lemma {:induction false} HeldMoves(ws: seq<Worker>, w: nat, to: Worker)
    requires w < |ws|
    ensures Held(ws[w := to]) + HeldBy(ws[w]) == Held(ws) + HeldBy(to)
  {
    if w == 0 {
      assert ws[w := to][1..] == ws[1..];
    } else {
      assert ws[w := to][1..] == ws[1..][w - 1 := to];
      HeldMoves(ws[1..], w - 1, to);
    }
  }

  lemma {:induction false} NothingHeld(ws: seq<Worker>)
    requires forall i :: 0 <= i < |ws| ==> !ws[i].Parsing?
    ensures Unsent(ws) == multiset{} && Held(ws) == 0
  {
    if ws != [] { NothingHeld(ws[1..]); }
  }

  lemma InitInv(parse: Parser, handlers: nat, workers: nat)
    requires workers > 0
    ensures Inv(parse, Init(handlers, workers))
  {
    var p := Init(handlers, workers);
    assert Gate.Inv(Limits(), p.gate, Held(p.workers)) by {
      NothingHeld(p.workers);
      Gate.InitInv(Limits(), handlers);
    }
    assert Conserved(parse, p) by { NothingHeld(p.workers); }
  }

  lemma WorkerGate(parse: Parser, p: Pipeline, w: nat, a: WorkerAction)
    requires Gate.Inv(Limits(), p.gate, Held(p.workers)) && WorkerStep(parse, p, w, a).Some?
    ensures var q := WorkerStep(parse, p, w, a).value; Gate.Inv(Limits(), q.gate, Held(q.workers))
  {
    var q := WorkerStep(parse, p, w, a).value;
    HeldMoves(p.workers, w, q.workers[w]);
    match a
    case TakeEvent => Gate.TakeInv(Limits(), p.gate, Held(p.workers));
    case ReleaseBytes => Gate.ReleaseInv(Limits(), p.gate, Held(p.workers), PayloadSize(p.workers[w].ev));
    case _ =>
  }

  lemma StepGate(parse: Parser, p: Pipeline, a: Action)
    requires Gate.Inv(Limits(), p.gate, Held(p.workers)) && Step(parse, p, a).Some?
    ensures var q := Step(parse, p, a).value; Gate.Inv(Limits(), q.gate, Held(q.workers))
  {
    match a
    case Admit(ga) => Gate.StepInv(Limits(), p.gate, ga, Held(p.workers));
    case Parse(w, wa) => WorkerGate(parse, p, w, wa);
    case _ => Frame(parse, p, a);
  }

  lemma AdmitConserved(parse: Parser, p: Pipeline, ga: Gate.Action<IngestEvent>)
    requires Conserved(parse, p) && Step(parse, p, Admit(ga)).Some?
    ensures Conserved(parse, Step(parse, p, Admit(ga)).value)
  {
    Gate.StepExtends(Limits(), p.gate, ga);
    var q := Step(parse, p, Admit(ga)).value;
    var more := q.gate.accepted[|p.gate.accepted|..];
    LogsAppend(parse, p.gate.accepted, more);
    LogsAppend(parse, p.gate.queue, more);
  }

  lemma TakeConserved(parse: Parser, p: Pipeline, w: nat)
    requires Conserved(parse, p) && WorkerStep(parse, p, w, TakeEvent).Some?
    ensures Conserved(parse, WorkerStep(parse, p, w, TakeEvent).value)
  {
    var ev := p.gate.queue[0];
    var queued', unsent' := Logs(parse, p.gate.queue[1..]), Unsent(p.workers[w := Parsing(ev, parse(ev))]);
    UnsentMoves(p.workers, w, Parsing(ev, parse(ev)));
    assert unsent' == Unsent(p.workers) + multiset(parse(ev));
    assert multiset(parse(ev)) + queued' + Unsent(p.workers) == queued' + unsent';
  }

  /** One log leaves its worker. */
  lemma SendMoves(ws: seq<Worker>, w: nat)
    requires w < |ws| && ws[w].Parsing? && ws[w].rest != []
    ensures Unsent(ws) == Unsent(ws[w := ws[w].(rest := ws[w].rest[1..])]) + multiset{ws[w].rest[0]}
  {
    var rest := ws[w].rest;
    var unsent' := Unsent(ws[w := ws[w].(rest := rest[1..])]);
    UnsentMoves(ws, w, ws[w].(rest := rest[1..]));
    assert rest == [rest[0]] + rest[1..];
    assert unsent' + multiset{rest[0]} + multiset(rest[1..]) == unsent' + multiset(rest);
    Cancel(unsent' + multiset{rest[0]}, Unsent(ws), multiset(rest[1..]));
  }

  lemma SendConserved(parse: Parser, p: Pipeline, w: nat)
    requires Conserved(parse, p) && WorkerStep(parse, p, w, SendLog).Some?
    ensures Conserved(parse, WorkerStep(parse, p, w, SendLog).value)
  {
    if !p.parsedClosed {
      var rest := p.workers[w].rest;
      var unsent' := Unsent(p.workers[w := p.workers[w].(rest := rest[1..])]);
      SendMoves(p.workers, w);
      assert Logs(parse, p.gate.queue) + unsent' + multiset(p.sent + [rest[0]])
          == Logs(parse, p.gate.queue) + (unsent' + multiset{rest[0]}) + multiset(p.sent);
    }
  }

  lemma IdleConserved(parse: Parser, p: Pipeline, w: nat, a: WorkerAction)
    requires Conserved(parse, p) && WorkerStep(parse, p, w, a).Some? && (a.ReleaseBytes? || a.StopWorker?)
    ensures Conserved(parse, WorkerStep(parse, p, w, a).value)
  {
    var to := if a.ReleaseBytes? then Waiting else Stopped;
    UnsentMoves(p.workers, w, to);
    assert multiset(Rest(p.workers[w])) == multiset(Rest(to));
    Cancel(Unsent(p.workers[w := to]), Unsent(p.workers), multiset(Rest(to)));
  }

  lemma WorkerConserved(parse: Parser, p: Pipeline, w: nat, a: WorkerAction)
    requires Conserved(parse, p) && WorkerStep(parse, p, w, a).Some?
    ensures Conserved(parse, WorkerStep(parse, p, w, a).value)
  {
    match a
    case TakeEvent => TakeConserved(parse, p, w);
    case SendLog => SendConserved(parse, p, w);
    case _ => IdleConserved(parse, p, w, a);
  }

  lemma Frame(parse: Parser, p: Pipeline, a: Action)
    requires Step(parse, p, a).Some? && !a.Admit? && !a.Parse?
    ensures var q := Step(parse, p, a).value;
            q.gate == p.gate && q.workers == p.workers && q.sent == p.sent
  {
  }

  lemma StepConserved(parse: Parser, p: Pipeline, a: Action)
    requires Conserved(parse, p) && Step(parse, p, a).Some?
    ensures Conserved(parse, Step(parse, p, a).value)
  {
    match a
    case Admit(ga) => AdmitConserved(parse, p, ga);
    case Parse(w, wa) => WorkerConserved(parse, p, w, wa);
    case _ => Frame(parse, p, a);
  }

  lemma FanoutInOrder(p: Pipeline, a: FanoutAction)
    requires InOrder(p) && FanoutStep(p, a).Some?
    ensures InOrder(FanoutStep(p, a).value)
  {
    if a.TakeLog? { assert p.parsed == [p.parsed[0]] + p.parsed[1..]; }
  }

  lemma WriterInOrder(p: Pipeline, a: WriterAction)
    requires InOrder(p) && Staged(p) && WriterStep(p, a).Some?
    ensures InOrder(WriterStep(p, a).value)
  {
    match a
    case Receive =>
      W.ReceiveKeeps(p.writer, p.batch[0]);
      assert p.batch == [p.batch[0]] + p.batch[1..];
      assert W.Seen(p.writer) + p.batch == W.Seen(p.writer) + [p.batch[0]] + p.batch[1..];
    case Drain(ok) => W.DrainKeeps(p.writer, ok);
    case Flush(ok) => W.FlushKeeps(p.writer, ok);
    case Tick(ok) => W.FlushKeeps(p.writer, ok);
  }

  lemma StepInOrder(parse: Parser, p: Pipeline, a: Action)
    requires InOrder(p) && Staged(p) && Step(parse, p, a).Some?
    ensures InOrder(Step(parse, p, a).value)
  {
    match a
    case Fan(fa) => FanoutInOrder(p, fa);
    case Write(wa) => WriterInOrder(p, wa);
    case _ =>
  }

  lemma WriterStaged(p: Pipeline, a: WriterAction)
    requires Staged(p) && WriterStep(p, a).Some?
    ensures Staged(WriterStep(p, a).value)
  {
    match a
    case Receive => W.ReceiveKeeps(p.writer, p.batch[0]);
    case Drain(ok) => W.DrainKeeps(p.writer, ok);
    case Flush(ok) => W.FlushKeeps(p.writer, ok);
    case Tick(ok) => W.FlushKeeps(p.writer, ok);
  }

  lemma StepStaged(parse: Parser, p: Pipeline, a: Action)
    requires Staged(p) && Gate.Ordered(p.gate) && Step(parse, p, a).Some?
    ensures Staged(Step(parse, p, a).value)
  {
    match a
    case Admit(ga) => Gate.StepExtends(Limits(), p.gate, ga);
    case Write(wa) => WriterStaged(p, wa);
    case _ =>
  }

  lemma StepInv(parse: Parser, p: Pipeline, a: Action)
    requires Inv(parse, p) && Step(parse, p, a).Some?
    ensures Inv(parse, Step(parse, p, a).value)
  {
    StepGate(parse, p, a);
    StepConserved(parse, p, a);
    StepInOrder(parse, p, a);
    StepStaged(parse, p, a);
  }

  lemma {:induction false} ExecInv(parse: Parser, p: Pipeline, run: seq<Action>)
    requires Inv(parse, p) && Exec(parse, p, run).Some?
    ensures Inv(parse, Exec(parse, p, run).value)
    decreases |run|
  {
    if run != [] {
      StepInv(parse, p, run[0]);
      ExecInv(parse, Step(parse, p, run[0]).value, run[1..]);
    }
  }

  lemma {:induction false} ExecSnoc(parse: Parser, p: Pipeline, run: seq<Action>, a: Action)
    requires Exec(parse, p, run).Some?
    ensures Exec(parse, p, run + [a]) == Step(parse, Exec(parse, p, run).value, a)
    decreases |run|
  {
    if run == [] {
      assert run + [a] == [a];
      assert Exec(parse, p, [a]) == Step(parse, p, a);
    } else {
      assert (run + [a])[1..] == run[1..] + [a];
      ExecSnoc(parse, Step(parse, p, run[0]).value, run[1..], a);
    }
  }

  /** `p` is reached by some run from the start, with any number of handlers and workers. */
  ghost predicate Reachable(parse: Parser, p: Pipeline) {
    exists handlers: nat, workers: nat, run: seq<Action> ::
      workers > 0 && Exec(parse, Init(handlers, workers), run) == Some(p)
  }

  lemma ReachableInv(parse: Parser, p: Pipeline)
    requires Reachable(parse, p)
    ensures Inv(parse, p)
  {
    var handlers: nat, workers: nat, run: seq<Action> :|
      workers > 0 && Exec(parse, Init(handlers, workers), run) == Some(p);
    InitInv(parse, handlers, workers);
    ExecInv(parse, Init(handlers, workers), run);
  }

  lemma SentParts(p: Pipeline)
    requires InOrder(p)
    ensures multiset(p.sent) == multiset(p.parsed) + multiset(InFanout(p.fanout)) + multiset(p.batch)
                                + multiset(p.writer.buf) + multiset(p.writer.table) + multiset(p.writer.dropped)
  {
  }

  /** Every log of an accepted payload is in exactly one place; the writer's buffer is bounded and timed. */
  lemma LogConservation(parse: Parser, p: Pipeline)
    requires Reachable(parse, p)
    ensures Logs(parse, p.gate.accepted)
            == Logs(parse, p.gate.queue) + Unsent(p.workers)
               + (multiset(p.parsed) + multiset(InFanout(p.fanout)) + multiset(p.batch)
                  + multiset(p.writer.buf) + multiset(p.writer.table) + multiset(p.writer.dropped))
    ensures |p.writer.buf| <= BATCH_SIZE
    ensures p.writer.buf != [] ==> p.writer.armed
  {
    ReachableInv(parse, p);
    SentParts(p);
  }

  /** The table is always a prefix of what was broadcast, and that of what entered parsedChan. */
  lemma PersistedInOrder(parse: Parser, p: Pipeline)
    requires Reachable(parse, p)
    ensures p.writer.table <= p.published <= p.sent
  {
    ReachableInv(parse, p);
  }

  /** The byte counter is exact at every moment, and admitted bytes never exceed the budget. */
  lemma AdmissionBudget(parse: Parser, p: Pipeline)
    requires Reachable(parse, p)
    ensures var admitted := Total(p.gate.queue, PayloadSize) + Held(p.workers);
            && p.gate.counter == admitted + Gate.Claims(Limits(), p.gate.handlers)
            && admitted + Gate.Granted(Limits(), p.gate.handlers) <= MAX_BUFFERED_BYTES
            && |p.gate.queue| <= INGEST_CHAN_SIZE
  {
    ReachableInv(parse, p);
  }

  lemma SendersGone(p: Pipeline)
    requires Staged(p) && Gate.Ordered(p.gate)
    ensures !p.panicked && !p.gate.panicked
    ensures p.gate.queueClosed ==> forall h :: 0 <= h < |p.gate.handlers| ==> !p.gate.handlers[h].Reserved?
    ensures p.parsedClosed ==> forall w :: 0 <= w < |p.workers| ==> !p.workers[w].Parsing?
    ensures p.batchClosed ==> !p.fanout.Holding?
  {
  }

  /** No one who is about to send ever faces a closed channel, however TryIngest races Shutdown. */
  lemma NoSendOnClosed(parse: Parser, p: Pipeline)
    requires Reachable(parse, p)
    ensures !p.panicked && !p.gate.panicked
    ensures p.gate.queueClosed ==> forall h :: 0 <= h < |p.gate.handlers| ==> !p.gate.handlers[h].Reserved?
    ensures p.parsedClosed ==> forall w :: 0 <= w < |p.workers| ==> !p.workers[w].Parsing?
    ensures p.batchClosed ==> !p.fanout.Holding?
  {
    ReachableInv(parse, p);
    SendersGone(p);
  }

  /**
    Backpressure: a worker can hand on a log exactly while fewer than 5000 wait to be
    fanned out, the fan-out while fewer than 1000 wait for the writer, and the writer
    takes one exactly while it holds fewer than 1000; a full one only tries to flush.
   */
  lemma Backpressure(parse: Parser, p: Pipeline, w: nat, a: WriterAction)
    requires Reachable(parse, p) && w < |p.workers|
    ensures p.workers[w].Parsing? && p.workers[w].rest != [] ==>
              (WorkerStep(parse, p, w, SendLog).Some? <==> |p.parsed| < 5000)
    ensures p.fanout.Holding? && p.fanout.published ==> (FanoutStep(p, Forward).Some? <==> |p.batch| < 1000)
    ensures p.batch != [] && !p.writer.stopped ==> (WriterStep(p, Receive).Some? <==> |p.writer.buf| < 1000)
    ensures |p.writer.buf| == 1000 && WriterStep(p, a).Some? ==> a.Flush?
  {
    NoSendOnClosed(parse, p);
    WriterTakesIff(p, a);
  }

  lemma WriterTakesIff(p: Pipeline, a: WriterAction)
    ensures p.batch != [] && !p.writer.stopped ==> (WriterStep(p, Receive).Some? <==> |p.writer.buf| < 1000)
    ensures |p.writer.buf| == 1000 && WriterStep(p, a).Some? ==> a.Flush?
  {
  }

  /**
    When Shutdown returns, every stage is empty and stopped, the budget is back at
    zero, and the table together with the rows the last flush gave up on is exactly
    the logs of all accepted payloads.
   */
  lemma ShutdownComplete(parse: Parser, p: Pipeline)
    requires Reachable(parse, p) && p.returned
    ensures p.gate.queue == [] && p.parsed == [] && p.batch == [] && p.writer.buf == []
    ensures AllStopped(p.workers) && p.fanout.Finished? && p.writer.stopped
    ensures p.gate.counter == 0
    ensures Logs(parse, p.gate.accepted) == multiset(p.writer.table) + multiset(p.writer.dropped)
    ensures p.writer.dropped == [] ==> multiset(p.writer.table) == Logs(parse, p.gate.accepted)
  {
    ReachableInv(parse, p);
    assert p.workers[0].Stopped?;
    NothingHeld(p.workers);
    Gate.DrainedCounter(Limits(), p.gate);
    assert p.sent == p.writer.table + p.writer.dropped;
  }

  // Shutdown always finishes unless flushes keep failing.

  /** While Shutdown waits behind the closed entry channel, some stage can move. */
  lemma ShutdownNeverStuck(parse: Parser, p: Pipeline)
    requires Reachable(parse, p) && p.gate.queueClosed && !p.returned
    ensures exists a: Action :: !a.Admit? && Step(parse, p, a).Some?
  {
    ReachableInv(parse, p);
    if p.batch == [] && !p.batchClosed {
      FrontNeverStuck(parse, p);
    } else {
      BackNeverStuck(parse, p);
    }
  }

  lemma BackNeverStuck(parse: Parser, p: Pipeline)
    requires Staged(p) && !p.returned && (p.batch != [] || p.batchClosed)
    ensures exists a: Action :: !a.Admit? && Step(parse, p, a).Some?
  {
    var a := if p.writer.stopped then Shut(Return)
             else if |p.writer.buf| >= BATCH_SIZE then Write(Flush(true))
             else if p.batch != [] then Write(Receive)
             else Write(Drain(true));
    assert Step(parse, p, a).Some?;
  }

  lemma FrontNeverStuck(parse: Parser, p: Pipeline)
    requires Staged(p) && p.gate.queueClosed && !p.batchClosed && p.batch == []
    ensures exists a: Action :: !a.Admit? && Step(parse, p, a).Some?
  {
    if p.fanout.Ready? && p.parsed == [] && !p.parsedClosed && !AllStopped(p.workers) {
      var w :| 0 <= w < |p.workers| && !p.workers[w].Stopped?;
      WorkerNeverStuck(parse, p, w);
    } else {
      var a := if p.fanout.Finished? then Shut(CloseBatch)
               else if p.fanout.Holding? then Fan(if p.fanout.published then Forward else Publish)
               else if p.parsed != [] then Fan(TakeLog)
               else if p.parsedClosed then Fan(StopFanout)
               else Shut(CloseParsed);
      assert Step(parse, p, a).Some?;
    }
  }

  lemma WorkerNeverStuck(parse: Parser, p: Pipeline, w: nat)
    requires p.gate.queueClosed && !p.parsedClosed && p.parsed == [] && w < |p.workers| && !p.workers[w].Stopped?
    ensures exists a: Action :: !a.Admit? && Step(parse, p, a).Some?
  {
    var s := p.workers[w];
    var wa := if s.Waiting? then (if p.gate.queue == [] then StopWorker else TakeEvent)
              else if s.rest == [] then ReleaseBytes else SendLog;
    assert Step(parse, p, Parse(w, wa)).Some?;
  }

  /** The steps that are left to do, not counting failed flushes. */
  function Work(parse: Parser, p: Pipeline): nat {
    QueueWork(parse, p.gate.queue) + WorkersWork(p.workers)
    + 6 * |p.parsed| + FanoutWork(p.fanout) + 3 * |p.batch| + WriterWork(p.writer)
    + (if p.parsedClosed then 0 else 1) + (if p.batchClosed then 0 else 1) + (if p.returned then 0 else 1)
  }

  function QueueWork(parse: Parser, evs: seq<IngestEvent>): nat {
    if evs == [] then 0 else 2 + 7 * |parse(evs[0])| + QueueWork(parse, evs[1..])
  }

  function WorkersWork(ws: seq<Worker>): nat {
    if ws == [] then 0 else WorkerWork(ws[0]) + WorkersWork(ws[1..])
  }

  function WorkerWork(w: Worker): nat {
    match w
    case Stopped => 0
    case Waiting => 1
    case Parsing(_, rest) => 2 + 7 * |rest|
  }

  function FanoutWork(f: Fanout): nat {
    match f
    case Finished => 0
    case Ready => 1
    case Holding(_, published) => if published then 5 else 6
  }

  function WriterWork(s: W.State): nat {
    if s.stopped then 0 else 1 + |s.buf| + (if s.armed then 1 else 0)
  }

  predicate FailedFlush(a: Action) {
    a.Write? && !a.write.Receive? && !a.write.ok
  }

  function FailedFlushes(run: seq<Action>): nat {
    if run == [] then 0 else (if FailedFlush(run[0]) then 1 else 0) + FailedFlushes(run[1..])
  }

  lemma {:induction false} WorkersWorkMoves(ws: seq<Worker>, w: nat, to: Worker)
    requires w < |ws|
    ensures WorkersWork(ws[w := to]) + WorkerWork(ws[w]) == WorkersWork(ws) + WorkerWork(to)
  {
    if w == 0 {
      assert ws[w := to][1..] == ws[1..];
    } else {
      assert ws[w := to][1..] == ws[1..][w - 1 := to];
      WorkersWorkMoves(ws[1..], w - 1, to);
    }
  }

  lemma WorkerWorks(parse: Parser, p: Pipeline, w: nat, a: WorkerAction)
    requires !p.parsedClosed || AllStopped(p.workers)
    requires WorkerStep(parse, p, w, a).Some?
    ensures Work(parse, WorkerStep(parse, p, w, a).value) < Work(parse, p)
  {
    WorkersWorkMoves(p.workers, w, WorkerStep(parse, p, w, a).value.workers[w]);
  }

  lemma WriterWorks(parse: Parser, p: Pipeline, a: WriterAction)
    requires W.Valid(p.writer) && WriterStep(p, a).Some?
    ensures var q := WriterStep(p, a).value;
            Work(parse, q) < Work(parse, p) || (FailedFlush(Write(a)) && Work(parse, q) == Work(parse, p))
  {
  }

  /** Every step behind the gate uses up work; a failed flush may only leave it unchanged. */
  lemma StepWorks(parse: Parser, p: Pipeline, a: Action)
    requires Staged(p) && !a.Admit? && Step(parse, p, a).Some?
    ensures var q := Step(parse, p, a).value;
            Work(parse, q) < Work(parse, p) || (FailedFlush(a) && Work(parse, q) == Work(parse, p))
  {
    match a
    case Parse(w, wa) => WorkerWorks(parse, p, w, wa);
    case Write(wa) => WriterWorks(parse, p, wa);
    case _ =>
  }

  lemma ReachableStep(parse: Parser, p: Pipeline, a: Action)
    requires Reachable(parse, p) && !a.Admit? && Step(parse, p, a).Some?
    ensures var q := Step(parse, p, a).value;
            Reachable(parse, q) && Work(parse, q) + 1 <= Work(parse, p) + FailedFlushes([a])
  {
    var handlers: nat, workers: nat, run: seq<Action> :|
      workers > 0 && Exec(parse, Init(handlers, workers), run) == Some(p);
    ExecSnoc(parse, Init(handlers, workers), run, a);
    ReachableInv(parse, p);
    StepWorks(parse, p, a);
  }

  /** Without new admissions a run is bounded: it can only go on while flushes keep failing. */
  lemma {:induction false} ShutdownBounded(parse: Parser, p: Pipeline, run: seq<Action>)
    requires Reachable(parse, p) && Exec(parse, p, run).Some?
    requires forall i :: 0 <= i < |run| ==> !run[i].Admit?
    ensures |run| <= Work(parse, p) + FailedFlushes(run)
    decreases |run|
  {
    if run != [] {
      ReachableStep(parse, p, run[0]);
      ShutdownBounded(parse, Step(parse, p, run[0]).value, run[1..]);
    }
  }

  lemma {:induction false} NoneFailed(run: seq<Action>)
    requires forall i :: 0 <= i < |run| ==> !FailedFlush(run[i])
    ensures FailedFlushes(run) == 0
  {
    if run != [] { NoneFailed(run[1..]); }
  }

  /** When no insert fails, the pipeline comes to rest within a number of steps fixed beforehand. */
  lemma ShutdownTerminates(parse: Parser, p: Pipeline, run: seq<Action>)
    requires Reachable(parse, p) && Exec(parse, p, run).Some?
    requires forall i :: 0 <= i < |run| ==> !run[i].Admit? && !FailedFlush(run[i])
    ensures |run| <= Work(parse, p)
  {
    NoneFailed(run);
    ShutdownBounded(parse, p, run);
  }
}
