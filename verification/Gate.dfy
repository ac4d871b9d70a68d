/**
  The admission gate in front of both ingestion pipelines: any number of
  request handlers race to put an item on a bounded channel under a shared
  budget counter, while one Shutdown closes the channel. Each atomic add, each
  channel operation and each lock operation is a step of its own.
 */
module Gate {
  import opened Common

  /** What tells one gate from the other: the cost of an item, the budget, the channel size. */
  datatype Limits<!T> = Limits(weight: T -> nat, budget: nat, capacity: nat)

  /** Where one handler stands in its call; every state but Idle holds the read lock. */
  datatype Handler<T> =
    | Idle
    | Entered(item: T)    // RLock taken, `closed` not read yet
    | Checked(item: T)    // `closed` was false
    | Reserved(item: T)   // counter raised, within budget
    | Refunding(item: T)  // counter raised, must be lowered again
    | Leaving(ok: bool)   // result decided, RUnlock pending

  /** Where Shutdown stands, up to the close of the entry channel. */
  datatype Closing = Open | Locked | Marked | Unlocked | Closed

  datatype Gate<T> = Gate(
    handlers: seq<Handler<T>>,
    closing: Closing,
    closed: bool,        // the flag guarded by closeMu
    counter: int,        // the atomic budget counter
    queue: seq<T>,       // the buffered channel
    queueClosed: bool,
    accepted: seq<T>,    // history: items whose call returned true, in channel order
    panicked: bool)      // a send hit a closed channel

  datatype Action<T> =
    | Enter(h: nat, x: T)
    | Check(h: nat)
    | Reserve(h: nat)
    | Offer(h: nat)
    | Refund(h: nat)
    | Leave(h: nat)
    | LockGate
    | MarkClosed
    | UnlockGate
    | CloseQueue

  function Init<T>(handlers: nat): Gate<T> {
    Gate(seq(handlers, _ => Idle), Open, false, 0, [], false, [], false)
  }

  predicate AllIdle<T>(g: Gate<T>) {
    forall i :: 0 <= i < |g.handlers| ==> g.handlers[i].Idle?
  }

  function At<T>(g: Gate<T>, h: nat): Handler<T> {
    if h < |g.handlers| then g.handlers[h] else Idle
  }

  function Move<T>(g: Gate<T>, h: nat, to: Handler<T>): Gate<T>
    requires h < |g.handlers|
  {
    g.(handlers := g.handlers[h := to])
  }

  /** One step of a handler or of Shutdown; None when the step is not enabled. */
  function Step<T>(c: Limits<T>, g: Gate<T>, a: Action<T>): Option<Gate<T>> {
    match a
    case Enter(h, x) =>
      if h < |g.handlers| && g.handlers[h].Idle? && !g.closing.Locked? && !g.closing.Marked?
      then Some(Move(g, h, Entered(x))) else None
    case Check(h) =>
      if At(g, h).Entered?
      then Some(Move(g, h, if g.closed then Leaving(false) else Checked(At(g, h).item))) else None
    case Reserve(h) =>
      if At(g, h).Checked? then
        var x := At(g, h).item;
        var sum := g.counter + c.weight(x);
        Some(Move(g, h, if sum > c.budget then Refunding(x) else Reserved(x)).(counter := sum))
      else None
    case Offer(h) =>
      if At(g, h).Reserved? then
        var x := At(g, h).item;
        if g.queueClosed then
          Some(g.(panicked := true))
        else if |g.queue| < c.capacity then
          Some(Move(g, h, Leaving(true)).(queue := g.queue + [x], accepted := g.accepted + [x]))
        else
          Some(Move(g, h, Refunding(x)))
      else None
    case Refund(h) =>
      if At(g, h).Refunding?
      then Some(Move(g, h, Leaving(false)).(counter := g.counter - c.weight(At(g, h).item))) else None
    case Leave(h) =>
      if At(g, h).Leaving? then Some(Move(g, h, Idle)) else None
    case LockGate =>
      if g.closing.Open? && AllIdle(g) then Some(g.(closing := Locked)) else None
    case MarkClosed =>
      if g.closing.Locked? then Some(g.(closing := Marked, closed := true)) else None
    case UnlockGate =>
      if g.closing.Marked? then Some(g.(closing := Unlocked)) else None
    case CloseQueue =>
      if g.closing.Unlocked? then Some(g.(closing := Closed, queueClosed := true)) else None
  }

  /** The consumer's receive: the budget is given back later, with Release. */
  function Take<T>(g: Gate<T>): Gate<T>
    requires g.queue != []
  {
    g.(queue := g.queue[1..])
  }

  function Release<T>(g: Gate<T>, amount: nat): Gate<T> {
    g.(counter := g.counter - amount)
  }

  /** What the handlers have added to the counter and not given back or passed on. */
  function Claims<T>(c: Limits<T>, hs: seq<Handler<T>>): nat {
    if hs == [] then 0 else Claim(c, hs[0]) + Claims(c, hs[1..])
  }

  function Claim<T>(c: Limits<T>, h: Handler<T>): nat {
    if h.Reserved? || h.Refunding? then c.weight(h.item) else 0
  }

  /** The part of the claims that passed the budget test. */
  function Granted<T>(c: Limits<T>, hs: seq<Handler<T>>): nat {
    if hs == [] then 0 else Grant(c, hs[0]) + Granted(c, hs[1..])
  }

  function Grant<T>(c: Limits<T>, h: Handler<T>): nat {
    if h.Reserved? then c.weight(h.item) else 0
  }

  /** Lock, flag and channel agree, and no call past the `closed` test survives the lock. */
  ghost predicate Ordered<T>(g: Gate<T>) {
    && !g.panicked
    && g.closed == (g.closing.Marked? || g.closing.Unlocked? || g.closing.Closed?)
    && g.queueClosed == g.closing.Closed?
    && (g.closing.Locked? || g.closing.Marked? ==> AllIdle(g))
    && (g.closed ==> forall i :: 0 <= i < |g.handlers| ==>
          g.handlers[i].Idle? || g.handlers[i].Entered? || g.handlers[i].Leaving?)
  }

  /** The counter is exactly what is queued, held and claimed; what passed the test fits the budget. */
  ghost predicate Budgeted<T>(c: Limits<T>, g: Gate<T>, held: nat) {
    && |g.queue| <= c.capacity
    && g.counter == Total(g.queue, c.weight) + held + Claims(c, g.handlers)
    && Total(g.queue, c.weight) + held + Granted(c, g.handlers) <= c.budget
  }

  /** `held` is the weight the consumer has taken from the channel and not released. */
  ghost predicate Inv<T>(c: Limits<T>, g: Gate<T>, held: nat) {
    Ordered(g) && Budgeted(c, g, held)
  }

  lemma {:induction false} ClaimsMove<T>(c: Limits<T>, hs: seq<Handler<T>>, h: nat, to: Handler<T>)
    requires h < |hs|
    ensures Claims(c, hs[h := to]) == Claims(c, hs) - Claim(c, hs[h]) + Claim(c, to)
    ensures Granted(c, hs[h := to]) == Granted(c, hs) - Grant(c, hs[h]) + Grant(c, to)
  {
    if h == 0 {
      assert hs[h := to][1..] == hs[1..];
    } else {
      assert hs[h := to][1..] == hs[1..][h - 1 := to];
      ClaimsMove(c, hs[1..], h - 1, to);
    }
  }

  lemma {:induction false} GrantedWithinClaims<T>(c: Limits<T>, hs: seq<Handler<T>>)
    ensures Granted(c, hs) <= Claims(c, hs)
  {
    if hs != [] { GrantedWithinClaims(c, hs[1..]); }
  }

  lemma {:induction false} NoClaims<T>(c: Limits<T>, hs: seq<Handler<T>>)
    requires forall i :: 0 <= i < |hs| ==> !hs[i].Reserved? && !hs[i].Refunding?
    ensures Claims(c, hs) == 0 && Granted(c, hs) == 0
  {
    if hs != [] { NoClaims(c, hs[1..]); }
  }

  lemma InitInv<T>(c: Limits<T>, handlers: nat)
    ensures Inv(c, Init(handlers), 0)
  {
    NoClaims(c, Init<T>(handlers).handlers);
  }

  lemma StepOrdered<T>(c: Limits<T>, g: Gate<T>, a: Action<T>)
    requires Ordered(g) && Step(c, g, a).Some?
    ensures Ordered(Step(c, g, a).value)
  {
  }

  lemma ReserveBudgeted<T>(c: Limits<T>, g: Gate<T>, h: nat, held: nat)
    requires Budgeted(c, g, held) && Step(c, g, Reserve(h)).Some?
    ensures Budgeted(c, Step(c, g, Reserve(h)).value, held)
  {
    ClaimsMove(c, g.handlers, h, Step(c, g, Reserve(h)).value.handlers[h]);
    GrantedWithinClaims(c, g.handlers);
  }

  lemma OfferBudgeted<T>(c: Limits<T>, g: Gate<T>, h: nat, held: nat)
    requires Budgeted(c, g, held) && Step(c, g, Offer(h)).Some?
    ensures Budgeted(c, Step(c, g, Offer(h)).value, held)
  {
    ClaimsMove(c, g.handlers, h, Step(c, g, Offer(h)).value.handlers[h]);
    TotalAppend(g.queue, [g.handlers[h].item], c.weight);
  }

  lemma StepBudgeted<T>(c: Limits<T>, g: Gate<T>, a: Action<T>, held: nat)
    requires Budgeted(c, g, held) && Step(c, g, a).Some?
    ensures Budgeted(c, Step(c, g, a).value, held)
  {
    match a
    case Reserve(h) => ReserveBudgeted(c, g, h, held);
    case Offer(h) => OfferBudgeted(c, g, h, held);
    case LockGate | MarkClosed | UnlockGate | CloseQueue =>
    case Enter(h, x) => ClaimsMove(c, g.handlers, h, Entered(x));
    case Check(h) => ClaimsMove(c, g.handlers, h, if g.closed then Leaving(false) else Checked(g.handlers[h].item));
    case Refund(h) => ClaimsMove(c, g.handlers, h, Leaving(false));
    case Leave(h) => ClaimsMove(c, g.handlers, h, Idle);
  }

  /** Every step of every handler and of Shutdown keeps the invariant, so no send hits a closed channel. */
  lemma StepInv<T>(c: Limits<T>, g: Gate<T>, a: Action<T>, held: nat)
    requires Inv(c, g, held) && Step(c, g, a).Some?
    ensures Inv(c, Step(c, g, a).value, held)
  {
    StepOrdered(c, g, a);
    StepBudgeted(c, g, a, held);
  }

  lemma TakeInv<T>(c: Limits<T>, g: Gate<T>, held: nat)
    requires Inv(c, g, held) && g.queue != []
    ensures Inv(c, Take(g), held + c.weight(g.queue[0]))
  {
  }

  lemma ReleaseInv<T>(c: Limits<T>, g: Gate<T>, held: nat, amount: nat)
    requires Inv(c, g, held) && amount <= held
    ensures Inv(c, Release(g, amount), held - amount)
  {
  }

  /** Once Shutdown has closed the channel and the consumer has drained it, the counter is back at zero. */
  lemma DrainedCounter<T>(c: Limits<T>, g: Gate<T>)
    requires Inv(c, g, 0) && g.closed && g.queue == []
    ensures g.counter == 0
  {
    NoClaims(c, g.handlers);
  }

  /** A handler inside its call can always take a step: the read lock is always given back. */
  lemma HandlerNeverStuck<T>(c: Limits<T>, g: Gate<T>, h: nat)
    requires h < |g.handlers| && !g.handlers[h].Idle?
    ensures Step(c, g, Check(h)).Some? || Step(c, g, Reserve(h)).Some? || Step(c, g, Offer(h)).Some?
            || Step(c, g, Refund(h)).Some? || Step(c, g, Leave(h)).Some?
  {
  }

  /** A step that accepts items puts exactly those on the channel, in order; no other step touches either. */
  lemma StepExtends<T>(c: Limits<T>, g: Gate<T>, a: Action<T>)
    requires Step(c, g, a).Some?
    ensures var g' := Step(c, g, a).value;
            g.accepted <= g'.accepted
            && var more := g'.accepted[|g.accepted|..];
            g'.accepted == g.accepted + more && g'.queue == g.queue + more
            && (g.queueClosed ==> more == [] && g'.queueClosed)
  {
  }

  // What decides a call.

  /** A handler inside its call has exactly one next step, so a call can go only one way. */
  lemma OneWay<T>(c: Limits<T>, g: Gate<T>, h: nat, a: Action<T>, b: Action<T>)
    requires h < |g.handlers| && Step(c, g, a).Some? && Step(c, g, b).Some?
    requires OfHandler(a, h) && OfHandler(b, h)
    ensures a == b || (a.Enter? && b.Enter?)
  {
  }

  predicate OfHandler<T>(a: Action<T>, h: nat) {
    (a.Enter? || a.Check? || a.Reserve? || a.Offer? || a.Refund? || a.Leave?) && a.h == h
  }

  function Exec<T>(c: Limits<T>, g: Gate<T>, run: seq<Action<T>>): Option<Gate<T>>
    decreases |run|
  {
    if run == [] then Some(g)
    else
      var q := Step(c, g, run[0]);
      if q.None? then None else Exec(c, q.value, run[1..])
  }

  lemma ExecStep<T>(c: Limits<T>, g: Gate<T>, a: Action<T>, run: seq<Action<T>>)
    requires Step(c, g, a).Some?
    ensures Exec(c, g, [a] + run) == Exec(c, Step(c, g, a).value, run)
  {
    assert ([a] + run)[1..] == run;
  }

  /** There is room for the item now. */
  predicate Fits<T>(c: Limits<T>, g: Gate<T>, x: T) {
    !g.closed && g.counter + c.weight(x) <= c.budget && |g.queue| < c.capacity
  }

  /** The rest of a call that nothing interrupts, once it has seen the gate open. */
  function Attempt<T>(c: Limits<T>, g: Gate<T>, h: nat, x: T): seq<Action<T>> {
    if g.counter + c.weight(x) > c.budget then [Refund(h)] + [Leave(h)]
    else if |g.queue| < c.capacity then [Offer(h)] + [Leave(h)]
    else [Offer(h)] + ([Refund(h)] + [Leave(h)])
  }

  /** The steps of a whole call that nothing interrupts. */
  function Call<T>(c: Limits<T>, g: Gate<T>, h: nat, x: T): seq<Action<T>> {
    [Enter(h, x)] + ([Check(h)] + if g.closed then [Leave(h)] else [Reserve(h)] + Attempt(c, g, h, x))
  }

  lemma CallEnters<T>(c: Limits<T>, g: Gate<T>, h: nat, x: T)
    ensures var run := Call(c, g, h, x); forall i :: 0 <= i < |run| && run[i].Enter? ==> run[i].x == x
  {
  }

  /** The gate with one item more. */
  function Admitted<T>(c: Limits<T>, g: Gate<T>, x: T): Gate<T> {
    g.(counter := g.counter + c.weight(x), queue := g.queue + [x], accepted := g.accepted + [x])
  }

  /**
    A call that nothing interrupts accepts its item exactly when it fits: the item is
    then the last of the queue and of what was accepted, and the counter holds its
    weight. A refused call leaves no trace at all.
   */
  lemma CallAdmitsIff<T>(c: Limits<T>, g: Gate<T>, h: nat, x: T)
    requires Ordered(g) && h < |g.handlers| && g.handlers[h].Idle? && !g.closing.Locked? && !g.closing.Marked?
    ensures Exec(c, g, Call(c, g, h, x)) == Some(if Fits(c, g, x) then Admitted(c, g, x) else g)
  {
    var rest := if g.closed then [Leave(h)] else [Reserve(h)] + Attempt(c, g, h, x);
    var g1 := Step(c, g, Enter(h, x)).value;
    ExecStep(c, g, Enter(h, x), [Check(h)] + rest);
    var g2 := Step(c, g1, Check(h)).value;
    ExecStep(c, g1, Check(h), rest);
    if g.closed {
      LeaveRuns(c, g, g2, h);
    } else {
      ExecStep(c, g2, Reserve(h), Attempt(c, g, h, x));
      AttemptRuns(c, g, Step(c, g2, Reserve(h)).value, h, x);
    }
  }

  lemma LeaveRuns<T>(c: Limits<T>, g: Gate<T>, g': Gate<T>, h: nat)
    requires h < |g.handlers| && g.handlers[h].Idle? && |g'.handlers| == |g.handlers| && At(g', h).Leaving?
    requires forall i :: 0 <= i < |g.handlers| && i != h ==> g'.handlers[i] == g.handlers[i]
    ensures Exec(c, g', [Leave(h)]) == Some(g'.(handlers := g.handlers))
  {
    var leave: Action<T> := Leave(h);
    ExecStep(c, g', leave, []);
    assert [leave] + [] == [leave];
    assert g'.handlers[h := Idle] == g.handlers;
  }

  lemma AttemptRuns<T>(c: Limits<T>, g: Gate<T>, g3: Gate<T>, h: nat, x: T)
    requires Ordered(g) && h < |g.handlers| && g.handlers[h].Idle? && !g.closed
    requires var sum := g.counter + c.weight(x);
             g3 == Move(g, h, if sum > c.budget then Refunding(x) else Reserved(x)).(counter := sum)
    ensures Exec(c, g3, Attempt(c, g, h, x)) == Some(if Fits(c, g, x) then Admitted(c, g, x) else g)
  {
    if g.counter + c.weight(x) > c.budget {
      RefundRuns(c, g, g3, h, x);
    } else {
      var g4 := Step(c, g3, Offer(h)).value;
      if |g.queue| < c.capacity {
        ExecStep(c, g3, Offer(h), [Leave(h)]);
        LeaveRuns(c, g, g4, h);
      } else {
        ExecStep(c, g3, Offer(h), [Refund(h)] + [Leave(h)]);
        RefundRuns(c, g, g4, h, x);
      }
    }
  }

  lemma RefundRuns<T>(c: Limits<T>, g: Gate<T>, g': Gate<T>, h: nat, x: T)
    requires h < |g.handlers| && g.handlers[h].Idle?
    requires g' == Move(g, h, Refunding(x)).(counter := g.counter + c.weight(x))
    ensures Exec(c, g', [Refund(h)] + [Leave(h)]) == Some(g)
  {
    ExecStep(c, g', Refund(h), [Leave(h)]);
    LeaveRuns(c, g, Step(c, g', Refund(h)).value, h);
  }

  /**
    Among other calls: a step decides against an item only because the gate is closed,
    the counter with everyone's claims leaves no room, or the queue is full.
   */
  lemma RefusedFor<T>(c: Limits<T>, g: Gate<T>, a: Action<T>, h: nat)
    requires Ordered(g) && |g.queue| <= c.capacity && Step(c, g, a).Some? && h < |g.handlers|
    requires !Refused(g.handlers[h]) && Refused(Step(c, g, a).value.handlers[h])
    ensures (a == Check(h) && g.closed)
            || (a == Reserve(h) && g.counter + c.weight(g.handlers[h].item) > c.budget)
            || (a == Offer(h) && |g.queue| == c.capacity)
  {
  }

  predicate Refused<T>(h: Handler<T>) { h.Refunding? || (h.Leaving? && !h.ok) }
}
