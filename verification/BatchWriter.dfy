/** The log batch writer: a buffer flushed by size, by timer or at shutdown, with retry on failure. */
module BatchWriter {
  import opened Common

  const BATCH_SIZE := 1000

  datatype StandardLog = StandardLog(
    timestamp: int, ingestedAt: int, level: Option<int>, service: string, host: string,
    message: Option<string>, parsed: Option<string>, raw: string)

  /** `table` is what reached logs.db, in insertion order; `dropped` what the final drain gave up on. */
  datatype State = State(
    buf: seq<StandardLog>, armed: bool, table: seq<StandardLog>,
    dropped: seq<StandardLog>, stopped: bool)

  const FRESH := State([], false, [], [], false)

  /** One flush attempt: the multi-row INSERT is atomic, so it persists all of `buf` or nothing. */
  function Flushed(s: State, ok: bool): State {
    if ok then s.(table := s.table + s.buf, buf := []) else s
  }

  /** The loop body on a received log. */
  function Received(s: State, l: StandardLog): State {
    s.(buf := s.buf + [l], armed := true)
  }

  /** The loop body on a timer tick: the timer is reset while rows remain, else disarmed. */
  function Ticked(s: State, ok: bool): State {
    var f := Flushed(s, ok);
    f.(armed := f.buf != [])
  }

  /** The loop body on the closed channel: drain once, then stop. */
  function Drained(s: State, ok: bool): State {
    var f := Flushed(s, ok);
    f.(dropped := f.buf, buf := [], stopped := true)
  }

  /** What every iteration keeps: rows waiting in the buffer always have a timer coming. */
  predicate Valid(s: State) {
    && |s.buf| <= BATCH_SIZE
    && (s.buf != [] ==> s.armed)
    && (s.stopped ==> s.buf == [])
    && (!s.stopped ==> s.dropped == [])
  }

  /** Everything the writer ever received, in order. */
  function Seen(s: State): seq<StandardLog> {
    s.table + s.dropped + s.buf
  }

  /** No attempt, successful or not, loses, duplicates or reorders a row. */
  lemma FlushKeeps(s: State, ok: bool)
    requires Valid(s) && !s.stopped
    ensures Valid(Flushed(s, ok)) && Seen(Flushed(s, ok)) == Seen(s)
    ensures Valid(Ticked(s, ok)) && Seen(Ticked(s, ok)) == Seen(s)
  {
    assert s.table + s.dropped + s.buf == s.table + s.buf;
  }

  /** Rows are given up only by the final drain, and only when its flush failed. */
  lemma DrainKeeps(s: State, ok: bool)
    requires Valid(s) && !s.stopped
    ensures Valid(Drained(s, ok)) && Seen(Drained(s, ok)) == Seen(s)
    ensures Drained(s, ok).dropped == (if ok then [] else s.buf)
  {
    assert s.table + s.dropped + s.buf == s.table + s.buf;
  }

  lemma ReceiveKeeps(s: State, l: StandardLog)
    requires Valid(s) && !s.stopped && |s.buf| < BATCH_SIZE
    ensures Valid(Received(s, l)) && Seen(Received(s, l)) == Seen(s) + [l]
  {
    assert s.table + s.dropped + (s.buf + [l]) == s.table + s.dropped + s.buf + [l];
  }

  /** What wakes the writer at its channel or timer. */
  datatype Event = Arrive(log: StandardLog) | Tick | Close

  function Arrivals(es: seq<Event>): seq<StandardLog> {
    if es == [] then []
    else Arrivals(es[..|es| - 1]) + (if es[|es| - 1].Arrive? then [es[|es| - 1].log] else [])
  }

  lemma ArrivalsNext(es: seq<Event>, k: nat)
    requires k < |es|
    ensures Arrivals(es[..k + 1]) == Arrivals(es[..k]) + (if es[k].Arrive? then [es[k].log] else [])
  {
    assert es[..k + 1][..k] == es[..k];
  }

  class Writer {
    var buf: seq<StandardLog>
    var armed: bool
    var table: seq<StandardLog>
    var dropped: seq<StandardLog>
    var stopped: bool

    constructor ()
      ensures Abstract() == FRESH
    {
      buf, armed, table, dropped, stopped := [], false, [], [], false;
    }

    function Abstract(): State
      reads this
    {
      State(buf, armed, table, dropped, stopped)
    }

    method TryFlush(ok: bool)
      requires Valid(Abstract()) && !stopped
      modifies this
      ensures Abstract() == Flushed(old(Abstract()), ok)
      ensures Valid(Abstract()) && Seen(Abstract()) == old(Seen(Abstract()))
    {
      FlushKeeps(Abstract(), ok);
      if |buf| == 0 {
        assert table + buf == table;
        return;
      }
      if !ok { return; }
      table := table + buf;
      buf := [];
    }

    method Drain(ok: bool)
      requires Valid(Abstract()) && !stopped
      modifies this
      ensures Abstract() == Drained(old(Abstract()), ok)
      ensures Valid(Abstract()) && Seen(Abstract()) == old(Seen(Abstract()))
    {
      DrainKeeps(Abstract(), ok);
      TryFlush(ok);
      dropped, buf, stopped := buf, [], true;
    }

    method Tick(ok: bool)
      requires Valid(Abstract()) && !stopped
      modifies this
      ensures Abstract() == Ticked(old(Abstract()), ok)
      ensures Valid(Abstract()) && Seen(Abstract()) == old(Seen(Abstract()))
    {
      FlushKeeps(Abstract(), ok);
      TryFlush(ok);
      armed := |buf| > 0;
    }

    method Append(l: StandardLog)
      requires Valid(Abstract()) && !stopped && |buf| < BATCH_SIZE
      modifies this
      ensures Abstract() == Received(old(Abstract()), l)
      ensures Valid(Abstract()) && Seen(Abstract()) == old(Seen(Abstract())) + [l]
    {
      ReceiveKeeps(Abstract(), l);
      buf := buf + [l];
      armed := true;
    }

    /**
      The writer's loop, driven by the events it is given and by the outcomes of its
      flush attempts, until it stops or one of the two runs out. While a full buffer
      keeps failing to flush, no event is taken.
     */
    method Run(events: seq<Event>, outcomes: seq<bool>) returns (taken: nat, attempts: nat)
      requires Valid(Abstract()) && !stopped
      modifies this
      ensures taken <= |events| && attempts <= |outcomes|
      ensures Valid(Abstract())
      ensures Seen(Abstract()) == old(Seen(Abstract())) + Arrivals(events[..taken])
      ensures stopped || taken == |events| || attempts == |outcomes|
      ensures stopped ==> 0 < taken && events[taken - 1].Close?
      ensures dropped != [] ==> stopped && 0 < attempts && !outcomes[attempts - 1]
    {
      taken, attempts := 0, 0;
      assert events[..0] == [];
      while true
        invariant taken <= |events| && attempts <= |outcomes|
        invariant Valid(Abstract()) && !stopped
        invariant Seen(Abstract()) == old(Seen(Abstract())) + Arrivals(events[..taken])
        decreases |events| - taken + |outcomes| - attempts
      {
        if |buf| >= BATCH_SIZE {
          if attempts == |outcomes| { return; }
          TryFlush(outcomes[attempts]);
          attempts := attempts + 1;
          continue;
        }
        if taken == |events| { return; }
        ArrivalsNext(events, taken);
        match events[taken] {
          case Arrive(l) =>
            Append(l);
          case Close =>
            if attempts == |outcomes| { return; }
            Drain(outcomes[attempts]);
            taken, attempts := taken + 1, attempts + 1;
            return;
          case Tick =>
            if armed {  // an unarmed writer waits on the channel alone
              if attempts == |outcomes| { return; }
              Tick(outcomes[attempts]);
              attempts := attempts + 1;
            }
        }
        taken := taken + 1;
      }
    }
  }
}
