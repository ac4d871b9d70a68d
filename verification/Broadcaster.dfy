/**
  The live feed's fan-out, from ingestion/broadcaster.go: every subscriber has a channel of
  its own, and a send that would block is dropped.
 */
module Broadcaster {

  const SUBSCRIBER_BUF_SIZE := 100

  /** Open channels by subscriber, channels closed by unsubscribing, and what each reader has taken. */
  datatype Hub<T> = Hub(subs: map<nat, seq<T>>, closed: map<nat, seq<T>>, nextId: nat, got: map<nat, seq<T>>)

  /** A non-blocking send. */
  function Push<T>(buf: seq<T>, x: T): seq<T> {
    if |buf| < SUBSCRIBER_BUF_SIZE then buf + [x] else buf
  }

  datatype Action<T> = Broadcast(log: T) | Subscribe | Unsubscribe(id: nat) | Receive(id: nat)

  function Step<T>(h: Hub<T>, a: Action<T>): Hub<T> {
    match a
    case Broadcast(x) => h.(subs := map id | id in h.subs :: Push(h.subs[id], x))
    case Subscribe => Hub(h.subs[h.nextId := []], h.closed, h.nextId + 1, h.got[h.nextId := []])
    case Unsubscribe(id) =>
      if id in h.subs then h.(subs := h.subs - {id}, closed := h.closed[id := h.subs[id]]) else h
    case Receive(id) => Received(h, id)
  }

  /** A closed channel still hands out what it holds. */
  function Received<T>(h: Hub<T>, id: nat): Hub<T> {
    if id !in h.got then h
    else if id in h.subs && h.subs[id] != [] then
      h.(subs := h.subs[id := h.subs[id][1..]], got := h.got[id := h.got[id] + [h.subs[id][0]]])
    else if id !in h.subs && id in h.closed && h.closed[id] != [] then
      h.(closed := h.closed[id := h.closed[id][1..]], got := h.got[id := h.got[id] + [h.closed[id][0]]])
    else h
  }

  function Run<T>(actions: seq<Action<T>>): Hub<T> {
    if actions == [] then Hub(map[], map[], 0, map[])
    else Step(Run(actions[..|actions| - 1]), actions[|actions| - 1])
  }

  /** The broadcaster itself; readers take from the channels on their own. */
  class Broadcaster<T(!new)> {
    var subs: map<nat, seq<T>>
    var closed: map<nat, seq<T>>
    var nextId: nat

    ghost function AsHub(got: map<nat, seq<T>>): Hub<T>
      reads this
    {
      Hub(subs, closed, nextId, got)
    }

    constructor ()
      ensures AsHub(map[]) == Run<T>([])
    {
      subs, closed, nextId := map[], map[], 0;
    }

    /** Every subscriber is offered the log once, in whatever order the map is walked. */
    method Broadcast(x: T)
      modifies this`subs
      ensures forall got :: AsHub(got) == Step(old(AsHub(got)), Action.Broadcast(x))
    {
      ghost var before := subs;
      var ids := subs.Keys;
      while ids != {}
        invariant ids <= before.Keys && subs.Keys == before.Keys
        invariant forall id :: id in subs ==> subs[id] == if id in ids then before[id] else Push(before[id], x)
      {
        var id :| id in ids;
        if |subs[id]| < SUBSCRIBER_BUF_SIZE {
          subs := subs[id := subs[id] + [x]];
        }
        ids := ids - {id};
      }
      assert subs == map id | id in before :: Push(before[id], x);
    }

    method Subscribe() returns (id: nat)
      modifies this`subs, this`nextId
      ensures id == old(nextId)
      ensures forall got :: AsHub(got[id := []]) == Step(old(AsHub(got)), Action.Subscribe)
    {
      id := nextId;
      nextId := nextId + 1;
      subs := subs[id := []];
    }

    /** Unsubscribing again closes nothing. */
    method Unsubscribe(id: nat)
      modifies this`subs, this`closed
      ensures forall got :: AsHub(got) == Step(old(AsHub(got)), Action.Unsubscribe(id))
    {
      if id in subs {
        closed := closed[id := subs[id]];
        subs := subs - {id};
      }
    }
  }

  // ----- one reader on its own -----

  /**
    A reader's channel with its history: the logs broadcast while it was open, which of
    them went in, and how many logs the reader had taken at each of those moments.
   */
  datatype Reader<T> =
    | Absent
    | Reader(open: bool, buf: seq<T>, got: seq<T>, since: seq<T>, kept: seq<bool>, taken: seq<nat>)

  function Follow<T>(r: Reader<T>, a: Action<T>, id: nat, nextId: nat): Reader<T> {
    match a
    case Broadcast(x) =>
      if r.Reader? && r.open then
        Reader(true, Push(r.buf, x), r.got, r.since + [x], r.kept + [|r.buf| < SUBSCRIBER_BUF_SIZE], r.taken + [|r.got|])
      else r
    case Subscribe => if id == nextId then Reader(true, [], [], [], [], []) else r
    case Unsubscribe(i) => if i == id && r.Reader? then r.(open := false) else r
    case Receive(i) =>
      if i == id && r.Reader? && r.buf != [] then r.(buf := r.buf[1..], got := r.got + [r.buf[0]]) else r
  }

  function Subscribed<T>(actions: seq<Action<T>>): nat {
    if actions == [] then 0
    else Subscribed(actions[..|actions| - 1]) + if actions[|actions| - 1].Subscribe? then 1 else 0
  }

  function ReaderOf<T>(actions: seq<Action<T>>, id: nat): Reader<T> {
    if actions == [] then Absent
    else
      var before := actions[..|actions| - 1];
      Follow(ReaderOf(before, id), actions[|actions| - 1], id, Subscribed(before))
  }

  /** What the hub holds for one subscriber. */
  predicate Shows<T(==)>(h: Hub<T>, id: nat, r: Reader<T>) {
    && (id in h.got <==> r.Reader?)
    && (id in h.subs <==> r.Reader? && r.open)
    && (id in h.closed <==> r.Reader? && !r.open)
    && (r.Reader? ==> h.got[id] == r.got && r.buf == if r.open then h.subs[id] else h.closed[id])
  }

  predicate Numbered<T>(h: Hub<T>) {
    && (forall id :: id in h.got ==> id < h.nextId)
    && (forall id :: id in h.subs ==> id < h.nextId)
    && (forall id :: id in h.closed ==> id < h.nextId)
  }

  lemma {:induction false} RunNumbered<T>(actions: seq<Action<T>>)
    ensures Numbered(Run(actions)) && Run(actions).nextId == Subscribed(actions)
    decreases |actions|
  {
    if actions != [] { RunNumbered(actions[..|actions| - 1]); }
  }

  lemma StepShows<T>(h: Hub<T>, a: Action<T>, id: nat, r: Reader<T>)
    requires Shows(h, id, r) && Numbered(h)
    ensures Shows(Step(h, a), id, Follow(r, a, id, h.nextId))
  {
  }

  /** The hub runs every subscriber as if it were alone: each sees its own channel's history. */
  lemma {:induction false} HubIsReaders<T>(actions: seq<Action<T>>, id: nat)
    ensures Shows(Run(actions), id, ReaderOf(actions, id))
    decreases |actions|
  {
    if actions != [] {
      var before := actions[..|actions| - 1];
      HubIsReaders(before, id);
      RunNumbered(before);
      StepShows(Run(before), actions[|actions| - 1], id, ReaderOf(before, id));
    }
  }

  // ----- a slow reader is its own problem -----

  predicate OthersDoing<T>(a: Action<T>, id: nat) {
    (a.Unsubscribe? || a.Receive?) && a.id != id
  }

  /** The run in which the other readers neither read nor leave. */
  function Alone<T>(actions: seq<Action<T>>, id: nat): seq<Action<T>> {
    if actions == [] then []
    else
      var before, a := Alone(actions[..|actions| - 1], id), actions[|actions| - 1];
      if OthersDoing(a, id) then before else before + [a]
  }

  lemma Last<T>(actions: seq<Action<T>>, a: Action<T>, id: nat)
    ensures ReaderOf(actions + [a], id) == Follow(ReaderOf(actions, id), a, id, Subscribed(actions))
    ensures Subscribed(actions + [a]) == Subscribed(actions) + if a.Subscribe? then 1 else 0
  {
    assert (actions + [a])[..|actions|] == actions;
  }

  lemma {:induction false} AloneFollows<T>(actions: seq<Action<T>>, id: nat)
    ensures ReaderOf(Alone(actions, id), id) == ReaderOf(actions, id)
    ensures Subscribed(Alone(actions, id)) == Subscribed(actions)
    decreases |actions|
  {
    if actions != [] {
      var before, a := actions[..|actions| - 1], actions[|actions| - 1];
      AloneFollows(before, id);
      var alone := Alone(before, id);
      if OthersDoing(a, id) {
        assert Alone(actions, id) == alone;
      } else {
        Last(alone, a, id);
      }
    }
  }

  /** What a subscriber receives and has waiting is the same however the others read or leave. */
  lemma SlowReaderHarmless<T>(actions: seq<Action<T>>, id: nat)
    ensures var h, k := Run(actions), Run(Alone(actions, id));
            && (id in h.got <==> id in k.got) && (id in h.subs <==> id in k.subs)
            && (id in h.got ==> h.got[id] == k.got[id])
            && (id in h.subs ==> h.subs[id] == k.subs[id])
  {
    AloneFollows(actions, id);
    HubIsReaders(actions, id);
    HubIsReaders(Alone(actions, id), id);
  }

  // ----- what a reader gets -----

  function Filter<T>(xs: seq<T>, keep: seq<bool>): seq<T>
    requires |xs| == |keep|
  {
    if xs == [] then []
    else Filter(xs[..|xs| - 1], keep[..|xs| - 1]) + if keep[|xs| - 1] then [xs[|xs| - 1]] else []
  }

  lemma {:induction false} FilterAll<T>(xs: seq<T>, keep: seq<bool>)
    requires |xs| == |keep|
    ensures |Filter(xs, keep)| <= |xs|
    ensures |Filter(xs, keep)| == |xs| <==> forall i :: 0 <= i < |keep| ==> keep[i]
    ensures |Filter(xs, keep)| == |xs| ==> Filter(xs, keep) == xs
  {
    if xs != [] {
      FilterAll(xs[..|xs| - 1], keep[..|xs| - 1]);
      assert xs == xs[..|xs| - 1] + [xs[|xs| - 1]];
      assert forall i :: 0 <= i < |keep| - 1 ==> keep[..|xs| - 1][i] == keep[i];
    }
  }

  /** The sends that went in are those that found fewer than 100 unread logs. */
  predicate Delivered<T(==)>(r: Reader<T>)
    requires r.Reader?
  {
    && |r.since| == |r.kept| == |r.taken|
    && r.got + r.buf == Filter(r.since, r.kept)
    && |r.buf| <= SUBSCRIBER_BUF_SIZE
    && (forall i :: 0 <= i < |r.kept| ==>
          (r.kept[i] <==> |Filter(r.since[..i], r.kept[..i])| - r.taken[i] < SUBSCRIBER_BUF_SIZE))
  }

  lemma OfferDelivered<T>(r: Reader<T>, x: T)
    requires r.Reader? && Delivered(r)
    ensures Delivered(r.(buf := Push(r.buf, x), since := r.since + [x],
                         kept := r.kept + [|r.buf| < SUBSCRIBER_BUF_SIZE], taken := r.taken + [|r.got|]))
  {
    var n, since, kept := |r.since|, r.since + [x], r.kept + [|r.buf| < SUBSCRIBER_BUF_SIZE];
    assert since[..n] == r.since && kept[..n] == r.kept;
    assert r.got + Push(r.buf, x) == r.got + r.buf + if kept[n] then [x] else [];
    assert forall i :: 0 <= i < n ==> since[..i] == r.since[..i] && kept[..i] == r.kept[..i];
  }

  lemma FollowDelivered<T>(r: Reader<T>, a: Action<T>, id: nat, nextId: nat)
    requires r.Reader? && Delivered(r)
    ensures Delivered(Follow(r, a, id, nextId))
  {
    var s := Follow(r, a, id, nextId);
    if a.Broadcast? && r.open {
      OfferDelivered(r, a.log);
    } else if a.Receive? && r.buf != [] {
      assert r.got + r.buf == r.got + [r.buf[0]] + r.buf[1..];
    }
  }

  /**
    At every point of every run a subscriber has received, in order and without repeats,
    a subsequence of the logs broadcast since it joined; a log is missing only if 100
    unread ones were waiting when it was sent.
   */
  lemma {:induction false} InOrderDelivery<T>(actions: seq<Action<T>>, id: nat)
    requires ReaderOf(actions, id).Reader?
    ensures Delivered(ReaderOf(actions, id))
    decreases |actions|
  {
    var before := actions[..|actions| - 1];
    if ReaderOf(before, id).Reader? {
      InOrderDelivery(before, id);
      FollowDelivered(ReaderOf(before, id), actions[|actions| - 1], id, Subscribed(before));
    }
  }

  lemma {:induction false} KeptUntil<T>(r: Reader<T>, n: nat)
    requires r.Reader? && Delivered(r) && n <= |r.since|
    requires forall i :: 0 <= i < n ==> i - r.taken[i] < SUBSCRIBER_BUF_SIZE
    ensures forall i :: 0 <= i < n ==> r.kept[i]
  {
    if n > 0 {
      KeptUntil(r, n - 1);
      FilterAll(r.since[..n - 1], r.kept[..n - 1]);
    }
  }

  /** Nothing is lost exactly when the reader was never 100 logs behind at a send. */
  lemma LosslessIff<T>(actions: seq<Action<T>>, id: nat)
    requires ReaderOf(actions, id).Reader?
    ensures var r := ReaderOf(actions, id);
            && |r.taken| == |r.since|
            && (r.got + r.buf == r.since
                <==> forall i :: 0 <= i < |r.since| ==> i - r.taken[i] < 100)
  {
    var r := ReaderOf(actions, id);
    InOrderDelivery(actions, id);
    FilterAll(r.since, r.kept);
    if forall i :: 0 <= i < |r.since| ==> i - r.taken[i] < SUBSCRIBER_BUF_SIZE {
      KeptUntil(r, |r.since|);
    }
    if r.got + r.buf == r.since {
      forall i | 0 <= i < |r.since| ensures i - r.taken[i] < SUBSCRIBER_BUF_SIZE {
        FilterAll(r.since[..i], r.kept[..i]);
      }
    }
  }
}
