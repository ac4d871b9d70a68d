/**
  The failed-auth throttle: a pruned sliding window per IP, swept and bounded, and
  the same lockouts read off the full failure history.
 */
module Throttling {
  import opened Common

  const WINDOW_MS := 60_000
  const MAX_FAILS := 5
  const LOCKOUT_MS := 60_000
  const STALE_MS := 600_000
  const MAX_ENTRIES := 10_000

  datatype Entry = Entry(failures: seq<int>, lockedUntil: int, lastSeenMs: int)

  type Entries = map<string, Entry>

  const NEW_ENTRY := Entry([], 0, 0)

  /** The times after a cutoff, in order. */
  function After(times: seq<int>, cutoff: int): seq<int> {
    if times == [] then []
    else After(times[..|times| - 1], cutoff)
         + (if times[|times| - 1] > cutoff then [times[|times| - 1]] else [])
  }

  /** An entry after one more failure. */
  function Recorded(e: Entry, now: int): Entry {
    var failures := After(e.failures, now - WINDOW_MS) + [now];
    if |failures| >= MAX_FAILS then Entry([], now + LOCKOUT_MS, now) else Entry(failures, e.lockedUntil, now)
  }

  predicate Locked(entries: Entries, ip: string, now: int) {
    ip in entries && now < entries[ip].lockedUntil
  }

  predicate Stale(e: Entry, now: int) {
    e.lastSeenMs < now - STALE_MS && now >= e.lockedUntil
  }

  function Swept(entries: Entries, now: int): Entries {
    map ip | ip in entries && !Stale(entries[ip], now) :: entries[ip]
  }

  /** Who may be evicted: while every IP is non-empty, the longest idle unlocked one, or a locked one if all are. */
  ghost predicate Evictable(entries: Entries, now: int, victim: string) {
    && victim in entries
    && ("" !in entries ==>
          if Locked(entries, victim, now)
          then forall ip :: ip in entries ==>
                 Locked(entries, ip, now) && entries[victim].lastSeenMs <= entries[ip].lastSeenMs
          else forall ip :: ip in entries && !Locked(entries, ip, now) ==>
                 entries[victim].lastSeenMs <= entries[ip].lastSeenMs)
  }

  /** The entries after a failure of `ip`; a new IP first makes room if the map is full. */
  function AfterFailure(entries: Entries, ip: string, now: int, victim: Option<string>): Entries {
    var room := if victim.Some? then entries - {victim.value} else entries;
    room[ip := Recorded(if ip in room then room[ip] else NEW_ENTRY, now)]
  }

  predicate NeedsRoom(entries: Entries, ip: string) {
    ip !in entries && |entries| >= MAX_ENTRIES
  }

  class ThrottlingService {
    var entries: Entries

    constructor ()
      ensures entries == map[]
    {
      entries := map[];
    }

    method IsLocked(ip: string, now: int) returns (locked: bool)
      ensures locked == Locked(entries, ip, now)
    {
      if ip !in entries { return false; }
      return now < entries[ip].lockedUntil;
    }

    method Sweep(now: int)
      modifies this
      ensures entries == Swept(old(entries), now)
      ensures forall ip :: ip in old(entries) ==>
                (ip !in entries <==> old(entries)[ip].lastSeenMs < now - 600_000 && now >= old(entries)[ip].lockedUntil)
    {
      var left := entries.Keys;
      ghost var all := entries;
      while left != {}
        invariant left <= all.Keys && entries.Keys <= all.Keys
        invariant forall ip :: ip in entries ==> entries[ip] == all[ip]
        invariant forall ip :: ip in all && (ip in left || !Stale(all[ip], now)) ==> ip in entries
        invariant forall ip :: ip in entries && ip !in left ==> !Stale(all[ip], now)
        decreases |left|
      {
        var ip :| ip in left;
        var e := entries[ip];
        if e.lastSeenMs < now - STALE_MS && now >= e.lockedUntil {
          entries := entries - {ip};
        }
        left := left - {ip};
      }
      assert entries == Swept(all, now);
    }

    /** Removes the longest idle unlocked entry, or a locked one when there is nothing else. */
    method EvictOldest(now: int) returns (victim: string)
      requires entries != map[]
      modifies this
      ensures Evictable(old(entries), now, victim)
      ensures entries == old(entries) - {victim}
    {
      var oldestIp, oldestLockedIp := "", "";
      var oldestMs, oldestLockedMs := 0, 0;
      var left := entries.Keys;
      while left != {}
        invariant left <= entries.Keys && entries == old(entries)
        invariant oldestIp != "" ==> oldestIp in entries && !Locked(entries, oldestIp, now)
                                     && oldestMs == entries[oldestIp].lastSeenMs
        invariant oldestLockedIp != "" ==> oldestLockedIp in entries && Locked(entries, oldestLockedIp, now)
                                           && oldestLockedMs == entries[oldestLockedIp].lastSeenMs
        invariant "" !in entries ==>
          forall ip :: ip in entries && ip !in left ==>
            if Locked(entries, ip, now) then oldestLockedIp != "" && oldestLockedMs <= entries[ip].lastSeenMs
            else oldestIp != "" && oldestMs <= entries[ip].lastSeenMs
        invariant oldestIp == "" && oldestLockedIp == "" && "" !in entries ==> left == entries.Keys
        decreases |left|
      {
        var ip :| ip in left;
        var e := entries[ip];
        if now < e.lockedUntil {
          if oldestLockedIp == "" || e.lastSeenMs < oldestLockedMs {
            oldestLockedMs, oldestLockedIp := e.lastSeenMs, ip;
          }
        } else if oldestIp == "" || e.lastSeenMs < oldestMs {
          oldestMs, oldestIp := e.lastSeenMs, ip;
        }
        left := left - {ip};
      }
      victim := if oldestIp != "" then oldestIp else oldestLockedIp;
      entries := entries - {victim};
    }

    /** `evictNow` is the clock reading that the eviction takes for itself. */
    method RecordFailure(ip: string, now: int, evictNow: int) returns (victim: Option<string>)
      modifies this
      ensures victim.Some? <==> NeedsRoom(old(entries), ip)
      ensures victim.Some? ==> Evictable(old(entries), evictNow, victim.value)
      ensures entries == AfterFailure(old(entries), ip, now, victim)
    {
      victim := None;
      var e := NEW_ENTRY;
      if ip in entries {
        e := entries[ip];
      } else if |entries| >= MAX_ENTRIES {
        var v := EvictOldest(evictNow);
        victim := Some(v);
      }
      var cutoff := now - WINDOW_MS;
      var pruned := [];
      for i := 0 to |e.failures|
        invariant pruned == After(e.failures[..i], cutoff)
      {
        assert e.failures[..i + 1][..i] == e.failures[..i];
        if e.failures[i] > cutoff {
          pruned := pruned + [e.failures[i]];
        }
      }
      assert e.failures[..|e.failures|] == e.failures;
      var failures, lockedUntil := pruned + [now], e.lockedUntil;
      if |failures| >= MAX_FAILS {
        lockedUntil := now + LOCKOUT_MS;
        failures := [];
      }
      entries := entries[ip := Entry(failures, lockedUntil, now)];
    }
  }

  // The same lockouts, read off the whole failure history of one IP.

  /** How many failures of h[from..] lie within the window that ends at `now`. */
  function Recent(h: seq<int>, from: nat, now: int): nat
    requires from <= |h|
    decreases |h| - from
  {
    if from == |h| then 0 else (if h[from] > now - WINDOW_MS then 1 else 0) + Recent(h, from + 1, now)
  }

  /** Where counting starts: just after the last failure that caused a lockout, or at the start. */
  function CountFrom(h: seq<int>): (n: nat)
    ensures n <= |h|
  {
    if h == [] then 0
    else
      var before := CountFrom(h[..|h| - 1]);
      if Recent(h, before, h[|h| - 1]) >= MAX_FAILS then |h| else before
  }

  /** Failure i is the fifth within the window since the last lockout. */
  predicate LocksOut(h: seq<int>, i: nat)
    requires i < |h|
  {
    CountFrom(h[..i + 1]) == i + 1
  }

  /** Some lockout is younger than the lockout time. */
  ghost predicate LockedByHistory(h: seq<int>, now: int) {
    exists i :: 0 <= i < |h| && LocksOut(h, i) && now < h[i] + LOCKOUT_MS
  }

  predicate Ordered(h: seq<int>) {
    forall i, j :: 0 <= i <= j < |h| ==> h[i] <= h[j]
  }

  /** A throttle with the history it should reflect: an IP's failures since it was last evicted. */
  datatype Throttle = Throttle(entries: Entries, history: map<string, seq<int>>, clock: int)

  function History(s: Throttle, ip: string): seq<int> {
    if ip in s.history then s.history[ip] else []
  }

  datatype Action = Fail(ip: string, at: int, victim: Option<string>, evictAt: int) | Sweep(at: int)

  /** One locked section; the clock readings never go back. */
  ghost predicate Step(s: Throttle, a: Action, s': Throttle) {
    && s.clock <= a.at == s'.clock
    && match a
       case Fail(ip, at, victim, evictAt) =>
         var kept := if victim.Some? then s.history - {victim.value} else s.history;
         && (victim.Some? <==> NeedsRoom(s.entries, ip))
         && (victim.Some? ==> Evictable(s.entries, evictAt, victim.value))
         && s'.entries == AfterFailure(s.entries, ip, at, victim)
         && s'.history == kept[ip := (if ip in kept then kept[ip] else []) + [at]]
       case Sweep(at) =>
         s'.entries == Swept(s.entries, at) && s'.history == s.history
  }

  ghost predicate Run(ss: seq<Throttle>, actions: seq<Action>) {
    && |ss| == |actions| + 1
    && ss[0].entries == map[] && ss[0].history == map[] && ss[0].clock >= 0
    && forall i :: 0 <= i < |actions| ==> Step(ss[i], actions[i], ss[i + 1])
  }

  /** When the last lockout of a history ends; zero when there was none. */
  function LockEnd(h: seq<int>): int {
    if h == [] then 0
    else if LocksOut(h, |h| - 1) then h[|h| - 1] + LOCKOUT_MS
    else LockEnd(h[..|h| - 1])
  }

  /** An entry and a history that no later failure and no later question can tell apart. */
  ghost predicate Reflects(e: Entry, h: seq<int>, clock: int) {
    && h != [] && h[|h| - 1] <= clock && e.lastSeenMs == h[|h| - 1]
    && e.failures == After(h[CountFrom(h)..], h[|h| - 1] - WINDOW_MS)
    && (e.lockedUntil == LockEnd(h) || (e.lockedUntil <= clock && LockEnd(h) <= clock))
  }

  /** A history that is as good as forgotten: every failure has left the window and no lockout runs. */
  ghost predicate Forgotten(h: seq<int>, clock: int) {
    && (forall i :: 0 <= i < |h| ==> h[i] <= clock - WINDOW_MS)
    && LockEnd(h) <= clock
  }

  ghost predicate IpInv(s: Throttle, ip: string) {
    && Ordered(History(s, ip))
    && (if ip in s.entries then Reflects(s.entries[ip], History(s, ip), s.clock)
        else Forgotten(History(s, ip), s.clock))
  }

  ghost predicate Inv(s: Throttle) {
    && s.clock >= 0 && |s.entries| <= MAX_ENTRIES
    && forall ip :: IpInv(s, ip)
  }

  // Lemmas on histories.

  lemma {:induction false} AfterLater(times: seq<int>, c: int, d: int)
    requires c <= d
    ensures After(After(times, c), d) == After(times, d)
    decreases |times|
  {
    if times != [] {
      var rest, t := times[..|times| - 1], times[|times| - 1];
      AfterLater(rest, c, d);
      var kept := After(rest, c);
      if t > c {
        assert (kept + [t])[..|kept + [t]| - 1] == kept;
      } else {
        assert After(times, c) == kept;
      }
    }
  }

  lemma {:induction false} AfterNone(times: seq<int>, c: int)
    requires forall i :: 0 <= i < |times| ==> times[i] <= c
    ensures After(times, c) == []
    decreases |times|
  {
    if times != [] { AfterNone(times[..|times| - 1], c); }
  }

  lemma {:induction false} RecentIsAfter(h: seq<int>, from: nat, now: int)
    requires from <= |h|
    ensures Recent(h, from, now) == |After(h[from..], now - WINDOW_MS)|
    decreases |h| - from
  {
    if from < |h| {
      RecentIsAfter(h, from + 1, now);
      assert h[from..] == [h[from]] + h[from + 1..];
      AfterCons(h[from], h[from + 1..], now - WINDOW_MS);
    }
  }

  lemma {:induction false} AfterCons(t: int, times: seq<int>, c: int)
    ensures After([t] + times, c) == (if t > c then [t] else []) + After(times, c)
    decreases |times|
  {
    var all := [t] + times;
    if times == [] {
      assert all[..|all| - 1] == [];
    } else {
      assert all[..|all| - 1] == [t] + times[..|times| - 1];
      AfterCons(t, times[..|times| - 1], c);
    }
  }

  /** Pruning once more forgets nothing that still counts. */
  lemma PrunedWindow(h: seq<int>, from: nat, now: int, failures: seq<int>, cutoff: int)
    requires from <= |h| && failures == After(h[from..], cutoff) && cutoff <= now - WINDOW_MS
    ensures After(failures, now - WINDOW_MS) + [now] == After((h + [now])[from..], now - WINDOW_MS)
  {
    AfterLater(h[from..], cutoff, now - WINDOW_MS);
    var tail := (h + [now])[from..];
    assert tail == h[from..] + [now];
    assert tail[..|tail| - 1] == h[from..];
  }

  lemma CountFromSnoc(h: seq<int>, now: int)
    ensures var all := h + [now];
            CountFrom(all) == if Recent(all, CountFrom(h), now) >= MAX_FAILS then |all| else CountFrom(h)
  {
    var all := h + [now];
    assert all[..|all| - 1] == h;
  }

  /** One more failure: the pruned window and the full history count the same and lock together. */
  lemma CountsAgree(h: seq<int>, now: int, failures: seq<int>, cutoff: int)
    requires failures == After(h[CountFrom(h)..], cutoff) && cutoff <= now - WINDOW_MS
    ensures var all := h + [now];
            var n := After(failures, now - WINDOW_MS) + [now];
            && (LocksOut(all, |h|) <==> |n| >= MAX_FAILS)
            && CountFrom(all) == (if |n| >= MAX_FAILS then |all| else CountFrom(h))
            && n == After(all[CountFrom(h)..], now - WINDOW_MS)
  {
    var all, from := h + [now], CountFrom(h);
    PrunedWindow(h, from, now, failures, cutoff);
    RecentIsAfter(all, from, now);
    CountFromSnoc(h, now);
    assert all[..|h| + 1] == all;
  }

  /** In an ordered history, five failures are recent exactly when the fifth from the end is. */
  lemma {:induction false} RecentFive(h: seq<int>, from: nat, now: int)
    requires Ordered(h) && from <= |h|
    ensures Recent(h, from, now) <= |h| - from
    ensures Recent(h, from, now) >= 5 <==> |h| - from >= 5 && h[|h| - 5] > now - 60_000
    ensures from < |h| && h[from] > now - 60_000 ==> Recent(h, from, now) == |h| - from
    decreases |h| - from
  {
    if from < |h| { RecentFive(h, from + 1, now); }
  }

  /** Counting starts behind the last lockout. */
  lemma {:induction false} CountFromIs(h: seq<int>)
    ensures var k := CountFrom(h);
            && (k > 0 ==> LocksOut(h, k - 1)) && forall j :: k <= j < |h| ==> !LocksOut(h, j)
    decreases |h|
  {
    if h != [] {
      var front := h[..|h| - 1];
      CountFromIs(front);
      assert h[..|h|] == h;
      forall j | 0 <= j < |front| ensures LocksOut(h, j) <==> LocksOut(front, j) { assert front[..j + 1] == h[..j + 1]; }
    }
  }

  /**
    What locks an IP out, without a count: a failure does exactly when it is the fifth of
    five less than a minute apart, none of the four before it being a lockout itself.
   */
  lemma LocksOutIff(h: seq<int>, i: nat)
    requires Ordered(h) && i < |h|
    ensures LocksOut(h, i) <==>
              i >= 4 && h[i] - h[i - 4] < 60_000 && forall j :: i - 4 <= j < i ==> !LocksOut(h, j)
  {
    var now, before := h[..i + 1], h[..i];
    var k := CountFrom(before);
    assert now[..i] == before && now[..|now|] == now;
    CountFromIs(before);
    RecentFive(now, k, h[i]);
    forall j | 0 <= j < i ensures LocksOut(before, j) <==> LocksOut(h, j) { assert before[..j + 1] == h[..j + 1]; }
  }

  lemma LockEndSnoc(h: seq<int>, now: int)
    ensures LockEnd(h + [now]) == (if LocksOut(h + [now], |h|) then now + LOCKOUT_MS else LockEnd(h))
  {
    assert (h + [now])[..|h + [now]| - 1] == h;
  }

  lemma OrderedSnoc(h: seq<int>, now: int)
    requires Ordered(h) && (h != [] ==> h[|h| - 1] <= now)
    ensures Ordered(h + [now])
  {
  }

  /** An entry that reflects its history does so after one more failure. */
  lemma RecordReflects(e: Entry, h: seq<int>, clock: int, now: int)
    requires Reflects(e, h, clock) && clock <= now
    ensures Reflects(Recorded(e, now), h + [now], now)
  {
    CountsAgree(h, now, e.failures, h[|h| - 1] - WINDOW_MS);
    LockEndSnoc(h, now);
    assert (h + [now])[|h + [now]|..] == [];
  }

  lemma NewCounts(h: seq<int>, clock: int, now: int)
    requires Forgotten(h, clock) && clock <= now
    ensures var all := h + [now];
            After(all[CountFrom(all)..], now - WINDOW_MS) == [now] && !LocksOut(all, |h|)
  {
    AfterNone(h[CountFrom(h)..], clock - WINDOW_MS);
    CountsAgree(h, now, [], clock - WINDOW_MS);
    assert After([], now - WINDOW_MS) + [now] == [now];
  }

  lemma FirstFailure(now: int)
    ensures Recorded(NEW_ENTRY, now) == Entry([now], 0, now)
  {
    assert After(NEW_ENTRY.failures, now - WINDOW_MS) == [];
  }

  /** A forgotten history may start again from an empty entry. */
  lemma NewReflects(h: seq<int>, clock: int, now: int)
    requires Forgotten(h, clock) && 0 <= clock <= now
    ensures Reflects(Entry([now], 0, now), h + [now], now)
  {
    NewCounts(h, clock, now);
    LockEndSnoc(h, now);
  }

  // Runs.

  lemma SweepIp(s: Throttle, at: int, s': Throttle, ip: string)
    requires IpInv(s, ip) && Step(s, Sweep(at), s')
    ensures IpInv(s', ip)
  {
    var h := History(s, ip);
    assert History(s', ip) == h;
    if ip in s.entries && ip !in s'.entries {
      assert h[|h| - 1] < at - STALE_MS;
      assert forall i :: 0 <= i < |h| ==> h[i] <= h[|h| - 1];
    }
  }

  /** The IP that failed. */
  lemma FailSelf(s: Throttle, a: Action, s': Throttle)
    requires s.clock >= 0 && a.Fail? && IpInv(s, a.ip) && Step(s, a, s')
    ensures IpInv(s', a.ip)
  {
    var h := History(s, a.ip);
    assert a.victim != Some(a.ip);
    assert History(s', a.ip) == h + [a.at];
    OrderedSnoc(h, a.at);
    if a.ip in s.entries {
      RecordReflects(s.entries[a.ip], h, s.clock, a.at);
    } else {
      NewReflects(h, s.clock, a.at);
      FirstFailure(a.at);
    }
  }

  /** Any other IP, evicted or not. */
  lemma FailOther(s: Throttle, a: Action, s': Throttle, ip: string)
    requires s.clock >= 0 && a.Fail? && ip != a.ip && IpInv(s, ip) && Step(s, a, s')
    ensures IpInv(s', ip)
  {
    if a.victim == Some(ip) {
      assert History(s', ip) == [] && ip !in s'.entries;
    } else {
      assert History(s', ip) == History(s, ip);
      assert ip in s'.entries <==> ip in s.entries;
    }
  }

  lemma FailSize(entries: Entries, ip: string, at: int, victim: Option<string>)
    requires |entries| <= MAX_ENTRIES && (victim.Some? <==> NeedsRoom(entries, ip))
    requires victim.Some? ==> victim.value in entries
    ensures |AfterFailure(entries, ip, at, victim)| <= MAX_ENTRIES
  {
    var room := if victim.Some? then entries - {victim.value} else entries;
    assert AfterFailure(entries, ip, at, victim).Keys == room.Keys + {ip};
    if victim.Some? {
      assert entries.Keys == room.Keys + {victim.value};
    }
  }

  lemma StepSize(s: Throttle, a: Action, s': Throttle)
    requires |s.entries| <= MAX_ENTRIES && Step(s, a, s')
    ensures |s'.entries| <= MAX_ENTRIES
  {
    if a.Fail? {
      FailSize(s.entries, a.ip, a.at, a.victim);
    } else {
      assert s'.entries.Keys <= s.entries.Keys;
      SubsetSize(s'.entries.Keys, s.entries.Keys);
    }
  }

  /** An eviction ends a running lockout only when every entry is locked; otherwise the longest unseen unlocked one goes. */
  lemma EvictionSpares(entries: Entries, now: int, victim: string)
    requires Evictable(entries, now, victim) && "" !in entries
    ensures entries[victim].lockedUntil > now ==> forall ip :: ip in entries ==> entries[ip].lockedUntil > now
    ensures forall ip :: ip in entries && (entries[victim].lockedUntil > now || entries[ip].lockedUntil <= now) ==>
              entries[victim].lastSeenMs <= entries[ip].lastSeenMs
  {
  }

  lemma SubsetSize<T>(a: set<T>, b: set<T>)
    requires a <= b
    ensures |a| <= |b|
  {
    assert b == a + (b - a);
  }

  lemma {:induction false} RunInv(ss: seq<Throttle>, actions: seq<Action>, n: nat)
    requires Run(ss, actions) && n < |ss|
    ensures Inv(ss[n])
  {
    if n > 0 {
      RunInv(ss, actions, n - 1);
      var s, a, s' := ss[n - 1], actions[n - 1], ss[n];
      StepSize(s, a, s');
      forall ip ensures IpInv(s', ip) {
        assert IpInv(s, ip);
        match a
        case Fail(_, _, _, _) => if ip == a.ip { FailSelf(s, a, s'); } else { FailOther(s, a, s', ip); }
        case Sweep(at) => SweepIp(s, at, s', ip);
      }
    }
  }

  lemma LockedSnoc(h: seq<int>, now: int)
    requires h != []
    ensures LockedByHistory(h, now)
            <==> LockedByHistory(h[..|h| - 1], now) || (LocksOut(h, |h| - 1) && now < h[|h| - 1] + LOCKOUT_MS)
  {
    var rest := h[..|h| - 1];
    forall i | 0 <= i < |rest| ensures LocksOut(rest, i) <==> LocksOut(h, i) {
      assert rest[..i + 1] == h[..i + 1];
    }
    if LockedByHistory(rest, now) {
      var i :| 0 <= i < |rest| && LocksOut(rest, i) && now < rest[i] + LOCKOUT_MS;
      assert LocksOut(h, i) && now < h[i] + LOCKOUT_MS;
    }
    if LockedByHistory(h, now) {
      var i :| 0 <= i < |h| && LocksOut(h, i) && now < h[i] + LOCKOUT_MS;
      assert i < |rest| ==> LocksOut(rest, i) && now < rest[i] + LOCKOUT_MS;
    }
  }

  lemma {:induction false} LockEndIsLast(h: seq<int>, now: int)
    requires Ordered(h) && now >= 0
    ensures now < LockEnd(h) <==> LockedByHistory(h, now)
    decreases |h|
  {
    if h != [] {
      var rest := h[..|h| - 1];
      LockEndIsLast(rest, now);
      LockedSnoc(h, now);
      if LockedByHistory(rest, now) {
        var i :| 0 <= i < |rest| && LocksOut(rest, i) && now < rest[i] + LOCKOUT_MS;
        assert rest[i] == h[i] <= h[|h| - 1];
      }
    }
  }

  /**
    In every run and for every IP, IsLocked answers what the IP's full failure
    history since its last eviction says: some failure was the fifth within a minute
    since the lockout before it, and less than a minute ago. Pruning and sweeping
    never change an answer.
   */
  lemma ThrottleRefinesHistory(ss: seq<Throttle>, actions: seq<Action>, n: nat, ip: string, now: int)
    requires Run(ss, actions) && n < |ss| && now >= ss[n].clock
    ensures Locked(ss[n].entries, ip, now) <==> LockedByHistory(History(ss[n], ip), now)
    ensures var h := History(ss[n], ip);
            Locked(ss[n].entries, ip, now) <==> exists i :: 0 <= i < |h| && LocksOut(h, i) && now < h[i] + 60_000
  {
    RunInv(ss, actions, n);
    assert IpInv(ss[n], ip);
    LockEndIsLast(History(ss[n], ip), now);
  }

  /** The map never outgrows its cap. */
  lemma EntriesBounded(ss: seq<Throttle>, actions: seq<Action>, n: nat)
    requires Run(ss, actions) && n < |ss|
    ensures |ss[n].entries| <= 10_000
  {
    RunInv(ss, actions, n);
  }
}
