/**
  Revoked stays revoked: which key creations keep that promise, and what a run looks
  like that breaks it. The table may hand out the id of a deleted row again.
 */
module Revocation {
  import opened Common
  import opened Text
  import opened ApiKeys

  /** Some Verify said yes on the strength of a row whose Revoke had returned before the call began. */
  ghost predicate Broken(s: Service) {
    exists v :: 0 <= v < |s.verifies| && SaidYesToRevoked(s.verifies[v])
  }

  predicate SaidYesToRevoked(f: Verify) {
    f.Returned? && f.ok && (KeyId(f.c), f.phc) in f.c.since
  }

  /** A Verify that has read a row under this id, accepted it, and may still cache the key. */
  predicate InFlight(kdf: Kdf, f: Verify, id: int) {
    match f
    case Hashing(c, phc) => KeyId(c) == id && kdf(Secret(c), phc)
    case Waiting(c, _) => KeyId(c) == id
    case Locked(c, _) => KeyId(c) == id
    case _ => false
  }

  /** It already holds the lock and its row is not revoked yet: the purge will come after its insert. */
  predicate Harmless(s: Service, f: Verify) {
    f.Locked? && (KeyId(f.c), f.phc) !in s.revoked
  }

  /** The id may be handed out. */
  predicate SafeId(kdf: Kdf, s: Service, id: int) {
    forall v :: 0 <= v < |s.verifies| && InFlight(kdf, s.verifies[v], id) ==> Harmless(s, s.verifies[v])
  }

  predicate SafeAction(kdf: Kdf, s: Service, a: Action) {
    a.Create? ==> SafeId(kdf, s, a.id)
  }

  /** A run in which no id is handed out unsafely. */
  function SafeExec(kdf: Kdf, s: Service, run: seq<Action>): Option<Service>
    decreases |run|
  {
    if run == [] then Some(s)
    else
      var q := Step(kdf, s, run[0]);
      if q.None? || !SafeAction(kdf, s, run[0]) then None else SafeExec(kdf, q.value, run[1..])
  }

  ghost predicate SafelyReachable(kdf: Kdf, s: Service) {
    exists verifies: nat, revokes: nat, run: seq<Action> :: SafeExec(kdf, Init(verifies, revokes), run) == Some(s)
  }

  // What a safe run keeps.

  /** The row is good for now: not revoked, and stored or about to be purged from the cache. */
  ghost predicate Good(s: Service, p: Row) {
    p in s.issued && p !in s.revoked && (Stored(s, p) || Pending(s, p.0))
  }

  /** A cached key was accepted by a row that is good for now. */
  ghost predicate EntryInv(kdf: Kdf, s: Service, k: string) {
    k in s.verified ==>
      && k in s.origin && Parse(k).Some? && Parse(k).value.0 == s.verified[k]
      && kdf(Parse(k).value.1, s.origin[k])
      && Good(s, (s.verified[k], s.origin[k]))
  }

  ghost predicate CacheInv(kdf: Kdf, s: Service) {
    forall k :: EntryInv(kdf, s, k)
  }

  ghost predicate SafeCall(kdf: Kdf, s: Service, f: Verify) {
    f.Idle? ||
    (&& (InFlight(kdf, f, KeyId(f.c)) && KeyId(f.c) in s.table ==>
           Stored(s, (KeyId(f.c), f.phc)) || (Harmless(s, f) && Pending(s, KeyId(f.c))))
     && (f.Checked? ==> Good(s, (KeyId(f.c), f.phc)))
     && ((f.Leaving? || f.Returned?) && f.ok ==>
           && Parse(f.c.key).Some? && kdf(Secret(f.c), f.phc)
           && (KeyId(f.c), f.phc) in s.issued && (KeyId(f.c), f.phc) !in f.c.since))
  }

  ghost predicate SafeInv(kdf: Kdf, s: Service) {
    && Inv(kdf, s) && CacheInv(kdf, s)
    && forall v :: 0 <= v < |s.verifies| ==> SafeCall(kdf, s, s.verifies[v])
  }

  /** A row no longer stored whose reader holds the lock: its Revoke, if it has not returned, is waiting. */
  lemma WaitsToPurge(s: Service, v: nat)
    requires LockInv(s) && RowsInv(s) && Accounted(s) && v < |s.verifies| && Harmless(s, s.verifies[v])
    requires var p := (KeyId(s.verifies[v].c), s.verifies[v].phc); p in s.issued && !Stored(s, p)
    ensures Pending(s, KeyId(s.verifies[v].c))
  {
    var p := (KeyId(s.verifies[v].c), s.verifies[v].phc);
    assert s.owner == TheVerify(v);
    var r :| 0 <= r < |s.revokes| && Dooms(s.revokes[r], p);
    assert DoomedInv(s, s.revokes[r]);
    assert s.revokes[r].Purging? && s.revokes[r].id == p.0;
  }

  lemma CreateCall(kdf: Kdf, s: Service, id: int, phc: string, v: nat)
    requires SafeInv(kdf, s) && CreateStep(s, id, phc).Some? && SafeId(kdf, s, id) && v < |s.verifies|
    ensures SafeCall(kdf, CreateStep(s, id, phc).value, s.verifies[v])
  {
    var q, f := CreateStep(s, id, phc).value, s.verifies[v];
    assert SafeCall(kdf, s, f) && CallInv(kdf, s, f);
    assert forall i :: Pending(s, i) ==> Pending(q, i);
    assert forall p :: Stored(s, p) ==> Stored(q, p);
    if InFlight(kdf, f, id) { WaitsToPurge(s, v); }
  }

  lemma CreateSafe(kdf: Kdf, s: Service, id: int, phc: string)
    requires SafeInv(kdf, s) && CreateStep(s, id, phc).Some? && SafeId(kdf, s, id)
    ensures SafeInv(kdf, CreateStep(s, id, phc).value)
  {
    var q := CreateStep(s, id, phc).value;
    CreateInv(kdf, s, id, phc);
    assert forall i :: Pending(s, i) ==> Pending(q, i);
    forall k ensures EntryInv(kdf, q, k) { assert EntryInv(kdf, s, k); }
    forall v | 0 <= v < |q.verifies| ensures SafeCall(kdf, q, q.verifies[v]) { CreateCall(kdf, s, id, phc, v); }
  }

  /** A call that finds its key cached answers for a good row. */
  lemma LookUpSafe(kdf: Kdf, s: Service, v: nat)
    requires VerifyStep(kdf, s, LookUp(v)).Some? && v < |s.verifies|
    requires CallInv(kdf, s, s.verifies[v]) && EntryInv(kdf, s, s.verifies[v].c.key)
    ensures SafeCall(kdf, VerifyStep(kdf, s, LookUp(v)).value, VerifyAt(VerifyStep(kdf, s, LookUp(v)).value, v))
  {
  }

  /** The rows a step of Verify leaves alone, with who is pending. */
  ghost predicate Untouched(s: Service, q: Service) {
    SameRows(s, q) && forall i :: Pending(q, i) <==> Pending(s, i)
  }

  lemma RecheckSafe(kdf: Kdf, s: Service, a: Action)
    requires a.Recheck? && VerifyStep(kdf, s, a).Some? && a.v < |s.verifies|
    requires RowsInv(s) && CallInv(kdf, s, s.verifies[a.v]) && SafeCall(kdf, s, s.verifies[a.v])
    requires Untouched(s, VerifyStep(kdf, s, a).value)
    ensures SafeCall(kdf, VerifyStep(kdf, s, a).value, VerifyAt(VerifyStep(kdf, s, a).value, a.v))
  {
  }

  lemma OtherSafe(kdf: Kdf, s: Service, a: Action)
    requires !a.LookUp? && !a.Recheck? && VerifyStep(kdf, s, a).Some? && a.v < |s.verifies|
    requires CallInv(kdf, s, s.verifies[a.v]) && SafeCall(kdf, s, s.verifies[a.v])
    requires Untouched(s, VerifyStep(kdf, s, a).value)
    ensures SafeCall(kdf, VerifyStep(kdf, s, a).value, VerifyAt(VerifyStep(kdf, s, a).value, a.v))
  {
  }

  lemma MovedSafe(kdf: Kdf, s: Service, a: Action)
    requires SafeInv(kdf, s) && VerifyStep(kdf, s, a).Some? && a.v < |s.verifies|
    ensures SafeCall(kdf, VerifyStep(kdf, s, a).value, VerifyAt(VerifyStep(kdf, s, a).value, a.v))
  {
    var q, f := VerifyStep(kdf, s, a).value, s.verifies[a.v];
    VerifyMoves(kdf, s, a);
    SameRowsInv(s, q);
    assert SafeCall(kdf, s, f) && CallInv(kdf, s, f);
    if a.LookUp? {
      assert EntryInv(kdf, s, f.c.key);
      LookUpSafe(kdf, s, a.v);
    } else if a.Recheck? {
      RecheckSafe(kdf, s, a);
    } else {
      OtherSafe(kdf, s, a);
    }
  }

  lemma VerifyCache(kdf: Kdf, s: Service, a: Action)
    requires SafeInv(kdf, s) && VerifyStep(kdf, s, a).Some?
    ensures CacheInv(kdf, VerifyStep(kdf, s, a).value)
  {
    var q := VerifyStep(kdf, s, a).value;
    VerifyMoves(kdf, s, a);
    SameRowsInv(s, q);
    assert SafeCall(kdf, s, s.verifies[a.v]) && CallInv(kdf, s, s.verifies[a.v]);
    forall k ensures EntryInv(kdf, q, k) { assert EntryInv(kdf, s, k); }
  }

  lemma VerifySafe(kdf: Kdf, s: Service, a: Action)
    requires SafeInv(kdf, s) && VerifyStep(kdf, s, a).Some?
    ensures SafeInv(kdf, VerifyStep(kdf, s, a).value)
  {
    var q := VerifyStep(kdf, s, a).value;
    VerifyInv(kdf, s, a);
    VerifyCache(kdf, s, a);
    VerifyMoves(kdf, s, a);
    SameRowsInv(s, q);
    MovedSafe(kdf, s, a);
    forall v | 0 <= v < |q.verifies| ensures SafeCall(kdf, q, q.verifies[v]) {
      assert SafeCall(kdf, s, s.verifies[v]);
    }
  }

  /** A good row stays good through every step of a Revoke but the purge of its id. */
  lemma RevokeGood(s: Service, a: Action, p: Row)
    requires LockInv(s) && RowsInv(s) && RevokeStep(s, a).Some? && Good(s, p)
    requires a.Purge? || a.UnlockRevoke? ==> s.revokes[a.r].id != p.0
    ensures Good(RevokeStep(s, a).value, p)
  {
    RevokeLive(s, a, p.0);
    if a.UnlockRevoke? {
      assert DoomedInv(s, s.revokes[a.r]) && !Dooms(s.revokes[a.r], p);
    }
  }

  lemma RevokeCache(kdf: Kdf, s: Service, a: Action)
    requires SafeInv(kdf, s) && RevokeStep(s, a).Some?
    ensures CacheInv(kdf, RevokeStep(s, a).value)
  {
    var q := RevokeStep(s, a).value;
    forall k ensures EntryInv(kdf, q, k) {
      assert EntryInv(kdf, s, k);
      if k in q.verified { RevokeGood(s, a, (s.verified[k], s.origin[k])); }
    }
  }

  lemma RevokeSafeCall(kdf: Kdf, s: Service, a: Action, v: nat)
    requires SafeInv(kdf, s) && RevokeStep(s, a).Some? && v < |s.verifies|
    ensures SafeCall(kdf, RevokeStep(s, a).value, s.verifies[v])
  {
    var q, f := RevokeStep(s, a).value, s.verifies[v];
    assert SafeCall(kdf, s, f);
    if HoldsV(f) {
      assert s.owner == TheVerify(v);
      RevokeLive(s, a, KeyId(f.c));
      if f.Checked? { RevokeGood(s, a, (KeyId(f.c), f.phc)); }
    }
  }

  lemma RevokeSafe(kdf: Kdf, s: Service, a: Action)
    requires SafeInv(kdf, s) && RevokeStep(s, a).Some?
    ensures SafeInv(kdf, RevokeStep(s, a).value)
  {
    var q := RevokeStep(s, a).value;
    RevokeInv(kdf, s, a);
    RevokeCache(kdf, s, a);
    forall v | 0 <= v < |q.verifies| ensures SafeCall(kdf, q, q.verifies[v]) { RevokeSafeCall(kdf, s, a, v); }
  }

  lemma StepSafe(kdf: Kdf, s: Service, a: Action)
    requires SafeInv(kdf, s) && Step(kdf, s, a).Some? && SafeAction(kdf, s, a)
    ensures SafeInv(kdf, Step(kdf, s, a).value)
  {
    if a.Create? {
      CreateSafe(kdf, s, a.id, a.phc);
    } else if OfRevoke(a) {
      RevokeSafe(kdf, s, a);
    } else {
      VerifySafe(kdf, s, a);
    }
  }

  lemma {:induction false} SafeExecInv(kdf: Kdf, s: Service, run: seq<Action>)
    requires SafeInv(kdf, s) && SafeExec(kdf, s, run).Some?
    ensures SafeInv(kdf, SafeExec(kdf, s, run).value)
    decreases |run|
  {
    if run != [] {
      StepSafe(kdf, s, run[0]);
      SafeExecInv(kdf, Step(kdf, s, run[0]).value, run[1..]);
    }
  }

  lemma SafelyReachableInv(kdf: Kdf, s: Service)
    requires SafelyReachable(kdf, s)
    ensures SafeInv(kdf, s)
  {
    var verifies: nat, revokes: nat, run: seq<Action> :| SafeExec(kdf, Init(verifies, revokes), run) == Some(s);
    InitInv(kdf, verifies, revokes);
    SafeExecInv(kdf, Init(verifies, revokes), run);
  }

  /**
    A Verify that returned true was accepted by a row that had been issued and whose
    Revoke had not returned when the call started. So once Revoke has returned, no
    Verify that starts later says yes on the strength of that row, whatever was
    running in between.
   */
  lemma RevokedStaysRevoked(kdf: Kdf, s: Service, v: nat)
    requires SafelyReachable(kdf, s) && v < |s.verifies| && s.verifies[v].Returned? && s.verifies[v].ok
    ensures var f := s.verifies[v];
            && Parse(f.c.key).Some?
            && kdf(Secret(f.c), f.phc)
            && (KeyId(f.c), f.phc) in s.issued
            && (KeyId(f.c), f.phc) !in f.c.since
  {
    SafelyReachableInv(kdf, s);
    assert SafeCall(kdf, s, s.verifies[v]);
  }

  // Ids that are never handed out twice.

  predicate NeverIssued(s: Service, id: int) {
    forall p :: p in s.issued ==> p.0 != id
  }

  /** An id that was never issued before is safe. */
  lemma NewIdIsSafe(kdf: Kdf, s: Service, id: int)
    requires Reachable(kdf, s) && NeverIssued(s, id)
    ensures SafeId(kdf, s, id)
  {
    ReachableInv(kdf, s);
    NewIdSafeIn(kdf, s, id);
  }

  lemma NewIdSafeIn(kdf: Kdf, s: Service, id: int)
    requires Inv(kdf, s) && NeverIssued(s, id)
    ensures SafeId(kdf, s, id)
  {
    forall v | 0 <= v < |s.verifies| ensures !InFlight(kdf, s.verifies[v], id) {
      assert CallInv(kdf, s, s.verifies[v]);
    }
  }

  /** Every creation of the run takes an id that was never issued before. */
  predicate OnlyNewIds(kdf: Kdf, s: Service, run: seq<Action>)
    decreases |run|
  {
    run != [] && Step(kdf, s, run[0]).Some? ==>
      && (run[0].Create? ==> NeverIssued(s, run[0].id))
      && OnlyNewIds(kdf, Step(kdf, s, run[0]).value, run[1..])
  }

  lemma {:induction false} NewIdsRunSafely(kdf: Kdf, s: Service, run: seq<Action>)
    requires Inv(kdf, s) && OnlyNewIds(kdf, s, run)
    ensures SafeExec(kdf, s, run) == Exec(kdf, s, run)
    decreases |run|
  {
    if run != [] && Step(kdf, s, run[0]).Some? {
      if run[0].Create? { NewIdSafeIn(kdf, s, run[0].id); }
      StepInv(kdf, s, run[0]);
      NewIdsRunSafely(kdf, Step(kdf, s, run[0]).value, run[1..]);
    }
  }

  /** If ids are never reused, no run at all breaks the promise. */
  lemma NewIdsNeverBreak(kdf: Kdf, verifies: nat, revokes: nat, run: seq<Action>)
    requires OnlyNewIds(kdf, Init(verifies, revokes), run) && Exec(kdf, Init(verifies, revokes), run).Some?
    ensures !Broken(Exec(kdf, Init(verifies, revokes), run).value)
  {
    var s := Init(verifies, revokes);
    InitInv(kdf, verifies, revokes);
    NewIdsRunSafely(kdf, s, run);
    SafeExecInv(kdf, s, run);
    NotBroken(kdf, SafeExec(kdf, s, run).value);
  }

  lemma NotBroken(kdf: Kdf, s: Service)
    requires SafeInv(kdf, s)
    ensures !Broken(s)
  {
    forall v | 0 <= v < |s.verifies| ensures !SaidYesToRevoked(s.verifies[v]) {
      assert SafeCall(kdf, s, s.verifies[v]);
    }
  }

  // What goes wrong when an id is handed out too early.

  /** Some safe run leads on from one state to the other. */
  ghost predicate Leads(kdf: Kdf, s: Service, t: Service) {
    exists run :: SafeExec(kdf, s, run) == Some(t)
  }

  lemma {:induction false} SafeAppend(kdf: Kdf, s: Service, a: seq<Action>, b: seq<Action>)
    requires SafeExec(kdf, s, a).Some?
    ensures SafeExec(kdf, s, a + b) == SafeExec(kdf, SafeExec(kdf, s, a).value, b)
    decreases |a|
  {
    if a == [] {
      assert a + b == b;
    } else {
      assert (a + b)[1..] == a[1..] + b;
      SafeAppend(kdf, Step(kdf, s, a[0]).value, a[1..], b);
    }
  }

  lemma LeadsNowhere(kdf: Kdf, s: Service)
    ensures Leads(kdf, s, s)
  {
    assert SafeExec(kdf, s, []) == Some(s);
  }

  /** One more step. */
  lemma LeadsOn(kdf: Kdf, s: Service, t: Service, a: Action)
    requires Leads(kdf, s, t) && Step(kdf, t, a).Some? && !a.Create?
    ensures Leads(kdf, s, Step(kdf, t, a).value)
  {
    var run :| SafeExec(kdf, s, run) == Some(t);
    SafeAppend(kdf, s, run, [a]);
    assert SafeExec(kdf, t, [a]) == Some(Step(kdf, t, a).value) by { assert [a][1..] == []; }
    assert SafeExec(kdf, s, run + [a]) == Some(Step(kdf, t, a).value);
  }

  /** What the steps below leave alone: rows stay, revocations accumulate, and call `v` does not move. */
  ghost predicate Beside(s: Service, t: Service, v: nat) {
    && t.table == s.table && t.issued == s.issued && s.revoked <= t.revoked
    && v < |s.verifies| == |t.verifies| && t.verifies[v] == s.verifies[v]
  }

  /** Whoever holds the lock can go on to release it. */
  lemma VerifyLeaves(kdf: Kdf, s: Service, v: nat) returns (t: Service)
    requires LockInv(s) && s.owner.TheVerify? && s.owner.v != v && v < |s.verifies|
    ensures Leads(kdf, s, t) && t.owner.NoOne? && Beside(s, t, v)
  {
    var w := s.owner.v;
    t := s;
    LeadsNowhere(kdf, s);
    if t.verifies[w].Locked? {
      LeadsOn(kdf, s, t, Recheck(w, false));
      t := Step(kdf, t, Recheck(w, false)).value;
    }
    if t.verifies[w].Checked? {
      LeadsOn(kdf, s, t, Insert(w));
      t := Step(kdf, t, Insert(w)).value;
    }
    LeadsOn(kdf, s, t, UnlockVerify(w));
    t := Step(kdf, t, UnlockVerify(w)).value;
  }

  lemma RevokeLeaves(kdf: Kdf, s: Service, v: nat) returns (t: Service)
    requires LockInv(s) && s.owner.TheRevoke? && v < |s.verifies|
    ensures Leads(kdf, s, t) && t.owner.NoOne? && Beside(s, t, v)
    ensures forall p :: Dooms(s.revokes[s.owner.r], p) ==> p in t.revoked
  {
    var r := s.owner.r;
    t := s;
    LeadsNowhere(kdf, s);
    if t.revokes[r].Holding? {
      LeadsOn(kdf, s, t, Purge(r));
      t := Step(kdf, t, Purge(r)).value;
    }
    LeadsOn(kdf, s, t, UnlockRevoke(r));
    t := Step(kdf, t, UnlockRevoke(r)).value;
  }

  lemma LockComesFree(kdf: Kdf, s: Service, v: nat) returns (t: Service)
    requires LockInv(s) && v < |s.verifies| && s.owner != TheVerify(v)
    ensures Leads(kdf, s, t) && t.owner.NoOne? && Beside(s, t, v)
  {
    if s.owner.TheVerify? {
      t := VerifyLeaves(kdf, s, v);
    } else if s.owner.TheRevoke? {
      t := RevokeLeaves(kdf, s, v);
    } else {
      t := s;
      LeadsNowhere(kdf, s);
    }
  }

  lemma LeadsFurther(kdf: Kdf, s: Service, t: Service, u: Service)
    requires Leads(kdf, s, t) && Leads(kdf, t, u)
    ensures Leads(kdf, s, u)
  {
    var a, b :| SafeExec(kdf, s, a) == Some(t) && SafeExec(kdf, t, b) == Some(u);
    SafeAppend(kdf, s, a, b);
    assert SafeExec(kdf, s, a + b) == Some(u);
  }

  lemma {:induction false} SafeIsExec(kdf: Kdf, s: Service, run: seq<Action>)
    requires SafeExec(kdf, s, run).Some?
    ensures Exec(kdf, s, run) == SafeExec(kdf, s, run)
    decreases |run|
  {
    if run != [] { SafeIsExec(kdf, Step(kdf, s, run[0]).value, run[1..]); }
  }

  lemma LeadsKeepsInv(kdf: Kdf, s: Service, t: Service)
    requires Inv(kdf, s) && Leads(kdf, s, t)
    ensures Inv(kdf, t)
  {
    var run :| SafeExec(kdf, s, run) == Some(t);
    SafeIsExec(kdf, s, run);
    ExecInv(kdf, s, run);
  }

  /** A row that is no longer stored can have its Revoke return, while a call beside it stands still. */
  lemma RevokeReturns(kdf: Kdf, s: Service, v: nat, p: Row) returns (t: Service)
    requires Inv(kdf, s) && v < |s.verifies| && s.owner != TheVerify(v) && p in s.issued && !Stored(s, p)
    ensures Leads(kdf, s, t) && t.owner.NoOne? && Beside(s, t, v) && p in t.revoked
  {
    var u := LockComesFree(kdf, s, v);
    LeadsKeepsInv(kdf, s, u);
    t := u;
    if p !in u.revoked {
      assert Doomed(u, p);
      var r :| 0 <= r < |u.revokes| && Dooms(u.revokes[r], p);
      assert u.revokes[r].Purging?;
      LeadsOn(kdf, s, u, LockRevoke(r));
      var w := Step(kdf, u, LockRevoke(r)).value;
      LeadsKeepsInv(kdf, s, w);
      t := RevokeLeaves(kdf, w, v);
      LeadsFurther(kdf, s, w, t);
    }
  }

  /** A call with the lock and its row's id in the table caches its key and answers yes. */
  lemma LockedCaches(kdf: Kdf, s: Service, v: nat) returns (t: Service)
    requires v < |s.verifies| && s.verifies[v].Locked? && KeyId(s.verifies[v].c) in s.table
    ensures var c, phc := s.verifies[v].c, s.verifies[v].phc;
            && Leads(kdf, s, t) && t.owner.NoOne? && t.revoked == s.revoked && t.table == s.table
            && t.verified == s.verified[c.key := KeyId(c)]
            && v < |t.verifies| && t.verifies[v] == Returned(c, true, false, phc)
            && c.key in t.verified && c.key in t.origin && t.origin[c.key] == phc
  {
    LeadsNowhere(kdf, s);
    LeadsOn(kdf, s, s, Recheck(v, false));
    t := Step(kdf, s, Recheck(v, false)).value;
    LeadsOn(kdf, s, t, Insert(v));
    t := Step(kdf, t, Insert(v)).value;
    LeadsOn(kdf, s, t, UnlockVerify(v));
    t := Step(kdf, t, UnlockVerify(v)).value;
  }

  /** A key that is cached although its row is revoked is accepted by the next call. */
  lemma CachedIsAccepted(kdf: Kdf, s: Service, v: nat)
    requires v < |s.verifies| && s.verifies[v].Returned? && s.owner.NoOne?
    requires var c := s.verifies[v].c; c.key in s.verified && c.key in s.origin && (KeyId(c), s.origin[c.key]) in s.revoked
    ensures exists t :: Leads(kdf, s, t) && Broken(t)
  {
    var key := s.verifies[v].c.key;
    LeadsNowhere(kdf, s);
    LeadsOn(kdf, s, s, Begin(v, key));
    var t := Step(kdf, s, Begin(v, key)).value;
    LeadsOn(kdf, s, t, LookUp(v));
    t := Step(kdf, t, LookUp(v)).value;
    assert SaidYesToRevoked(t.verifies[v]);
  }

  lemma LockedBreaks(kdf: Kdf, s: Service, v: nat)
    requires v < |s.verifies| && s.verifies[v].Locked? && KeyId(s.verifies[v].c) in s.table
    requires (KeyId(s.verifies[v].c), s.verifies[v].phc) in s.revoked
    ensures exists t :: Leads(kdf, s, t) && Broken(t)
  {
    var t := LockedCaches(kdf, s, v);
    CachedIsAccepted(kdf, t, v);
    var u :| Leads(kdf, t, u) && Broken(u);
    LeadsFurther(kdf, s, t, u);
  }

  /** A call that does not hold the lock yet can always be overtaken by the Revoke of its row. */
  lemma OvertakenBreaks(kdf: Kdf, s: Service, v: nat)
    requires Inv(kdf, s) && v < |s.verifies| && !s.verifies[v].Idle? && KeyId(s.verifies[v].c) in s.table
    requires InFlight(kdf, s.verifies[v], KeyId(s.verifies[v].c)) && !s.verifies[v].Locked?
    requires !Stored(s, (KeyId(s.verifies[v].c), s.verifies[v].phc))
    ensures exists t :: Leads(kdf, s, t) && Broken(t)
  {
    assert CallInv(kdf, s, s.verifies[v]);
    assert s.owner != TheVerify(v);
    var t := RevokeReturns(kdf, s, v, (KeyId(s.verifies[v].c), s.verifies[v].phc));
    if t.verifies[v].Hashing? {
      LeadsOn(kdf, s, t, Hash(v));
      t := Step(kdf, t, Hash(v)).value;
    }
    LeadsOn(kdf, s, t, LockVerify(v));
    t := Step(kdf, t, LockVerify(v)).value;
    LockedBreaks(kdf, t, v);
    var u :| Leads(kdf, t, u) && Broken(u);
    LeadsFurther(kdf, s, t, u);
  }

  /**
    Handing out an id breaks the promise exactly when it is unsafe: from there the calls
    already running, with no further unsafe creation, can have a revoked row accepted
    if and only if some Verify of a former row of the id is in flight and does not yet
    hold the lock, or holds it although its row is already revoked.
   */
  lemma CreateBreaksIff(kdf: Kdf, s: Service, id: int, phc: string)
    requires SafelyReachable(kdf, s) && CreateStep(s, id, phc).Some?
    ensures (exists t :: Leads(kdf, CreateStep(s, id, phc).value, t) && Broken(t)) <==> !SafeId(kdf, s, id)
  {
    var q := CreateStep(s, id, phc).value;
    SafelyReachableInv(kdf, s);
    if SafeId(kdf, s, id) {
      CreateSafe(kdf, s, id, phc);
      forall t | Leads(kdf, q, t) ensures !Broken(t) {
        var run :| SafeExec(kdf, q, run) == Some(t);
        SafeExecInv(kdf, q, run);
        NotBroken(kdf, t);
      }
    } else {
      var v :| 0 <= v < |s.verifies| && InFlight(kdf, s.verifies[v], id) && !Harmless(s, s.verifies[v]);
      CreateInv(kdf, s, id, phc);
      assert CallInv(kdf, s, s.verifies[v]);
      if s.verifies[v].Locked? { LockedBreaks(kdf, q, v); } else { OvertakenBreaks(kdf, q, v); }
    }
  }

  // A call that nothing disturbs.

  /** The key is cached, or it names a stored row whose hash its secret matches. */
  predicate Valid(kdf: Kdf, s: Service, key: string) {
    key in s.verified ||
    (Parse(key).Some? && Parse(key).value.0 in s.table && kdf(Parse(key).value.1, s.table[Parse(key).value.0]))
  }

  /** A Verify that nothing disturbs says yes exactly to the valid keys, remembers them, and lets go of the lock. */
  lemma VerifyAnswers(kdf: Kdf, s: Service, v: nat, key: string) returns (t: Service)
    requires v < |s.verifies| && s.verifies[v].Idle? && s.owner.NoOne?
    ensures Leads(kdf, s, t) && t.owner.NoOne? && t.table == s.table
    ensures v < |t.verifies| && t.verifies[v].Returned? && t.verifies[v].c.key == key
    ensures (t.verifies[v].ok <==> Valid(kdf, s, key)) && !t.verifies[v].failed
    ensures t.verified.Keys == if Valid(kdf, s, key) then s.verified.Keys + {key} else s.verified.Keys
  {
    LeadsNowhere(kdf, s);
    LeadsOn(kdf, s, s, Begin(v, key));
    var s1 := Step(kdf, s, Begin(v, key)).value;
    LeadsOn(kdf, s, s1, LookUp(v));
    t := Step(kdf, s1, LookUp(v)).value;
    if t.verifies[v].Selecting? {
      var u := SelectAnswers(kdf, t, v);
      LeadsFurther(kdf, s, t, u);
      t := u;
    }
  }

  lemma SelectAnswers(kdf: Kdf, s: Service, v: nat) returns (t: Service)
    requires v < |s.verifies| && s.verifies[v].Selecting? && s.owner.NoOne?
    ensures var c := s.verifies[v].c;
            var good := KeyId(c) in s.table && kdf(Secret(c), s.table[KeyId(c)]);
            && Leads(kdf, s, t) && t.owner.NoOne? && t.table == s.table
            && v < |t.verifies| && t.verifies[v].Returned? && t.verifies[v].c == c
            && t.verifies[v].ok == good && !t.verifies[v].failed
            && t.verified == if good then s.verified[c.key := KeyId(c)] else s.verified
  {
    LeadsNowhere(kdf, s);
    LeadsOn(kdf, s, s, SelectRow(v, false));
    t := Step(kdf, s, SelectRow(v, false)).value;
    if t.verifies[v].Hashing? {
      LeadsOn(kdf, s, t, Hash(v));
      t := Step(kdf, t, Hash(v)).value;
      if t.verifies[v].Waiting? {
        LeadsOn(kdf, s, t, LockVerify(v));
        t := Step(kdf, t, LockVerify(v)).value;
        var u := LockedCaches(kdf, t, v);
        LeadsFurther(kdf, s, t, u);
        t := u;
      }
    }
  }

  /** A Revoke that nothing disturbs deletes the row and every cached key of the id, and nothing else. */
  lemma RevokeAnswers(kdf: Kdf, s: Service, r: nat, id: int) returns (t: Service)
    requires r < |s.revokes| && s.revokes[r].NoRevoke? && s.owner.NoOne?
    ensures Leads(kdf, s, t) && t.owner.NoOne? && r < |t.revokes| && t.revokes[r] == Revoked(id, true)
    ensures t.table == s.table - {id} && t.verifies == s.verifies
    ensures forall k :: k in t.verified <==> k in s.verified && s.verified[k] != id
    ensures forall p :: p in s.issued && p.0 == id ==> p in t.revoked
  {
    LeadsNowhere(kdf, s);
    LeadsOn(kdf, s, s, BeginRevoke(r, id));
    var s1 := Step(kdf, s, BeginRevoke(r, id)).value;
    LeadsOn(kdf, s, s1, DeleteRow(r, false));
    var s2 := Step(kdf, s1, DeleteRow(r, false)).value;
    LeadsOn(kdf, s, s2, LockRevoke(r));
    var s3 := Step(kdf, s2, LockRevoke(r)).value;
    LeadsOn(kdf, s, s3, Purge(r));
    var s4 := Step(kdf, s3, Purge(r)).value;
    LeadsOn(kdf, s, s4, UnlockRevoke(r));
    t := Step(kdf, s4, UnlockRevoke(r)).value;
  }

  // The failing run, from an empty table.

  lemma {:induction false} ExecAppend(kdf: Kdf, s: Service, a: seq<Action>, b: seq<Action>)
    requires Exec(kdf, s, a).Some?
    ensures Exec(kdf, s, a + b) == Exec(kdf, Exec(kdf, s, a).value, b)
    decreases |a|
  {
    if a == [] {
      assert a + b == b;
    } else {
      assert (a + b)[1..] == a[1..] + b;
      ExecAppend(kdf, Step(kdf, s, a[0]).value, a[1..], b);
    }
  }

  lemma Then(kdf: Kdf, s: Service, a: seq<Action>, t: Service, b: seq<Action>, u: Service)
    requires Exec(kdf, s, a) == Some(t) && Exec(kdf, t, b) == Some(u)
    ensures Exec(kdf, s, a + b) == Some(u)
  {
    ExecAppend(kdf, s, a, b);
  }

  /** The next action of a run. */
  lemma Next(kdf: Kdf, s: Service, run: seq<Action>, i: nat, t: Service)
    requires i < |run| && Exec(kdf, s, run[..i]) == Some(t)
    ensures Exec(kdf, s, run[..i + 1]) == Step(kdf, t, run[i])
  {
    ExecAppend(kdf, s, run[..i], [run[i]]);
    assert run[..i + 1] == run[..i] + [run[i]];
    assert [run[i]][1..] == [];
  }

  /** A key is created and its Verify gets as far as waiting for the lock. */
  function Opening(key: string, id: int, phc: string): seq<Action> {
    [Create(id, phc), Begin(0, key), LookUp(0), SelectRow(0, false), Hash(0)]
  }

  /** The key is revoked. */
  function Revoking(id: int): seq<Action> {
    [BeginRevoke(0, id), DeleteRow(0, false)] + [LockRevoke(0), Purge(0), UnlockRevoke(0)]
  }

  /** The id is handed out again, the Verify caches its key, and the key is presented once more. */
  function Closing(key: string, id: int, phc: string): seq<Action> {
    [Create(id, phc), LockVerify(0)] + [Recheck(0, false), Insert(0), UnlockVerify(0)] + [Begin(0, key), LookUp(0)]
  }

  ghost predicate Alone(s: Service) { |s.verifies| == 1 && |s.revokes| == 1 && s.owner.NoOne? }

  lemma OpeningRuns(kdf: Kdf, key: string, phc: string) returns (t: Service)
    requires Parse(key).Some? && kdf(Parse(key).value.1, phc)
    ensures Exec(kdf, Init(1, 1), Opening(key, Parse(key).value.0, phc)) == Some(t)
    ensures Alone(t) && t.verifies[0].Waiting? && t.verifies[0].c.key == key && t.verifies[0].phc == phc
    ensures t.revokes[0].NoRevoke? && t.issued == {(Parse(key).value.0, phc)}
  {
    var id, s, all := Parse(key).value.0, Init(1, 1), Opening(key, Parse(key).value.0, phc);
    assert all[..0] == [] && all[..5] == all;
    Next(kdf, s, all, 0, s);
    t := Step(kdf, s, Create(id, phc)).value;
    Next(kdf, s, all, 1, t);
    t := Step(kdf, t, Begin(0, key)).value;
    Next(kdf, s, all, 2, t);
    t := Step(kdf, t, LookUp(0)).value;
    Next(kdf, s, all, 3, t);
    t := Step(kdf, t, SelectRow(0, false)).value;
    Next(kdf, s, all, 4, t);
    t := Step(kdf, t, Hash(0)).value;
  }

  lemma RevokingRuns(kdf: Kdf, s: Service, id: int, phc: string) returns (u: Service)
    requires Alone(s) && s.revokes[0].NoRevoke? && s.issued == {(id, phc)}
    ensures Exec(kdf, s, Revoking(id)) == Some(u)
    ensures Alone(u) && u.verifies == s.verifies && u.issued == s.issued && id !in u.table && (id, phc) in u.revoked
  {
    var first, second := [BeginRevoke(0, id), DeleteRow(0, false)], [LockRevoke(0), Purge(0), UnlockRevoke(0)];
    assert first[..0] == [] && first[..2] == first;
    Next(kdf, s, first, 0, s);
    var t := Step(kdf, s, BeginRevoke(0, id)).value;
    Next(kdf, s, first, 1, t);
    t := Step(kdf, t, DeleteRow(0, false)).value;
    u := ClearingRuns(kdf, t);
    Then(kdf, s, first, t, second, u);
  }

  lemma ClearingRuns(kdf: Kdf, s: Service) returns (t: Service)
    requires Alone(s) && s.revokes[0].Purging?
    ensures Exec(kdf, s, [LockRevoke(0), Purge(0), UnlockRevoke(0)]) == Some(t)
    ensures Alone(t) && t.verifies == s.verifies && t.issued == s.issued && t.table == s.table
    ensures s.revokes[0].doomed <= t.revoked
  {
    var all := [LockRevoke(0), Purge(0), UnlockRevoke(0)];
    assert all[..0] == [] && all[..3] == all;
    Next(kdf, s, all, 0, s);
    t := Step(kdf, s, LockRevoke(0)).value;
    Next(kdf, s, all, 1, t);
    t := Step(kdf, t, Purge(0)).value;
    Next(kdf, s, all, 2, t);
    t := Step(kdf, t, UnlockRevoke(0)).value;
  }

  lemma ReusingRuns(kdf: Kdf, s: Service, id: int, phc: string) returns (t: Service)
    requires Alone(s) && s.verifies[0].Waiting? && id !in s.table && (id, phc) !in s.issued
    ensures Exec(kdf, s, [Create(id, phc), LockVerify(0)]) == Some(t)
    ensures |t.verifies| == |t.revokes| == 1 && t.verifies[0] == Locked(s.verifies[0].c, s.verifies[0].phc)
    ensures id in t.table && t.revoked == s.revoked
  {
    var all := [Create(id, phc), LockVerify(0)];
    assert all[..0] == [] && all[..2] == all;
    Next(kdf, s, all, 0, s);
    t := Step(kdf, s, Create(id, phc)).value;
    Next(kdf, s, all, 1, t);
    t := Step(kdf, t, LockVerify(0)).value;
  }

  lemma CachingRuns(kdf: Kdf, s: Service) returns (t: Service)
    requires |s.verifies| == |s.revokes| == 1 && s.verifies[0].Locked? && KeyId(s.verifies[0].c) in s.table
    ensures Exec(kdf, s, [Recheck(0, false), Insert(0), UnlockVerify(0)]) == Some(t)
    ensures Alone(t) && t.verifies[0].Returned? && t.revoked == s.revoked
    ensures var c := s.verifies[0].c; c.key in t.verified && c.key in t.origin && t.origin[c.key] == s.verifies[0].phc
  {
    var all := [Recheck(0, false), Insert(0), UnlockVerify(0)];
    assert all[..0] == [] && all[..3] == all;
    Next(kdf, s, all, 0, s);
    t := Step(kdf, s, Recheck(0, false)).value;
    Next(kdf, s, all, 1, t);
    t := Step(kdf, t, Insert(0)).value;
    Next(kdf, s, all, 2, t);
    t := Step(kdf, t, UnlockVerify(0)).value;
  }

  lemma AskingRuns(kdf: Kdf, s: Service, key: string) returns (t: Service)
    requires Alone(s) && s.verifies[0].Returned? && key in s.verified && key in s.origin
    requires (KeyId(Call(key, {}, map[])), s.origin[key]) in s.revoked
    ensures Exec(kdf, s, [Begin(0, key), LookUp(0)]) == Some(t) && Broken(t)
  {
    var all := [Begin(0, key), LookUp(0)];
    assert all[..0] == [] && all[..2] == all;
    Next(kdf, s, all, 0, s);
    t := Step(kdf, s, Begin(0, key)).value;
    Next(kdf, s, all, 1, t);
    t := Step(kdf, t, LookUp(0)).value;
    assert SaidYesToRevoked(t.verifies[0]);
  }

  lemma ClosingRuns(kdf: Kdf, s: Service, key: string, id: int, phc: string) returns (t: Service)
    requires Alone(s) && s.verifies[0].Waiting? && s.verifies[0].c.key == key && KeyId(s.verifies[0].c) == id
    requires id !in s.table && (id, phc) !in s.issued && (id, s.verifies[0].phc) in s.revoked
    ensures Exec(kdf, s, Closing(key, id, phc)) == Some(t) && Broken(t)
  {
    var first, second := [Create(id, phc), LockVerify(0)], [Recheck(0, false), Insert(0), UnlockVerify(0)];
    var s1 := ReusingRuns(kdf, s, id, phc);
    var s2 := CachingRuns(kdf, s1);
    t := AskingRuns(kdf, s2, key);
    Then(kdf, s, first, s1, second, s2);
    Then(kdf, s, first + second, s2, [Begin(0, key), LookUp(0)], t);
  }

  /**
    From an empty table: a key is created, a Verify of it waits for the lock while the
    key is revoked, and its id goes to a new key. The Verify then caches the revoked
    key, and the next Verify accepts it.
   */
  lemma ReusedIdBreaks(kdf: Kdf, id: int, secret: string, phc: string, phc': string)
    requires IsInt64(id) && secret != "" && kdf(secret, phc) && phc' != phc
    ensures var key := KeyText(id, secret);
            var t := Exec(kdf, Init(1, 1), Opening(key, id, phc) + Revoking(id) + Closing(key, id, phc'));
            t.Some? && Broken(t.value)
  {
    var key := KeyText(id, secret);
    KeyRoundTrip(id, secret);
    var s := OpeningRuns(kdf, key, phc);
    var t := RevokingRuns(kdf, s, id, phc);
    var u := ClosingRuns(kdf, t, key, id, phc');
    Then(kdf, Init(1, 1), Opening(key, id, phc), s, Revoking(id), t);
    Then(kdf, Init(1, 1), Opening(key, id, phc) + Revoking(id), t, Closing(key, id, phc'), u);
  }
}
