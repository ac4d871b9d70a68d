/**
  API keys: any number of Verify and Revoke calls interleave over the api_keys
  table and the in-memory cache of verified keys. Every query, every lock
  operation and every access to the cache is a step of its own.
 */
module ApiKeys {
  import opened Common
  import opened Text

  const PREFIX := "pooml"

  /** pooml_{id}_{secret}; the secret may itself contain underscores. */
  function Parse(key: string): Option<(int, string)> {
    var a := Cut(key, '_');
    if a.None? then None
    else
      var b := Cut(a.value.1, '_');
      if b.None? || a.value.0 != PREFIX || b.value.1 == "" then None
      else
        var id := Atoi(b.value.0);
        if id.None? then None else Some((id.value, b.value.1))
  }

  /** What Create hands to the user. */
  function KeyText(id: int, secret: string): string {
    "pooml_" + Itoa(id) + "_" + secret
  }

  /** A key parses back to its id and its secret, underscores in the secret included. */
  lemma KeyRoundTrip(id: int, secret: string)
    requires IsInt64(id) && secret != ""
    ensures Parse(KeyText(id, secret)) == Some((id, secret))
  {
    KeyCuts(id, secret);
    AtoiItoa(id);
  }

  lemma KeyCuts(id: int, secret: string)
    ensures Cut(KeyText(id, secret), '_') == Some(("pooml", Itoa(id) + "_" + secret))
    ensures Cut(Itoa(id) + "_" + secret, '_') == Some((Itoa(id), secret))
  {
    var rest := Itoa(id) + "_" + secret;
    NatTextValue(if id < 0 then -id else id);
    CutAt("pooml", '_', rest);
    assert KeyText(id, secret) == "pooml" + ['_'] + rest;
    CutAt(Itoa(id), '_', secret);
  }

  /** A stored row: its id and its PHC string. Every PHC string carries its own random salt. */
  type Row = (int, string)

  /** The argon2id check of a secret against a PHC string. */
  type Kdf = (string, string) -> bool

  /** One Verify call: the presented key, what was revoked and what was stored when it started. */
  datatype Call = Call(key: string, since: set<Row>, before: map<int, string>)

  datatype Verify =
    | Idle
    | Begun(c: Call)
    | Selecting(c: Call)                                   // cache miss, well-formed key
    | Hashing(c: Call, phc: string)                        // row read, KDF running
    | Waiting(c: Call, phc: string)                        // KDF passed, wants the lock
    | Locked(c: Call, phc: string)                         // holds the lock, row not re-checked
    | Checked(c: Call, phc: string)                        // holds the lock, row seen again
    | Leaving(c: Call, ok: bool, failed: bool, phc: string)  // result decided, lock still held
    | Returned(c: Call, ok: bool, failed: bool, phc: string) // failed: a query returned an error

  /** `doomed` is every row ever issued under the id when the DELETE ran. */
  datatype Revoke =
    | NoRevoke
    | Deleting(id: int)
    | Purging(id: int, doomed: set<Row>)  // row deleted, wants the lock
    | Holding(id: int, doomed: set<Row>)  // holds the lock, cache not purged
    | Purged(id: int, doomed: set<Row>)   // holds the lock, cache purged
    | Revoked(id: int, ok: bool)

  datatype Owner = NoOne | TheVerify(v: nat) | TheRevoke(r: nat)

  datatype Service = Service(
    table: map<int, string>,       // api_keys: id -> key_hash
    verified: map<string, int>,    // the cache: presented key (through an injective digest) -> id
    origin: map<string, string>,   // history: the PHC string each cached key was checked against
    owner: Owner,                  // who holds mu for writing
    verifies: seq<Verify>,
    revokes: seq<Revoke>,
    issued: set<Row>,              // history: every row ever created
    revoked: set<Row>)             // history: rows whose Revoke has returned nil

  datatype Action =
    | Create(id: int, phc: string)
    | Begin(v: nat, key: string)
    | LookUp(v: nat)
    | SelectRow(v: nat, dbErr: bool)
    | Hash(v: nat)
    | LockVerify(v: nat)
    | Recheck(v: nat, dbErr: bool)
    | Insert(v: nat)
    | UnlockVerify(v: nat)
    | BeginRevoke(r: nat, id: int)
    | DeleteRow(r: nat, dbErr: bool)
    | LockRevoke(r: nat)
    | Purge(r: nat)
    | UnlockRevoke(r: nat)

  function Init(verifies: nat, revokes: nat): Service {
    Service(map[], map[], map[], NoOne, seq(verifies, _ => Idle), seq(revokes, _ => NoRevoke), {}, {})
  }

  function VerifyAt(s: Service, v: nat): Verify {
    if v < |s.verifies| then s.verifies[v] else Idle
  }

  function RevokeAt(s: Service, r: nat): Revoke {
    if r < |s.revokes| then s.revokes[r] else NoRevoke
  }

  function MoveV(s: Service, v: nat, to: Verify): Service
    requires v < |s.verifies|
  {
    s.(verifies := s.verifies[v := to])
  }

  function MoveR(s: Service, r: nat, to: Revoke): Service
    requires r < |s.revokes|
  {
    s.(revokes := s.revokes[r := to])
  }

  function KeyId(c: Call): int {
    if Parse(c.key).Some? then Parse(c.key).value.0 else 0
  }

  function Secret(c: Call): string {
    if Parse(c.key).Some? then Parse(c.key).value.1 else ""
  }

  /** The cache without the entries of one id. */
  function PurgedCache(verified: map<string, int>, id: int): map<string, int> {
    map k | k in verified && verified[k] != id :: verified[k]
  }

  function VerifyStep(kdf: Kdf, s: Service, a: Action): Option<Service> {
    match a
    case Begin(v, key) =>
      if v < |s.verifies| && (s.verifies[v].Idle? || s.verifies[v].Returned?)
      then Some(MoveV(s, v, Begun(Call(key, s.revoked, s.table)))) else None
    case LookUp(v) =>
      if VerifyAt(s, v).Begun? && s.owner.NoOne? then
        var c := VerifyAt(s, v).c;
        if c.key in s.verified then
          Some(MoveV(s, v, Returned(c, true, false, if c.key in s.origin then s.origin[c.key] else "")))
        else if Parse(c.key).None? then Some(MoveV(s, v, Returned(c, false, false, "")))
        else Some(MoveV(s, v, Selecting(c)))
      else None
    case SelectRow(v, dbErr) =>
      if VerifyAt(s, v).Selecting? then
        var c := VerifyAt(s, v).c;
        if dbErr || KeyId(c) !in s.table then Some(MoveV(s, v, Returned(c, false, dbErr, "")))
        else Some(MoveV(s, v, Hashing(c, s.table[KeyId(c)])))
      else None
    case Hash(v) =>
      if VerifyAt(s, v).Hashing? then
        var c, phc := VerifyAt(s, v).c, VerifyAt(s, v).phc;
        Some(MoveV(s, v, if kdf(Secret(c), phc) then Waiting(c, phc) else Returned(c, false, false, phc)))
      else None
    case LockVerify(v) =>
      if VerifyAt(s, v).Waiting? && s.owner.NoOne?
      then Some(MoveV(s, v, Locked(VerifyAt(s, v).c, VerifyAt(s, v).phc)).(owner := TheVerify(v))) else None
    case Recheck(v, dbErr) =>
      if VerifyAt(s, v).Locked? then
        var c, phc := VerifyAt(s, v).c, VerifyAt(s, v).phc;
        Some(MoveV(s, v, if dbErr || KeyId(c) !in s.table then Leaving(c, false, dbErr, phc) else Checked(c, phc)))
      else None
    case Insert(v) =>
      if VerifyAt(s, v).Checked? then
        var c, phc := VerifyAt(s, v).c, VerifyAt(s, v).phc;
        Some(MoveV(s, v, Leaving(c, true, false, phc)).(
          verified := s.verified[c.key := KeyId(c)], origin := s.origin[c.key := phc]))
      else None
    case UnlockVerify(v) =>
      if VerifyAt(s, v).Leaving? then
        var l := VerifyAt(s, v);
        Some(MoveV(s, v, Returned(l.c, l.ok, l.failed, l.phc)).(owner := NoOne))
      else None
    case _ => None
  }

  function RevokeStep(s: Service, a: Action): Option<Service> {
    match a
    case BeginRevoke(r, id) =>
      if r < |s.revokes| && (s.revokes[r].NoRevoke? || s.revokes[r].Revoked?)
      then Some(MoveR(s, r, Deleting(id))) else None
    case DeleteRow(r, dbErr) =>
      if RevokeAt(s, r).Deleting? then
        var id := RevokeAt(s, r).id;
        if dbErr then Some(MoveR(s, r, Revoked(id, false)))
        else Some(MoveR(s, r, Purging(id, set p | p in s.issued && p.0 == id)).(table := s.table - {id}))
      else None
    case LockRevoke(r) =>
      if RevokeAt(s, r).Purging? && s.owner.NoOne?
      then Some(MoveR(s, r, Holding(RevokeAt(s, r).id, RevokeAt(s, r).doomed)).(owner := TheRevoke(r))) else None
    case Purge(r) =>
      if RevokeAt(s, r).Holding? then
        var h := RevokeAt(s, r);
        Some(MoveR(s, r, Purged(h.id, h.doomed)).(verified := PurgedCache(s.verified, h.id)))
      else None
    case UnlockRevoke(r) =>
      if RevokeAt(s, r).Purged? then
        var h := RevokeAt(s, r);
        Some(MoveR(s, r, Revoked(h.id, true)).(owner := NoOne, revoked := s.revoked + h.doomed))
      else None
    case _ => None
  }

  /** SQLite picks an id that is not in the table; nothing more is asked of it here. */
  function CreateStep(s: Service, id: int, phc: string): Option<Service> {
    if id !in s.table && (id, phc) !in s.issued
    then Some(s.(table := s.table[id := phc], issued := s.issued + {(id, phc)})) else None
  }

  function Step(kdf: Kdf, s: Service, a: Action): Option<Service> {
    match a
    case Create(id, phc) => CreateStep(s, id, phc)
    case BeginRevoke(_, _) | DeleteRow(_, _) | LockRevoke(_) | Purge(_) | UnlockRevoke(_) => RevokeStep(s, a)
    case _ => VerifyStep(kdf, s, a)
  }

  /** A run of enabled actions. */
  function Exec(kdf: Kdf, s: Service, run: seq<Action>): Option<Service>
    decreases |run|
  {
    if run == [] then Some(s)
    else
      var q := Step(kdf, s, run[0]);
      if q.None? then None else Exec(kdf, q.value, run[1..])
  }

  /** `s` is reached by some run with any number of concurrent calls; ids may be handed out again. */
  ghost predicate Reachable(kdf: Kdf, s: Service) {
    exists verifies: nat, revokes: nat, run: seq<Action> :: Exec(kdf, Init(verifies, revokes), run) == Some(s)
  }

  predicate HoldsV(f: Verify) { f.Locked? || f.Checked? || f.Leaving? }

  predicate HoldsR(f: Revoke) { f.Holding? || f.Purged? }

  /** The write lock has one owner, and it is the one inside its critical section. */
  ghost predicate LockInv(s: Service) {
    && (s.owner.TheVerify? ==> s.owner.v < |s.verifies|)
    && (s.owner.TheRevoke? ==> s.owner.r < |s.revokes|)
    && (forall v :: 0 <= v < |s.verifies| ==> (HoldsV(s.verifies[v]) <==> s.owner == TheVerify(v)))
    && (forall r :: 0 <= r < |s.revokes| ==> (HoldsR(s.revokes[r]) <==> s.owner == TheRevoke(r)))
  }

  predicate Stored(s: Service, p: Row) { p.0 in s.table && s.table[p.0] == p.1 }

  /** The row is gone, and its Revoke has yet to return. */
  predicate Dooms(f: Revoke, p: Row) {
    (f.Purging? || f.Holding? || f.Purged?) && p in f.doomed
  }

  predicate Doomed(s: Service, p: Row) {
    exists r :: 0 <= r < |s.revokes| && Dooms(s.revokes[r], p)
  }

  ghost predicate DoomedInv(s: Service, f: Revoke) {
    forall p :: Dooms(f, p) ==> p in s.issued && p.0 == f.id && !Stored(s, p)
  }

  /** Stored rows were issued and are not revoked; what a Revoke deleted never comes back. */
  ghost predicate RowsInv(s: Service) {
    && (forall id :: id in s.table ==> (id, s.table[id]) in s.issued && (id, s.table[id]) !in s.revoked)
    && s.revoked <= s.issued
    && (forall r :: 0 <= r < |s.revokes| ==> DoomedInv(s, s.revokes[r]))
  }

  /** Every row ever issued is stored, being revoked, or revoked. */
  ghost predicate Accounted(s: Service) {
    forall p :: p in s.issued ==> Stored(s, p) || p in s.revoked || Doomed(s, p)
  }

  /** A Revoke of this id has deleted the row and has yet to purge the cache. */
  predicate Pending(s: Service, id: int) {
    exists r :: 0 <= r < |s.revokes| && (s.revokes[r].Purging? || s.revokes[r].Holding?) && s.revokes[r].id == id
  }

  predicate Live(s: Service, id: int) { id in s.table || Pending(s, id) }

  /** Cached ids, and ids about to be cached, are live; a purged id has no entry left. */
  ghost predicate IdsInv(s: Service) {
    && (forall k :: k in s.verified ==> Live(s, s.verified[k]))
    && (forall v :: 0 <= v < |s.verifies| && s.verifies[v].Checked? ==> Live(s, KeyId(s.verifies[v].c)))
    && (forall r, k :: 0 <= r < |s.revokes| && s.revokes[r].Purged? && k in s.verified ==> s.verified[k] != s.revokes[r].id)
  }

  /** The row the call found stored when it started, if it has been there ever since. */
  predicate Steady(s: Service, c: Call) {
    KeyId(c) in c.before && Stored(s, (KeyId(c), c.before[KeyId(c)]))
  }

  /** What a call knows, whatever ids are handed out meanwhile. */
  ghost predicate CallInv(kdf: Kdf, s: Service, f: Verify) {
    f.Idle? ||
    (&& f.c.since <= s.revoked
     && (forall id :: id in f.c.before ==> (id, f.c.before[id]) in s.issued)
     && (!f.Begun? && !f.Returned? ==> Parse(f.c.key).Some?)
     && (f.Hashing? || f.Waiting? || f.Locked? || f.Checked? ==>
           && (KeyId(f.c), f.phc) in s.issued
           && (Steady(s, f.c) ==> f.phc == s.table[KeyId(f.c)]))
     && (f.Waiting? || f.Locked? || f.Checked? ==> kdf(Secret(f.c), f.phc))
     && ((f.Leaving? || f.Returned?) && !f.ok && !f.failed && Parse(f.c.key).Some? && Steady(s, f.c) ==>
           !kdf(Secret(f.c), s.table[KeyId(f.c)])))
  }

  ghost predicate CallsInv(kdf: Kdf, s: Service) {
    forall v :: 0 <= v < |s.verifies| ==> CallInv(kdf, s, s.verifies[v])
  }

  ghost predicate Inv(kdf: Kdf, s: Service) {
    LockInv(s) && RowsInv(s) && Accounted(s) && IdsInv(s) && CallsInv(kdf, s)
  }

  // Create.

  lemma CreateRows(s: Service, id: int, phc: string)
    requires RowsInv(s) && Accounted(s) && CreateStep(s, id, phc).Some?
    ensures RowsInv(CreateStep(s, id, phc).value) && Accounted(CreateStep(s, id, phc).value)
  {
    var q := CreateStep(s, id, phc).value;
    assert forall p :: Stored(s, p) ==> Stored(q, p);
    forall p | p in q.issued ensures Stored(q, p) || p in q.revoked || Doomed(q, p) {
      assert p in s.issued || p == (id, phc);
    }
    forall r | 0 <= r < |q.revokes| ensures DoomedInv(q, q.revokes[r]) { assert DoomedInv(s, s.revokes[r]); }
  }

  lemma CreateLive(s: Service, id: int, phc: string, i: int)
    requires CreateStep(s, id, phc).Some? && Live(s, i)
    ensures Live(CreateStep(s, id, phc).value, i)
  {
    var q := CreateStep(s, id, phc).value;
    assert Pending(s, i) ==> Pending(q, i);
  }

  lemma CreateInv(kdf: Kdf, s: Service, id: int, phc: string)
    requires Inv(kdf, s) && CreateStep(s, id, phc).Some?
    ensures Inv(kdf, CreateStep(s, id, phc).value)
  {
    var q := CreateStep(s, id, phc).value;
    CreateRows(s, id, phc);
    forall i | Live(s, i) ensures Live(q, i) { CreateLive(s, id, phc, i); }
    forall v | 0 <= v < |q.verifies| ensures CallInv(kdf, q, q.verifies[v]) {
      assert CallInv(kdf, s, s.verifies[v]);
    }
  }

  // Verify.

  /** The part of the state that only Create and Revoke change. */
  ghost predicate SameRows(s: Service, q: Service) {
    q.table == s.table && q.issued == s.issued && q.revoked == s.revoked && q.revokes == s.revokes
  }

  /** Only call `v` has moved. */
  ghost predicate OnlyMoved(s: Service, q: Service, v: nat) {
    && SameRows(s, q) && v < |s.verifies| == |q.verifies|
    && forall i :: 0 <= i < |s.verifies| && i != v ==> q.verifies[i] == s.verifies[i]
  }

  lemma VerifyMoves(kdf: Kdf, s: Service, a: Action)
    requires VerifyStep(kdf, s, a).Some?
    ensures OnlyMoved(s, VerifyStep(kdf, s, a).value, a.v)
  {
  }

  /** The lock passes only between no one and the call that moves. */
  lemma VerifyOwner(kdf: Kdf, s: Service, a: Action)
    requires LockInv(s) && VerifyStep(kdf, s, a).Some?
    ensures var q := VerifyStep(kdf, s, a).value;
            && (q.owner == s.owner || {s.owner, q.owner} == {NoOne, TheVerify(a.v)})
            && (HoldsV(VerifyAt(q, a.v)) <==> q.owner == TheVerify(a.v))
  {
    assert HoldsV(VerifyAt(s, a.v)) <==> s.owner == TheVerify(a.v);
  }

  lemma VerifyLock(kdf: Kdf, s: Service, a: Action)
    requires LockInv(s) && VerifyStep(kdf, s, a).Some?
    ensures LockInv(VerifyStep(kdf, s, a).value)
  {
    VerifyMoves(kdf, s, a);
    VerifyOwner(kdf, s, a);
  }

  lemma SameRowsInv(s: Service, q: Service)
    requires RowsInv(s) && Accounted(s) && SameRows(s, q)
    ensures RowsInv(q) && Accounted(q)
    ensures forall i :: Pending(q, i) <==> Pending(s, i)
  {
    forall r | 0 <= r < |q.revokes| ensures DoomedInv(q, q.revokes[r]) { assert DoomedInv(s, s.revokes[r]); }
    assert forall p :: Doomed(s, p) ==> Doomed(q, p);
  }

  lemma VerifyIds(kdf: Kdf, s: Service, a: Action)
    requires LockInv(s) && RowsInv(s) && Accounted(s) && IdsInv(s) && VerifyStep(kdf, s, a).Some?
    ensures IdsInv(VerifyStep(kdf, s, a).value)
  {
    var q := VerifyStep(kdf, s, a).value;
    VerifyMoves(kdf, s, a);
    SameRowsInv(s, q);
    VerifyCaches(kdf, s, a);
    assert forall id :: Live(s, id) ==> Live(q, id);
  }

  /** A call caches its own id, when it has checked it; it has checked an id that is stored. */
  lemma VerifyCaches(kdf: Kdf, s: Service, a: Action)
    requires LockInv(s) && VerifyStep(kdf, s, a).Some?
    ensures var q := VerifyStep(kdf, s, a).value;
            && (q.verified == s.verified
                || (VerifyAt(s, a.v).Checked? && s.owner == TheVerify(a.v)
                    && q.verified == s.verified[VerifyAt(s, a.v).c.key := KeyId(VerifyAt(s, a.v).c)]))
            && (VerifyAt(q, a.v).Checked? ==> KeyId(VerifyAt(q, a.v).c) in s.table)
  {
  }

  lemma MovedCall(kdf: Kdf, s: Service, a: Action)
    requires RowsInv(s) && VerifyStep(kdf, s, a).Some? && a.v < |s.verifies| && CallInv(kdf, s, s.verifies[a.v])
    ensures var q := VerifyStep(kdf, s, a).value; a.v < |q.verifies| && CallInv(kdf, q, q.verifies[a.v])
  {
    if a.Begin? || a.LookUp? || a.SelectRow? || a.Hash? { EarlyCall(kdf, s, a); } else { LateCall(kdf, s, a); }
  }

  /** Up to the end of the KDF. */
  lemma EarlyCall(kdf: Kdf, s: Service, a: Action)
    requires a.Begin? || a.LookUp? || a.SelectRow? || a.Hash?
    requires RowsInv(s) && VerifyStep(kdf, s, a).Some? && a.v < |s.verifies| && CallInv(kdf, s, s.verifies[a.v])
    ensures var q := VerifyStep(kdf, s, a).value; a.v < |q.verifies| && CallInv(kdf, q, q.verifies[a.v])
  {
  }

  /** Under the lock. */
  lemma LateCall(kdf: Kdf, s: Service, a: Action)
    requires a.LockVerify? || a.Recheck? || a.Insert? || a.UnlockVerify?
    requires VerifyStep(kdf, s, a).Some? && a.v < |s.verifies| && CallInv(kdf, s, s.verifies[a.v])
    ensures var q := VerifyStep(kdf, s, a).value; a.v < |q.verifies| && CallInv(kdf, q, q.verifies[a.v])
  {
  }

  lemma VerifyInv(kdf: Kdf, s: Service, a: Action)
    requires Inv(kdf, s) && VerifyStep(kdf, s, a).Some?
    ensures Inv(kdf, VerifyStep(kdf, s, a).value)
  {
    var q := VerifyStep(kdf, s, a).value;
    VerifyMoves(kdf, s, a);
    VerifyLock(kdf, s, a);
    SameRowsInv(s, q);
    VerifyIds(kdf, s, a);
    assert CallInv(kdf, s, s.verifies[a.v]);
    MovedCall(kdf, s, a);
    forall i | 0 <= i < |q.verifies| ensures CallInv(kdf, q, q.verifies[i]) {
      assert CallInv(kdf, s, s.verifies[i]);
    }
  }

  // Revoke.

  /** Only Revoke `a.r` has moved, and the lock passes only between no one and it. */
  lemma RevokeMoves(s: Service, a: Action)
    requires LockInv(s) && RevokeStep(s, a).Some?
    ensures var q := RevokeStep(s, a).value;
            && q.verifies == s.verifies && a.r < |s.revokes| == |q.revokes|
            && (forall i :: 0 <= i < |s.revokes| && i != a.r ==> q.revokes[i] == s.revokes[i])
            && (q.owner == s.owner || {s.owner, q.owner} == {NoOne, TheRevoke(a.r)})
            && (HoldsR(q.revokes[a.r]) <==> q.owner == TheRevoke(a.r))
  {
    assert HoldsR(RevokeAt(s, a.r)) <==> s.owner == TheRevoke(a.r);
  }

  lemma RevokeLock(s: Service, a: Action)
    requires LockInv(s) && RevokeStep(s, a).Some?
    ensures LockInv(RevokeStep(s, a).value)
  {
    RevokeMoves(s, a);
  }

  lemma RevokeRows(s: Service, a: Action)
    requires RowsInv(s) && RevokeStep(s, a).Some?
    ensures RowsInv(RevokeStep(s, a).value)
  {
    var q := RevokeStep(s, a).value;
    forall r | 0 <= r < |q.revokes| ensures DoomedInv(q, q.revokes[r]) {
      assert DoomedInv(s, s.revokes[r]);
    }
    if a.UnlockRevoke? {
      assert DoomedInv(s, s.revokes[a.r]);
      assert forall p :: p in s.revokes[a.r].doomed ==> Dooms(s.revokes[a.r], p);
    }
  }

  lemma RevokeAccounts(s: Service, a: Action)
    requires Accounted(s) && RevokeStep(s, a).Some?
    ensures Accounted(RevokeStep(s, a).value)
  {
    var q := RevokeStep(s, a).value;
    forall p | p in q.issued ensures Stored(q, p) || p in q.revoked || Doomed(q, p) {
      if Doomed(s, p) {
        var r :| 0 <= r < |s.revokes| && Dooms(s.revokes[r], p);
        assert p in q.revoked || Dooms(q.revokes[r], p);
      } else if Stored(s, p) && !Stored(q, p) {
        assert Dooms(q.revokes[a.r], p);
      }
    }
  }

  /** Through every step of a Revoke but the purge of its id, a pending id stays pending and a live id live. */
  lemma RevokeLive(s: Service, a: Action, id: int)
    requires RevokeStep(s, a).Some? && (a.Purge? ==> s.revokes[a.r].id != id)
    ensures Pending(s, id) ==> Pending(RevokeStep(s, a).value, id)
    ensures Live(s, id) ==> Live(RevokeStep(s, a).value, id)
  {
    var q := RevokeStep(s, a).value;
    if Pending(s, id) {
      var r :| 0 <= r < |s.revokes| && (s.revokes[r].Purging? || s.revokes[r].Holding?) && s.revokes[r].id == id;
      assert q.revokes[r].Purging? || q.revokes[r].Holding?;
      assert Pending(q, id);
    } else if id in s.table && id !in q.table {
      assert q.revokes[a.r].Purging? && q.revokes[a.r].id == id;
      assert Pending(q, id);
    }
  }

  lemma RevokeIds(s: Service, a: Action)
    requires LockInv(s) && IdsInv(s) && RevokeStep(s, a).Some?
    ensures IdsInv(RevokeStep(s, a).value)
  {
    var q := RevokeStep(s, a).value;
    forall k | k in q.verified ensures Live(q, q.verified[k]) { RevokeLive(s, a, s.verified[k]); }
    forall v | 0 <= v < |q.verifies| && q.verifies[v].Checked? ensures Live(q, KeyId(q.verifies[v].c)) {
      assert s.owner == TheVerify(v);
      RevokeLive(s, a, KeyId(s.verifies[v].c));
    }
  }

  lemma RevokeCall(kdf: Kdf, s: Service, a: Action, f: Verify)
    requires RevokeStep(s, a).Some? && CallInv(kdf, s, f)
    ensures CallInv(kdf, RevokeStep(s, a).value, f)
  {
    RevokeShrinks(s, a);
  }

  lemma RevokeShrinks(s: Service, a: Action)
    requires RevokeStep(s, a).Some?
    ensures var q := RevokeStep(s, a).value;
            q.issued == s.issued && s.revoked <= q.revoked && forall p :: Stored(q, p) ==> Stored(s, p)
  {
  }

  lemma RevokeInv(kdf: Kdf, s: Service, a: Action)
    requires Inv(kdf, s) && RevokeStep(s, a).Some?
    ensures Inv(kdf, RevokeStep(s, a).value)
  {
    var q := RevokeStep(s, a).value;
    RevokeLock(s, a);
    RevokeRows(s, a);
    RevokeAccounts(s, a);
    RevokeIds(s, a);
    forall v | 0 <= v < |q.verifies| ensures CallInv(kdf, q, q.verifies[v]) {
      assert CallInv(kdf, s, s.verifies[v]);
      RevokeCall(kdf, s, a, s.verifies[v]);
    }
  }

  // Runs.

  predicate OfRevoke(a: Action) {
    a.BeginRevoke? || a.DeleteRow? || a.LockRevoke? || a.Purge? || a.UnlockRevoke?
  }

  /** Every step of every call keeps the invariant, with no condition on the ids handed out. */
  lemma StepInv(kdf: Kdf, s: Service, a: Action)
    requires Inv(kdf, s) && Step(kdf, s, a).Some?
    ensures Inv(kdf, Step(kdf, s, a).value)
  {
    if a.Create? {
      CreateInv(kdf, s, a.id, a.phc);
    } else if OfRevoke(a) {
      RevokeInv(kdf, s, a);
    } else {
      VerifyInv(kdf, s, a);
    }
  }

  lemma InitInv(kdf: Kdf, verifies: nat, revokes: nat)
    ensures Inv(kdf, Init(verifies, revokes))
  {
  }

  lemma {:induction false} ExecInv(kdf: Kdf, s: Service, run: seq<Action>)
    requires Inv(kdf, s) && Exec(kdf, s, run).Some?
    ensures Inv(kdf, Exec(kdf, s, run).value)
    decreases |run|
  {
    if run != [] {
      StepInv(kdf, s, run[0]);
      ExecInv(kdf, Step(kdf, s, run[0]).value, run[1..]);
    }
  }

  lemma ReachableInv(kdf: Kdf, s: Service)
    requires Reachable(kdf, s)
    ensures Inv(kdf, s)
  {
    var verifies: nat, revokes: nat, run: seq<Action> :| Exec(kdf, Init(verifies, revokes), run) == Some(s);
    InitInv(kdf, verifies, revokes);
    ExecInv(kdf, Init(verifies, revokes), run);
  }

  /** In every run, at every step, each cached id is in the table or a Revoke is about to purge it. */
  lemma CacheAgreesWithTable(kdf: Kdf, s: Service, k: string)
    requires Reachable(kdf, s) && k in s.verified
    ensures s.verified[k] in s.table || Pending(s, s.verified[k])
  {
    ReachableInv(kdf, s);
  }

  /** A Revoke reports success only after its delete went through and the cache was purged; an error changes nothing. */
  lemma RevokeReports(s: Service, a: Action)
    requires RevokeStep(s, a).Some? && !RevokeAt(s, a.r).Revoked? && RevokeAt(RevokeStep(s, a).value, a.r).Revoked?
    ensures var q := RevokeStep(s, a).value;
            if RevokeAt(q, a.r).ok then RevokeAt(s, a.r).Purged? && q.revoked == s.revoked + RevokeAt(s, a.r).doomed
            else a == DeleteRow(a.r, true) && q == s.(revokes := q.revokes)
  {
  }

  predicate Failing(f: Verify) { (f.Leaving? || f.Returned?) && f.failed }

  /** A call counts as failed through an error of the database, and through nothing else. */
  lemma FailsByDatabase(kdf: Kdf, s: Service, a: Action)
    requires VerifyStep(kdf, s, a).Some? && !Failing(VerifyAt(s, a.v)) && Failing(VerifyAt(VerifyStep(kdf, s, a).value, a.v))
    ensures (a.SelectRow? || a.Recheck?) && a.dbErr
  {
  }

  /** A Verify says no to a well-formed key only after a query error, or when no row that stood all along accepts it. */
  lemma VerifyComplete(kdf: Kdf, s: Service, v: nat)
    requires Reachable(kdf, s) && v < |s.verifies| && s.verifies[v].Returned? && !s.verifies[v].ok
    ensures var f := s.verifies[v];
            f.failed || Parse(f.c.key).None? || !Steady(s, f.c) || !kdf(Secret(f.c), s.table[KeyId(f.c)])
  {
    ReachableInv(kdf, s);
    assert CallInv(kdf, s, s.verifies[v]);
  }

  /** The cache on its own, as Revoke purges it in place. */
  class Cache {
    var verified: map<string, int>

    constructor ()
      ensures verified == map[]
    {
      verified := map[];
    }

    method Purge(id: int)
      modifies this
      ensures verified == PurgedCache(old(verified), id)
    {
      var left := verified.Keys;
      ghost var all := verified;
      while left != {}
        invariant left <= all.Keys
        invariant verified.Keys <= all.Keys && forall k :: k in verified ==> verified[k] == all[k]
        invariant forall k :: k in all && (k in left || all[k] != id) ==> k in verified
        invariant forall k :: k in verified && k !in left ==> all[k] != id
        decreases |left|
      {
        var k :| k in left;
        if verified[k] == id {
          verified := verified - {k};
        }
        left := left - {k};
      }
      assert verified == PurgedCache(all, id);
    }
  }
}
