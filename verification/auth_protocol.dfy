/**
 Sign-in, refresh, logout, forced revocation and expiry as one interleaved machine.

 Each database transaction is one step; so is every read, check and Redis command between two
 transactions. Any number of clients are in flight, and any step of any of them may come next.
 Logout, forced logout and the end of an impersonation appear as `RevokeFamily` and `BlacklistToken`
 steps with arbitrary arguments, at arbitrary moments.
 */
module AuthProtocol {
  import opened Options
  import opened AuthModel
  import opened AuthInvariants

  type ClientId = nat

  datatype Error =
    | InvalidToken | TokenRevoked | RotationNotFound | WrongGeneration | FamilyIsRevoked | FamilyIsExpired
    | NoAccess | ReplayFound | DatabaseError

  /** Where one request stands between two of its steps. */
  datatype Client =
    // sign-in: the family row is written, then the rotation, then the session
    | NeedsRotation(claims: Claims, expiresAt: Time, user: UserId, tenant: TenantId)
    | NeedsSession(claims: Claims, user: UserId, tenant: TenantId)
    | SignedIn(claims: Claims)
    | SignInFailed
    // refresh
    | Decoded(claims: Claims)
    | Verified(claims: Claims)
    | Found(claims: Claims, snap: Snapshot)
    | Checked(claims: Claims, snap: Snapshot)
    | Replaying(claims: Claims, snap: Snapshot)
    | Committed(claims: Claims, snap: Snapshot, next: Jti)
    | Returned(claims: Claims, snap: Snapshot, next: Jti)
    | Refused(error: Error, claims: Claims, seen: Option<Snapshot>)

  datatype Sys = Sys(db: Db, signed: map<Jti, Claims>, redis: map<Jti, Time>, redisUp: bool, now: Time,
                     clients: map<ClientId, Client>, pending: multiset<FamilyId>)

  datatype Event =
    | Tick(to: Time)
    | RedisReachable(up: bool)
    | BlacklistToken(jti: Jti, ttl: int)
    | StartSignIn(c: ClientId, fid: FamilyId, jti: Jti, exp: int, expiresAt: Time, user: UserId, tenant: TenantId)
    | WriteRotation(c: ClientId)
    | WriteSession(c: ClientId, access: Jti, accessExp: Time, ctx: Context)
    | Present(c: ClientId, claims: Claims)
    | AskBlacklist(c: ClientId)
    | Lookup(c: ClientId)
    | Check(c: ClientId)
    | DenyAccess(c: ClientId)
    | Swap(c: ClientId, next: Jti, exp: int, expiresAt: Time, tenant: TenantId, access: Jti, accessExp: Time,
           ctx: Context)
    | RevokeReplayed(c: ClientId)
    | Finish(c: ClientId)
    | RevokeFamily(fid: FamilyId, reason: Reason, actor: Option<UserId>)
    | ExpireFamily(fid: FamilyId)
    | TouchSession(fid: FamilyId, ctx: Context, seenJti: Option<Jti>, seenExp: Option<Time>)

  const Init := Sys(Db(map[], map[], map[]), map[], map[], true, 0, map[], multiset{})

  // ---------- the steps ----------

  function With(s: Sys, c: ClientId, client: Client): Sys {
    s.(clients := s.clients[c := client])
  }

  /** `blacklist`: a Redis failure is swallowed. */
  function SetEntry(s: Sys, jti: Jti, ttl: int): map<Jti, Time> {
    if s.redisUp then s.redis[jti := EntryExpiry(ttl, s.now)] else s.redis
  }

  function DoStartSignIn(s: Sys, e: Event): Sys
    requires e.StartSignIn?
  {
    var claims := Claims(e.jti, e.fid, 0, e.exp);
    var t := s.(signed := s.signed[e.jti := claims]);
    match CreateFamily(s.db, e.fid, e.user, e.tenant, 0, e.expiresAt)
    case None => With(t, e.c, SignInFailed)
    case Some(db) => With(t.(db := db), e.c, NeedsRotation(claims, e.expiresAt, e.user, e.tenant))
  }

  function DoWriteRotation(s: Sys, c: ClientId): Sys
    requires c in s.clients && s.clients[c].NeedsRotation?
  {
    var w := s.clients[c];
    match CreateRotation(s.db, w.claims.family, w.claims.generation, w.claims.jti, w.expiresAt, None)
    case None => With(s, c, SignInFailed)
    case Some(db) => With(s.(db := db), c, NeedsSession(w.claims, w.user, w.tenant))
  }

  function DoWriteSession(s: Sys, e: Event): Sys
    requires e.WriteSession? && e.c in s.clients && s.clients[e.c].NeedsSession?
  {
    var w := s.clients[e.c];
    match CreateSession(s.db, w.claims.family, w.user, w.tenant, e.ctx, e.access, e.accessExp, s.now)
    case None => With(s, e.c, SignInFailed)
    case Some(db) => With(s.(db := db), e.c, SignedIn(w.claims))
  }

  /** `jwt.verify`: the signature (only signed claims pass) and the expiry with its tolerance. */
  function DoPresent(s: Sys, c: ClientId, claims: Claims): Sys {
    if claims.jti in s.signed && s.signed[claims.jti] == claims && WithinExpiry(claims.exp, s.now)
    then With(s, c, Decoded(claims)) else With(s, c, Refused(InvalidToken, claims, None))
  }

  function DoAskBlacklist(s: Sys, c: ClientId): Sys
    requires c in s.clients && s.clients[c].Decoded?
  {
    var claims := s.clients[c].claims;
    if s.redisUp && Blacklisted(s.redis, claims.jti, s.now) then With(s, c, Refused(TokenRevoked, claims, None))
    else With(s, c, Verified(claims))
  }

  function DoLookup(s: Sys, c: ClientId): Sys
    requires c in s.clients && s.clients[c].Verified?
  {
    var claims := s.clients[c].claims;
    if claims.jti in s.db.rotations && s.db.rotations[claims.jti].familyId == claims.family
       && claims.family in s.db.families
    then With(s, c, Found(claims, Snapshot(claims.jti, s.db.rotations[claims.jti], s.db.families[claims.family])))
    else With(s, c, Refused(RotationNotFound, claims, None))
  }

  function DoCheck(s: Sys, c: ClientId): Sys
    requires c in s.clients && s.clients[c].Found?
  {
    var f := s.clients[c];
    match CheckRotation(f.claims, f.snap, s.now)
    case GenerationMismatch => With(s, c, Refused(WrongGeneration, f.claims, Some(f.snap)))
    case AlreadyRevoked => With(s, c, Refused(FamilyIsRevoked, f.claims, Some(f.snap)))
    case AlreadyExpired =>
      // the expire transaction is started but not awaited
      With(s.(pending := s.pending + multiset{f.snap.rotation.familyId}), c,
           Refused(FamilyIsExpired, f.claims, Some(f.snap)))
    case Replay => With(s, c, Replaying(f.claims, f.snap))
    case Current => With(s, c, Checked(f.claims, f.snap))
  }

  function SwapInput(s: Sys, snap: Snapshot, e: Event): RotateInput
    requires e.Swap?
  {
    RotateInput(snap.rotation.familyId, snap.rotation.generation, snap.jti, e.next, e.expiresAt,
                snap.rotation.generation + 1, s.now, e.tenant, e.access, e.accessExp, e.ctx)
  }

  function DoSwap(s: Sys, e: Event): Sys
    requires e.Swap? && e.c in s.clients && s.clients[e.c].Checked?
  {
    var k := s.clients[e.c];
    var (db, result) := Rotate(s.db, SwapInput(s, k.snap, e));
    var next := Claims(e.next, k.snap.rotation.familyId, k.snap.rotation.generation + 1, e.exp);
    var t := s.(db := db, signed := s.signed[e.next := next]);
    match result
    case Won => With(t, e.c, Committed(k.claims, k.snap, e.next))
    case Lost => With(t, e.c, Replaying(k.claims, k.snap))
    case Aborted => With(t, e.c, Refused(DatabaseError, k.claims, Some(k.snap)))
  }

  function DoRevokeReplayed(s: Sys, c: ClientId): Sys
    requires c in s.clients && s.clients[c].Replaying?
  {
    var r := s.clients[c];
    match AuthModel.Revoke(s.db, r.snap.rotation.familyId, ReplayDetected, s.now, Some(r.snap.jti), None)
    case None => With(s, c, Refused(DatabaseError, r.claims, Some(r.snap)))
    case Some(db) => With(s.(db := db), c, Refused(ReplayFound, r.claims, Some(r.snap)))
  }

  function DoFinish(s: Sys, c: ClientId): Sys
    requires c in s.clients && s.clients[c].Committed?
  {
    var k := s.clients[c];
    With(s.(redis := SetEntry(s, k.claims.jti, RemainingTtl(k.claims.exp, s.now))), c, Returned(k.claims, k.snap, k.next))
  }


  function DoDenyAccess(s: Sys, c: ClientId): Sys
    requires c in s.clients && s.clients[c].Checked?
  {
    With(s, c, Refused(NoAccess, s.clients[c].claims, Some(s.clients[c].snap)))
  }

  function DoRevokeFamily(s: Sys, fid: FamilyId, reason: Reason, actor: Option<UserId>): Sys {
    s.(db := AuthModel.Revoke(s.db, fid, reason, s.now, None, actor).value)
  }

  function DoExpireFamily(s: Sys, fid: FamilyId): Sys {
    s.(db := AuthModel.Expire(s.db, fid), pending := s.pending - multiset{fid})
  }

  /** Fresh client names start requests; fresh random jtis are signed; clocks go forward. */
  predicate Enabled(s: Sys, e: Event) {
    match e
    case Tick(to) => s.now <= to
    case RedisReachable(_) => true
    case BlacklistToken(_, _) => true
    case StartSignIn(c, _, jti, _, _, _, _) => c !in s.clients && jti !in s.signed
    case WriteRotation(c) => c in s.clients && s.clients[c].NeedsRotation?
    case WriteSession(c, _, _, _) => c in s.clients && s.clients[c].NeedsSession?
    case Present(c, _) => c !in s.clients
    case AskBlacklist(c) => c in s.clients && s.clients[c].Decoded?
    case Lookup(c) => c in s.clients && s.clients[c].Verified?
    case Check(c) => c in s.clients && s.clients[c].Found?
    case DenyAccess(c) => c in s.clients && s.clients[c].Checked?
    case Swap(c, next, _, _, _, _, _, _) => c in s.clients && s.clients[c].Checked? && next !in s.signed
    case RevokeReplayed(c) => c in s.clients && s.clients[c].Replaying?
    case Finish(c) => c in s.clients && s.clients[c].Committed?
    case RevokeFamily(_, _, _) => true
    case ExpireFamily(fid) => fid in s.pending
    case TouchSession(_, _, _, _) => true
  }

  function Step(s: Sys, e: Event): Sys
    requires Enabled(s, e)
  {
    match e
    case Tick(to) => s.(now := to)
    case RedisReachable(up) => s.(redisUp := up)
    case BlacklistToken(jti, ttl) => s.(redis := SetEntry(s, jti, ttl))
    case StartSignIn(_, _, _, _, _, _, _) => DoStartSignIn(s, e)
    case WriteRotation(c) => DoWriteRotation(s, c)
    case WriteSession(_, _, _, _) => DoWriteSession(s, e)
    case Present(c, claims) => DoPresent(s, c, claims)
    case AskBlacklist(c) => DoAskBlacklist(s, c)
    case Lookup(c) => DoLookup(s, c)
    case Check(c) => DoCheck(s, c)
    case DenyAccess(c) => DoDenyAccess(s, c)
    case Swap(_, _, _, _, _, _, _, _) => DoSwap(s, e)
    case RevokeReplayed(c) => DoRevokeReplayed(s, c)
    case Finish(c) => DoFinish(s, c)
    case RevokeFamily(fid, reason, actor) => DoRevokeFamily(s, fid, reason, actor)
    case ExpireFamily(fid) => DoExpireFamily(s, fid)
    case TouchSession(fid, ctx, access, accessExp) => s.(db := AuthModel.Touch(s.db, fid, s.now, ctx, access, accessExp))
  }

  // ---------- the invariant ----------

  /** Every rotation row was created for a token the server signed, with the same family and generation. */
  ghost predicate RowsSigned(s: Sys) {
    && (forall j :: j in s.signed ==> s.signed[j].jti == j)
    && (forall j :: j in s.db.rotations ==>
          j in s.signed && s.signed[j].family == s.db.rotations[j].familyId
          && s.signed[j].generation == s.db.rotations[j].generation)
  }

  ghost predicate Settled(db: Db, fid: FamilyId) {
    fid in db.families && !db.families[fid].status.FamilyActive?
  }

  ghost predicate IsSigned(s: Sys, claims: Claims) {
    claims.jti in s.signed && s.signed[claims.jti] == claims
  }

  /** A snapshot names an existing row; what the database never changes in that row is still there. */
  ghost predicate SnapOk(s: Sys, claims: Claims, snap: Snapshot) {
    && IsSigned(s, claims)
    && snap.jti == claims.jti && snap.jti in s.db.rotations
    && snap.rotation.familyId == claims.family && snap.rotation.generation == claims.generation
    && s.db.rotations[snap.jti].familyId == claims.family
    && s.db.rotations[snap.jti].generation == claims.generation
    && claims.family in s.db.families
    && (!snap.family.status.FamilyActive? ==> s.db.families[claims.family].status == snap.family.status)
  }

  /** The successor row of a committed swap. */
  ghost predicate SuccessorRow(s: Sys, snap: Snapshot, next: Jti) {
    && next in s.db.rotations
    && s.db.rotations[next].familyId == snap.rotation.familyId
    && s.db.rotations[next].generation == snap.rotation.generation + 1
    && s.db.rotations[next].parent == Some(snap.jti)
  }

  ghost predicate RefusalOk(s: Sys, error: Error, claims: Claims, seen: Option<Snapshot>) {
    match error
    case WrongGeneration => false
    case DatabaseError => false
    case FamilyIsRevoked =>
      seen.Some? && SnapOk(s, claims, seen.value) && s.db.families[claims.family].status.FamilyRevoked?
    case FamilyIsExpired =>
      seen.Some? && SnapOk(s, claims, seen.value) && (claims.family in s.pending || Settled(s.db, claims.family))
    case ReplayFound =>
      && seen.Some? && SnapOk(s, claims, seen.value) && Settled(s.db, claims.family)
      && s.db.rotations[claims.jti].status.RotationReplayed?
    case NoAccess => seen.Some? && SnapOk(s, claims, seen.value) && IsCurrent(seen.value)
    case InvalidToken => seen.None?
    case TokenRevoked => seen.None?
    case RotationNotFound => seen.None?
  }

  ghost predicate ClientOk(s: Sys, client: Client) {
    match client
    case NeedsRotation(claims, _, _, _) => IsSigned(s, claims) && claims.generation == 0 && claims.family in s.db.families
    case NeedsSession(claims, _, _) =>
      && IsSigned(s, claims) && claims.family in s.db.families && claims.jti in s.db.rotations
      && s.db.rotations[claims.jti].familyId == claims.family
    case SignedIn(claims) => IsSigned(s, claims) && claims.family in s.db.sessions && claims.jti in s.db.rotations
    case SignInFailed => true
    case Decoded(claims) => IsSigned(s, claims)
    case Verified(claims) => IsSigned(s, claims)
    case Found(claims, snap) => SnapOk(s, claims, snap)
    case Checked(claims, snap) => SnapOk(s, claims, snap) && IsCurrent(snap)
    case Replaying(claims, snap) => SnapOk(s, claims, snap)
    case Committed(claims, snap, next) => SnapOk(s, claims, snap) && IsCurrent(snap) && SuccessorRow(s, snap, next)
    case Returned(claims, snap, next) => SnapOk(s, claims, snap) && IsCurrent(snap) && SuccessorRow(s, snap, next)
    case Refused(error, claims, seen) => RefusalOk(s, error, claims, seen)
  }

  ghost predicate ClientsOk(s: Sys) {
    forall c :: c in s.clients ==> ClientOk(s, s.clients[c])
  }

  ghost predicate SysInv(s: Sys) {
    DbInv(s.db) && RowsSigned(s) && ClientsOk(s)
  }

  /** What time does to the whole machine. */
  ghost predicate SysEvolves(s: Sys, t: Sys) {
    && Evolves(s.db, t.db)
    && (forall j :: j in s.signed ==> j in t.signed && t.signed[j] == s.signed[j])
    && (forall f :: f in s.pending ==> f in t.pending || Settled(t.db, f) || f !in s.db.families)
    && s.now <= t.now
  }

  // ---------- a client's facts survive the steps of others ----------

  lemma SnapStable(s: Sys, t: Sys, claims: Claims, snap: Snapshot)
    requires SysEvolves(s, t) && SnapOk(s, claims, snap)
    ensures SnapOk(t, claims, snap)
  {
  }

  lemma RefusalStable(s: Sys, t: Sys, error: Error, claims: Claims, seen: Option<Snapshot>)
    requires SysEvolves(s, t) && RefusalOk(s, error, claims, seen)
    ensures RefusalOk(t, error, claims, seen)
  {
    if seen.Some? && !error.InvalidToken? && !error.TokenRevoked? && !error.RotationNotFound? {
      SnapStable(s, t, claims, seen.value);
    }
  }

  lemma ClientStable(s: Sys, t: Sys, client: Client)
    requires SysEvolves(s, t) && ClientOk(s, client)
    ensures ClientOk(t, client)
  {
    match client
    case Found(claims, snap) => SnapStable(s, t, claims, snap);
    case Checked(claims, snap) => SnapStable(s, t, claims, snap);
    case Replaying(claims, snap) => SnapStable(s, t, claims, snap);
    case Committed(claims, snap, _) => SnapStable(s, t, claims, snap);
    case Returned(claims, snap, _) => SnapStable(s, t, claims, snap);
    case Refused(error, claims, seen) => RefusalStable(s, t, error, claims, seen);
    case _ =>
  }

  /** Enough to show about a step that moves one client: the tables, the signatures and that client. */
  lemma OneClientMoved(s: Sys, t: Sys, c: ClientId, client: Client)
    requires ClientsOk(s) && SysEvolves(s, t) && DbInv(t.db) && RowsSigned(t)
    requires t.clients == s.clients[c := client] && ClientOk(t, client)
    ensures SysInv(t)
  {
    hide DbInv, RowsSigned, SysEvolves, ClientOk;
    forall d | d in t.clients ensures ClientOk(t, t.clients[d]) {
      if d != c { ClientStable(s, t, s.clients[d]); }
    }
  }

  lemma NoClientMoved(s: Sys, t: Sys)
    requires ClientsOk(s) && SysEvolves(s, t) && DbInv(t.db) && RowsSigned(t) && t.clients == s.clients
    ensures SysInv(t)
  {
    hide DbInv, RowsSigned, SysEvolves, ClientOk;
    forall d | d in t.clients ensures ClientOk(t, t.clients[d]) {
      ClientStable(s, t, s.clients[d]);
    }
  }

  lemma TablesMoved(s: Sys, t: Sys)
    requires Evolves(s.db, t.db) && s.now <= t.now && s.pending <= t.pending
    requires t.signed == s.signed
    ensures SysEvolves(s, t)
  {
    hide Evolves;
  }

  lemma SameRowsSigned(s: Sys, t: Sys)
    requires RowsSigned(s) && t.signed == s.signed && RotationsEvolve(s.db, t.db)
    requires t.db.rotations.Keys == s.db.rotations.Keys
    ensures RowsSigned(t)
  {
  }

  lemma SameDbEvolves(db: Db)
    ensures Evolves(db, db)
  {
  }

  /** Steps that only read the tables. */
  ghost predicate SameTables(s: Sys, t: Sys) {
    t.db == s.db && t.signed == s.signed && s.now <= t.now && s.pending <= t.pending
  }

  lemma SameTablesEvolve(s: Sys, t: Sys)
    requires SysInv(s) && SameTables(s, t)
    ensures SysEvolves(s, t) && RowsSigned(t)
  {
  }

  lemma OneReaderMoved(s: Sys, t: Sys, c: ClientId, client: Client)
    requires SysInv(s) && SameTables(s, t) && t.clients == s.clients[c := client] && ClientOk(t, client)
    ensures SysInv(t) && SysEvolves(s, t)
  {
    SameTablesEvolve(s, t);
    hide RowsSigned, SysEvolves, ClientOk;
    OneClientMoved(s, t, c, client);
  }
}
