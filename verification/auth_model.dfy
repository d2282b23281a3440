/**
 The rows behind refresh-token rotation and the transactions that change them, on values.

 A rotation row is named by its jti: the `jti_hash` column is unique, rows are never re-keyed, and
 the hash is taken to be injective. `Time` is in milliseconds, like a JavaScript `Date`; the `exp`
 claim of a token is in seconds, as in section 4.1.4 of RFC 7519.
 */
module AuthModel {
  import opened Options

  type FamilyId = nat
  type Jti = nat
  type UserId = nat
  type TenantId = nat
  type Time = int

  datatype FamilyStatus = FamilyActive | FamilyRevoked | FamilyExpired
  datatype RotationStatus = RotationActive | RotationUsed | RotationRevoked | RotationReplayed
  datatype SessionStatus = SessionActive | SessionRevoked | SessionExpired

  datatype Reason =
    | Logout | ImpersonationEnded | ReplayDetected
    | ForceLogoutUser | ForceLogoutSession | ForceLogoutAll | ExpiredReason

  datatype Context = Context(os: nat, client: nat, ip: Option<string>, userAgent: Option<string>)

  datatype Family = Family(userId: UserId, tenantId: TenantId, currentGeneration: nat, status: FamilyStatus,
                           expiresAt: Time, revokedAt: Option<Time>, revokedReason: Option<Reason>)

  datatype Rotation = Rotation(familyId: FamilyId, generation: nat, parent: Option<Jti>, status: RotationStatus,
                               expiresAt: Time, usedAt: Option<Time>, replacedAt: Option<Time>,
                               replayedAt: Option<Time>)

  datatype Session = Session(userId: UserId, tenantId: TenantId, status: SessionStatus, context: Context,
                             currentAccessJti: Option<Jti>, currentAccessExpiresAt: Option<Time>,
                             lastSeenAt: Time, lastLoginAt: Time, revokedAt: Option<Time>,
                             revokeReason: Option<Reason>, revokedBy: Option<UserId>)

  datatype Db = Db(families: map<FamilyId, Family>, rotations: map<Jti, Rotation>, sessions: map<FamilyId, Session>)

  /** How a transaction ended: committed, committed without advancing the family, or rolled back. */
  datatype RotateResult = Won | Lost | Aborted

  datatype RotateInput = RotateInput(familyId: FamilyId, expectedGeneration: nat, previousJti: Jti, nextJti: Jti,
                                     nextExpiresAt: Time, nextGeneration: nat, rotatedAt: Time, tenantId: TenantId,
                                     accessJti: Jti, accessExpiresAt: Time, context: Context)

  /** The claims of a signed refresh token that rotation looks at. */
  datatype Claims = Claims(jti: Jti, family: FamilyId, generation: nat, exp: int)

  /** A rotation row together with its family row, as one lookup returned them. */
  datatype Snapshot = Snapshot(jti: Jti, rotation: Rotation, family: Family)

  // ---------- lookups ----------

  predicate IsActive(db: Db, fid: FamilyId) {
    fid in db.families && db.families[fid].status.FamilyActive?
  }

  predicate HasRotation(db: Db, fid: FamilyId) {
    exists j :: j in db.rotations && db.rotations[j].familyId == fid
  }

  predicate GenerationTaken(db: Db, fid: FamilyId, generation: nat) {
    exists j :: j in db.rotations && db.rotations[j].familyId == fid && db.rotations[j].generation == generation
  }

  // ---------- creation: three separate writes ----------

  function CreateFamily(db: Db, fid: FamilyId, user: UserId, tenant: TenantId, generation: nat, expiresAt: Time)
    : Option<Db>
  {
    if fid in db.families then None
    else Some(db.(families := db.families[fid := Family(user, tenant, generation, FamilyActive, expiresAt, None, None)]))
  }

  function CreateRotation(db: Db, fid: FamilyId, generation: nat, jti: Jti, expiresAt: Time, parent: Option<Jti>)
    : Option<Db>
  {
    if fid !in db.families || jti in db.rotations || GenerationTaken(db, fid, generation) then None
    else Some(db.(rotations := db.rotations[jti := Rotation(fid, generation, parent, RotationActive, expiresAt,
                                                            None, None, None)]))
  }

  function CreateSession(db: Db, fid: FamilyId, user: UserId, tenant: TenantId, context: Context, accessJti: Jti,
                         accessExpiresAt: Time, at: Time): Option<Db>
  {
    if fid !in db.families || fid in db.sessions then None
    else Some(db.(sessions := db.sessions[fid := Session(user, tenant, SessionActive, context, Some(accessJti),
                                                         Some(accessExpiresAt), at, at, None, None, None)]))
  }

  // ---------- the guarded transactions ----------

  function SeenSession(s: Session, d: RotateInput): Session {
    s.(lastSeenAt := d.rotatedAt, context := d.context, currentAccessJti := Some(d.accessJti),
       currentAccessExpiresAt := Some(d.accessExpiresAt))
  }

  /** Compare-and-swap on (active, expected generation), then the three row changes that go with it. */
  function Rotate(db: Db, d: RotateInput): (Db, RotateResult) {
    if !IsActive(db, d.familyId) || db.families[d.familyId].currentGeneration != d.expectedGeneration then
      (db, Lost)
    else if d.previousJti !in db.rotations || d.nextJti in db.rotations
            || GenerationTaken(db, d.familyId, d.nextGeneration) then
      (db, Aborted)
    else
      var family := db.families[d.familyId].(currentGeneration := d.nextGeneration, expiresAt := d.nextExpiresAt,
                                             tenantId := d.tenantId);
      var used := db.rotations[d.previousJti].(status := RotationUsed, usedAt := Some(d.rotatedAt),
                                               replacedAt := Some(d.rotatedAt));
      var next := Rotation(d.familyId, d.nextGeneration, Some(d.previousJti), RotationActive, d.nextExpiresAt,
                           None, None, None);
      var sessions := if d.familyId in db.sessions && db.sessions[d.familyId].status.SessionActive?
                      then db.sessions[d.familyId := SeenSession(db.sessions[d.familyId], d)] else db.sessions;
      (Db(db.families[d.familyId := family], db.rotations[d.previousJti := used][d.nextJti := next], sessions), Won)
  }

  function RevokedRotation(r: Rotation, fid: FamilyId): Rotation {
    if r.familyId == fid && (r.status.RotationActive? || r.status.RotationUsed?)
    then r.(status := RotationRevoked) else r
  }

  /** None when the row to mark as replayed does not exist: the whole transaction rolls back. */
  function Revoke(db: Db, fid: FamilyId, reason: Reason, at: Time, replayed: Option<Jti>, actor: Option<UserId>)
    : Option<Db>
  {
    if replayed.Some? && replayed.value !in db.rotations then None
    else
      var families := if IsActive(db, fid)
                      then db.families[fid := db.families[fid].(status := FamilyRevoked, revokedAt := Some(at),
                                                                revokedReason := Some(reason))]
                      else db.families;
      var swept := map j | j in db.rotations :: RevokedRotation(db.rotations[j], fid);
      var rotations := if replayed.Some?
                       then swept[replayed.value := swept[replayed.value].(status := RotationReplayed,
                                                                           replayedAt := Some(at))]
                       else swept;
      var sessions := if fid in db.sessions && db.sessions[fid].status.SessionActive?
                      then db.sessions[fid := db.sessions[fid].(
                                         status := SessionRevoked, revokedAt := Some(at), revokeReason := Some(reason),
                                         revokedBy := if actor.Some? then actor else db.sessions[fid].revokedBy)]
                      else db.sessions;
      Some(Db(families, rotations, sessions))
  }

  function Expire(db: Db, fid: FamilyId): Db {
    var families := if IsActive(db, fid)
                    then db.families[fid := db.families[fid].(status := FamilyExpired,
                                                              revokedReason := Some(ExpiredReason))]
                    else db.families;
    var sessions := if fid in db.sessions && db.sessions[fid].status.SessionActive?
                    then db.sessions[fid := db.sessions[fid].(status := SessionExpired,
                                                              revokeReason := Some(ExpiredReason))]
                    else db.sessions;
    Db(families, db.rotations, sessions)
  }

  /** `touchUserSession`: an update of the activity columns, and only while the session is active. */
  function Touch(db: Db, fid: FamilyId, at: Time, context: Context, access: Option<Jti>, accessExp: Option<Time>): Db {
    if fid in db.sessions && db.sessions[fid].status.SessionActive? then
      var s := db.sessions[fid];
      var ctx := Context(context.os, context.client,
                         if context.ip.Some? then context.ip else s.context.ip,
                         if context.userAgent.Some? then context.userAgent else s.context.userAgent);
      db.(sessions := db.sessions[fid := s.(lastSeenAt := at, context := ctx,
                                            currentAccessJti := if access.Some? then access else s.currentAccessJti,
                                            currentAccessExpiresAt :=
                                              if accessExp.Some? then accessExp else s.currentAccessExpiresAt)])
    else db
  }

  // ---------- the local checks of a refresh, on a snapshot ----------

  datatype CheckResult = GenerationMismatch | AlreadyRevoked | AlreadyExpired | Replay | Current

  function CheckRotation(claims: Claims, snap: Snapshot, now: Time): CheckResult {
    if claims.generation != snap.rotation.generation then GenerationMismatch
    else if snap.family.status.FamilyRevoked? then AlreadyRevoked
    else if snap.family.status.FamilyExpired? || snap.rotation.expiresAt <= now || snap.family.expiresAt <= now then
      AlreadyExpired
    else if !IsCurrent(snap) then Replay
    else Current
  }

  predicate IsCurrent(snap: Snapshot) {
    snap.rotation.status.RotationActive? && snap.rotation.generation == snap.family.currentGeneration
  }

  // ---------- time to live of a blacklist entry ----------

  const CLOCK_TOLERANCE_SECONDS := 30

  function Max(a: int, b: int): int { if a < b then b else a }

  /** `nowUnix`: whole seconds, rounded down. */
  function UnixSeconds(now: Time): int { now / 1000 }

  /** `computeRemainingTtl`. */
  function RemainingTtl(exp: int, now: Time): int { Max(exp - UnixSeconds(now), 0) }

  /** `computeRemainingTtlFromDate`: whole seconds, rounded up. */
  function RemainingTtlFromDate(expiresAt: Time, now: Time): int { Max(-((now - expiresAt) / 1000), 0) }

  /** When an entry set at `now` with `ttl` seconds disappears; `blacklist` never sets less than one second. */
  function EntryExpiry(ttl: int, now: Time): Time { now + 1000 * Max(ttl, 1) }

  predicate Blacklisted(redis: map<Jti, Time>, jti: Jti, now: Time) {
    jti in redis && now < redis[jti]
  }

  /** The time part of `jwt.verify` with the clock tolerance. */
  predicate WithinExpiry(exp: int, now: Time) {
    UnixSeconds(now) < exp + CLOCK_TOLERANCE_SECONDS
  }
}
