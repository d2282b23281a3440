/** What each transaction leaves behind, column by column, said without the transactions themselves. */
module AuthEffects {
  import opened Options
  import opened AuthModel

  // ---------- the swap ----------

  /** The family row: next generation, next expiry and the tenant asked for; its user stays. */
  ghost predicate FamilySwapped(before: Family, after: Family, d: RotateInput) {
    && before.status == FamilyActive && before.currentGeneration == d.expectedGeneration
    && after == Family(before.userId, d.tenantId, d.nextGeneration, FamilyActive, d.nextExpiresAt, before.revokedAt,
                       before.revokedReason)
  }

  /** The presented row is used and replaced at this moment; its other columns stay. */
  predicate RotationUsedUp(before: Rotation, after: Rotation, at: Time) {
    after == Rotation(before.familyId, before.generation, before.parent, RotationUsed, before.expiresAt, Some(at), Some(at),
                      before.replayedAt)
  }

  /** An active session was seen just now, in this context, with this access token; a closed one stays as it was. */
  predicate SessionSeen(before: Session, after: Session, d: RotateInput) {
    after == if before.status == SessionActive
             then Session(before.userId, before.tenantId, SessionActive, d.context, Some(d.accessJti),
                          Some(d.accessExpiresAt), d.rotatedAt, before.lastLoginAt, before.revokedAt, before.revokeReason,
                          before.revokedBy)
             else before
  }

  ghost predicate Swapped(a: Db, b: Db, d: RotateInput) {
    && d.familyId in a.families && d.previousJti in a.rotations && d.nextJti !in a.rotations
    && b.families.Keys == a.families.Keys && b.sessions.Keys == a.sessions.Keys
    && b.rotations.Keys == a.rotations.Keys + {d.nextJti}
    && FamilySwapped(a.families[d.familyId], b.families[d.familyId], d)
    && RotationUsedUp(a.rotations[d.previousJti], b.rotations[d.previousJti], d.rotatedAt)
    && b.rotations[d.nextJti] == Rotation(d.familyId, d.nextGeneration, Some(d.previousJti), RotationActive,
                                          d.nextExpiresAt, None, None, None)
    && (d.familyId in a.sessions ==> SessionSeen(a.sessions[d.familyId], b.sessions[d.familyId], d))
    && (forall f :: f in a.families && f != d.familyId ==> b.families[f] == a.families[f])
    && (forall j :: j in a.rotations && j != d.previousJti ==> b.rotations[j] == a.rotations[j])
    && (forall f :: f in a.sessions && f != d.familyId ==> b.sessions[f] == a.sessions[f])
  }

  lemma RotateSwaps(db: Db, d: RotateInput)
    ensures Rotate(db, d).1.Won? ==> Swapped(db, Rotate(db, d).0, d)
    ensures !Rotate(db, d).1.Won? ==> Rotate(db, d).0 == db
    ensures Rotate(db, d).1.Lost? <==>
              !(d.familyId in db.families && db.families[d.familyId].status == FamilyActive
                && db.families[d.familyId].currentGeneration == d.expectedGeneration)
  {
  }

  lemma RotateAborts(db: Db, d: RotateInput)
    ensures Rotate(db, d).1.Aborted? ==>
              d.previousJti !in db.rotations || d.nextJti in db.rotations
              || exists j :: j in db.rotations && db.rotations[j].familyId == d.familyId
                             && db.rotations[j].generation == d.nextGeneration
  {
  }

  // ---------- revocation ----------

  /** Only an active family is revoked, with this reason at this moment. */
  predicate FamilyRevokedBy(before: Family, after: Family, reason: Reason, at: Time) {
    after == if before.status == FamilyActive
             then Family(before.userId, before.tenantId, before.currentGeneration, FamilyRevoked, before.expiresAt, Some(at),
                         Some(reason))
             else before
  }

  /** The replayed row is marked; active and used rows of the family are revoked; all others stay. */
  predicate RotationSwept(before: Rotation, after: Rotation, fid: FamilyId, isReplayed: bool, at: Time) {
    && after.familyId == before.familyId && after.generation == before.generation && after.parent == before.parent
    && after.expiresAt == before.expiresAt && after.usedAt == before.usedAt && after.replacedAt == before.replacedAt
    && after.replayedAt == (if isReplayed then Some(at) else before.replayedAt)
    && after.status == (if isReplayed then RotationReplayed
                        else if before.familyId == fid && (before.status == RotationActive || before.status == RotationUsed)
                        then RotationRevoked else before.status)
  }

  /** Only an active session is revoked; without an actor the actor column stays. */
  predicate SessionRevokedBy(before: Session, after: Session, reason: Reason, at: Time, actor: Option<UserId>) {
    after == if before.status == SessionActive
             then Session(before.userId, before.tenantId, SessionRevoked, before.context, before.currentAccessJti,
                          before.currentAccessExpiresAt, before.lastSeenAt, before.lastLoginAt, Some(at), Some(reason),
                          if actor == None then before.revokedBy else actor)
             else before
  }

  ghost predicate RevokedRows(a: Db, b: Db, fid: FamilyId, reason: Reason, at: Time, replayed: Option<Jti>,
                              actor: Option<UserId>) {
    && b.families.Keys == a.families.Keys && b.rotations.Keys == a.rotations.Keys && b.sessions.Keys == a.sessions.Keys
    && (fid in a.families ==> FamilyRevokedBy(a.families[fid], b.families[fid], reason, at))
    && (fid in a.sessions ==> SessionRevokedBy(a.sessions[fid], b.sessions[fid], reason, at, actor))
    && (forall j :: j in a.rotations ==> RotationSwept(a.rotations[j], b.rotations[j], fid, replayed == Some(j), at))
    && (forall f :: f in a.families && f != fid ==> b.families[f] == a.families[f])
    && (forall f :: f in a.sessions && f != fid ==> b.sessions[f] == a.sessions[f])
  }

  lemma RevokeFailsIff(db: Db, fid: FamilyId, reason: Reason, at: Time, replayed: Option<Jti>, actor: Option<UserId>)
    ensures Revoke(db, fid, reason, at, replayed, actor).None? <==> exists j :: replayed == Some(j) && j !in db.rotations
  {
    if replayed.Some? { assert replayed == Some(replayed.value); }
  }

  lemma RevokeSweepsRows(db: Db, fid: FamilyId, reason: Reason, at: Time, replayed: Option<Jti>, actor: Option<UserId>)
    requires replayed.Some? ==> replayed.value in db.rotations
    ensures var after := Revoke(db, fid, reason, at, replayed, actor).value;
            && after.rotations.Keys == db.rotations.Keys
            && forall j :: j in db.rotations ==>
                 RotationSwept(db.rotations[j], after.rotations[j], fid, replayed == Some(j), at)
  {
  }

  lemma RevokeRevokes(db: Db, fid: FamilyId, reason: Reason, at: Time, replayed: Option<Jti>, actor: Option<UserId>)
    requires replayed.Some? ==> replayed.value in db.rotations
    ensures RevokedRows(db, Revoke(db, fid, reason, at, replayed, actor).value, fid, reason, at, replayed, actor)
  {
    RevokeSweepsRows(db, fid, reason, at, replayed, actor);
    hide RotationSwept;
  }

  // ---------- expiry ----------

  /** An active family and an active session expire; the reason is kept on both, no moment is. */
  ghost predicate ExpiredRows(a: Db, b: Db, fid: FamilyId) {
    && b.families.Keys == a.families.Keys && b.rotations == a.rotations && b.sessions.Keys == a.sessions.Keys
    && (fid in a.families ==>
          var f := a.families[fid];
          b.families[fid] == if f.status == FamilyActive
                             then Family(f.userId, f.tenantId, f.currentGeneration, FamilyExpired, f.expiresAt, f.revokedAt,
                                         Some(ExpiredReason))
                             else f)
    && (fid in a.sessions ==>
          var s := a.sessions[fid];
          b.sessions[fid] == if s.status == SessionActive
                             then Session(s.userId, s.tenantId, SessionExpired, s.context, s.currentAccessJti,
                                          s.currentAccessExpiresAt, s.lastSeenAt, s.lastLoginAt, s.revokedAt,
                                          Some(ExpiredReason), s.revokedBy)
                             else s)
    && (forall f :: f in a.families && f != fid ==> b.families[f] == a.families[f])
    && (forall f :: f in a.sessions && f != fid ==> b.sessions[f] == a.sessions[f])
  }

  lemma ExpireExpires(db: Db, fid: FamilyId)
    ensures ExpiredRows(db, Expire(db, fid), fid)
  {
  }

  // ---------- activity ----------

  function OrElse<T>(given: Option<T>, stored: Option<T>): Option<T> { if given == None then stored else given }

  /** Only the activity columns of an active session move; values that are missing leave theirs alone. */
  ghost predicate TouchedRows(a: Db, b: Db, fid: FamilyId, at: Time, context: Context, access: Option<Jti>,
                              accessExp: Option<Time>) {
    && b.families == a.families && b.rotations == a.rotations && b.sessions.Keys == a.sessions.Keys
    && (fid in a.sessions ==>
          var s := a.sessions[fid];
          b.sessions[fid] == if s.status == SessionActive
                             then Session(s.userId, s.tenantId, SessionActive,
                                          Context(context.os, context.client, OrElse(context.ip, s.context.ip),
                                                  OrElse(context.userAgent, s.context.userAgent)),
                                          OrElse(access, s.currentAccessJti), OrElse(accessExp, s.currentAccessExpiresAt),
                                          at, s.lastLoginAt, s.revokedAt, s.revokeReason, s.revokedBy)
                             else s)
    && (forall f :: f in a.sessions && f != fid ==> b.sessions[f] == a.sessions[f])
  }

  lemma TouchTouches(db: Db, fid: FamilyId, at: Time, context: Context, access: Option<Jti>, accessExp: Option<Time>)
    ensures TouchedRows(db, Touch(db, fid, at, context, access, accessExp), fid, at, context, access, accessExp)
  {
  }
}
