/** The session row of a family tells the same story as the family row, once sign-in has finished. */
module AuthSessions {
  import opened Options
  import opened AuthModel
  import opened AuthInvariants
  import opened AuthProtocol

  predicate SameStatus(f: FamilyStatus, s: SessionStatus) {
    match f
    case FamilyActive => s.SessionActive?
    case FamilyRevoked => s.SessionRevoked?
    case FamilyExpired => s.SessionExpired?
  }

  /** Session mirrors family; a family without a session row is still active. */
  ghost predicate Mirror(db: Db) {
    forall f :: f in db.families ==>
      if f in db.sessions then SameStatus(db.families[f].status, db.sessions[f].status)
      else db.families[f].status.FamilyActive?
  }

  /** Each session row has the status of its family row; nothing is said of families without one. */
  ghost predicate RowsAgree(db: Db) {
    forall f :: f in db.sessions && f in db.families ==> SameStatus(db.families[f].status, db.sessions[f].status)
  }

  ghost predicate SessionsBuilt(db: Db) {
    forall f :: f in db.sessions ==> HasRotation(db, f)
  }

  /** No rotation of a revoked family is left active or used. */
  ghost predicate RevokedSwept(db: Db) {
    forall j :: j in db.rotations && db.rotations[j].familyId in db.families
                && db.families[db.rotations[j].familyId].status.FamilyRevoked? ==>
      db.rotations[j].status.RotationRevoked? || db.rotations[j].status.RotationReplayed?
  }

  ghost predicate SessionInv(db: Db) {
    Mirror(db) && SessionsBuilt(db) && RevokedSwept(db)
  }

  /** A revocation or expiry that reaches a family whose session row is not written yet. */
  predicate Early(s: Sys, e: Event)
    requires Enabled(s, e)
  {
    match e
    case RevokeFamily(fid, _, _) => fid in s.db.families && fid !in s.db.sessions
    case ExpireFamily(fid) => fid in s.db.families && fid !in s.db.sessions
    case RevokeReplayed(c) => s.clients[c].snap.rotation.familyId !in s.db.sessions
    case _ => false
  }

  lemma BuiltStays(a: Db, b: Db)
    requires SessionsBuilt(a) && RotationsEvolve(a, b) && b.sessions.Keys == a.sessions.Keys
    ensures SessionsBuilt(b)
  {
    forall f | f in b.sessions ensures HasRotation(b, f) {
      assert HasRotation(a, f);
      HasRotationStays(a, b, f);
    }
  }

  lemma CreateFamilyMirrors(db: Db, fid: FamilyId, user: UserId, tenant: TenantId, expiresAt: Time)
    requires SessionInv(db) && DbInv(db) && fid !in db.families
    ensures SessionInv(CreateFamily(db, fid, user, tenant, 0, expiresAt).value)
  {
    BuiltStays(db, CreateFamily(db, fid, user, tenant, 0, expiresAt).value);
  }

  lemma CreateRotationMirrors(db: Db, fid: FamilyId, jti: Jti, expiresAt: Time)
    requires SessionInv(db) && DbInv(db) && fid in db.families && jti !in db.rotations && !GenerationTaken(db, fid, 0)
    ensures SessionInv(CreateRotation(db, fid, 0, jti, expiresAt, None).value)
  {
    NoFirstNoRotation(db, fid);
    assert fid !in db.sessions;
    CreateFirstRotationKeeps(db, fid, jti, expiresAt);
    hide DbInv;
    BuiltStays(db, CreateRotation(db, fid, 0, jti, expiresAt, None).value);
  }

  lemma CreateSessionMirrors(db: Db, fid: FamilyId, user: UserId, tenant: TenantId, ctx: Context, access: Jti,
                             accessExp: Time, at: Time)
    requires SessionInv(db) && fid in db.families && fid !in db.sessions && HasRotation(db, fid)
    ensures SessionInv(CreateSession(db, fid, user, tenant, ctx, access, accessExp, at).value)
  {
    var b := CreateSession(db, fid, user, tenant, ctx, access, accessExp, at).value;
    forall f | f in b.sessions ensures HasRotation(b, f) {
      assert HasRotation(db, f);
      HasRotationStays(db, b, f);
    }
  }

  lemma RotateMirrors(db: Db, d: RotateInput)
    requires SessionInv(db) && DbInv(db) && SwapsOwnRow(db, d)
    ensures SessionInv(Rotate(db, d).0)
  {
    RotateEvolves(db, d);
    RotateMirrorsStatus(db, d);
    hide DbInv, Mirror, RevokedSwept;
    BuiltStays(db, Rotate(db, d).0);
  }

  lemma RotateMirrorsStatus(db: Db, d: RotateInput)
    requires Mirror(db) && RevokedSwept(db) && SwapsOwnRow(db, d)
    ensures Mirror(Rotate(db, d).0) && RevokedSwept(Rotate(db, d).0)
  {
  }

  lemma RevokeMirrors(db: Db, fid: FamilyId, reason: Reason, at: Time, replayed: Option<Jti>, actor: Option<UserId>)
    requires SessionInv(db) && (fid in db.families ==> fid in db.sessions)
    requires replayed.Some? ==> replayed.value in db.rotations
    ensures SessionInv(Revoke(db, fid, reason, at, replayed, actor).value)
  {
    RevokeEvolves(db, fid, reason, at, replayed, actor);
    RevokeMirrorsStatus(db, fid, reason, at, replayed, actor);
    RevokeSweeps(db, fid, reason, at, replayed, actor);
    hide Mirror, RevokedSwept;
    BuiltStays(db, Revoke(db, fid, reason, at, replayed, actor).value);
  }

  lemma RevokeMirrorsStatus(db: Db, fid: FamilyId, reason: Reason, at: Time, replayed: Option<Jti>,
                            actor: Option<UserId>)
    requires Mirror(db) && (fid in db.families ==> fid in db.sessions)
    requires replayed.Some? ==> replayed.value in db.rotations
    ensures Mirror(Revoke(db, fid, reason, at, replayed, actor).value)
  {
  }

  lemma RevokeSweeps(db: Db, fid: FamilyId, reason: Reason, at: Time, replayed: Option<Jti>, actor: Option<UserId>)
    requires RevokedSwept(db)
    requires replayed.Some? ==> replayed.value in db.rotations
    ensures RevokedSwept(Revoke(db, fid, reason, at, replayed, actor).value)
  {
  }

  lemma ExpireMirrors(db: Db, fid: FamilyId)
    requires SessionInv(db) && (fid in db.families ==> fid in db.sessions)
    ensures SessionInv(Expire(db, fid))
  {
    BuiltStays(db, Expire(db, fid));
  }

  lemma TouchMirrors(db: Db, fid: FamilyId, at: Time, ctx: Context, access: Option<Jti>, accessExp: Option<Time>)
    requires SessionInv(db)
    ensures SessionInv(Touch(db, fid, at, ctx, access, accessExp))
  {
    BuiltStays(db, Touch(db, fid, at, ctx, access, accessExp));
  }

  /** Every step that is not an early revocation keeps session and family in agreement. */
  lemma StepMirrors(s: Sys, e: Event)
    requires SysInv(s) && SessionInv(s.db) && Enabled(s, e) && !Early(s, e)
    ensures SessionInv(Step(s, e).db)
  {
    hide SessionInv, DbInv, ClientOk, RowsSigned;
    match e
    case StartSignIn(_, fid, _, _, expiresAt, user, tenant) =>
      if fid !in s.db.families { CreateFamilyMirrors(s.db, fid, user, tenant, expiresAt); }
    case WriteRotation(c) => WriteRotationMirrors(s, c);
    case WriteSession(_, _, _, _) => WriteSessionMirrors(s, e);
    case Swap(_, _, _, _, _, _, _, _) => SwapMirrors(s, e);
    case RevokeReplayed(c) => RevokeReplayedMirrors(s, c);
    case RevokeFamily(fid, reason, actor) => RevokeMirrors(s.db, fid, reason, s.now, None, actor);
    case ExpireFamily(fid) => ExpireMirrors(s.db, fid);
    case TouchSession(fid, ctx, access, accessExp) => TouchMirrors(s.db, fid, s.now, ctx, access, accessExp);
    case _ =>
  }

  lemma SwapMirrors(s: Sys, e: Event)
    requires DbInv(s.db) && SessionInv(s.db) && RowsSigned(s)
    requires e.Swap? && e.c in s.clients && s.clients[e.c].Checked? && e.next !in s.signed
    requires ClientOk(s, s.clients[e.c])
    ensures SessionInv(DoSwap(s, e).db)
  {
    hide SessionInv, DbInv;
    RotateMirrors(s.db, SwapInput(s, s.clients[e.c].snap, e));
  }

  lemma RevokeReplayedMirrors(s: Sys, c: ClientId)
    requires SessionInv(s.db) && c in s.clients && s.clients[c].Replaying? && ClientOk(s, s.clients[c])
    requires s.clients[c].snap.rotation.familyId in s.db.sessions
    ensures SessionInv(DoRevokeReplayed(s, c).db)
  {
    hide SessionInv;
    RevokeMirrors(s.db, s.clients[c].snap.rotation.familyId, ReplayDetected, s.now, Some(s.clients[c].snap.jti), None);
  }

  lemma WriteRotationMirrors(s: Sys, c: ClientId)
    requires SysInv(s) && SessionInv(s.db) && c in s.clients && s.clients[c].NeedsRotation?
    ensures SessionInv(DoWriteRotation(s, c).db)
  {
    var w := s.clients[c];
    assert ClientOk(s, w);
    hide SessionInv, DbInv;
    if CreateRotation(s.db, w.claims.family, w.claims.generation, w.claims.jti, w.expiresAt, None).Some? {
      CreateRotationMirrors(s.db, w.claims.family, w.claims.jti, w.expiresAt);
    }
  }

  lemma WriteSessionMirrors(s: Sys, e: Event)
    requires SysInv(s) && SessionInv(s.db) && e.WriteSession? && e.c in s.clients && s.clients[e.c].NeedsSession?
    ensures SessionInv(DoWriteSession(s, e).db)
  {
    var w := s.clients[e.c];
    assert ClientOk(s, w);
    hide SessionInv, DbInv;
    assert s.db.rotations[w.claims.jti].familyId == w.claims.family;
    if CreateSession(s.db, w.claims.family, w.user, w.tenant, e.ctx, e.access, e.accessExp, s.now).Some? {
      CreateSessionMirrors(s.db, w.claims.family, w.user, w.tenant, e.ctx, e.access, e.accessExp, s.now);
    }
  }
}
