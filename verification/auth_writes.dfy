/** What each step of the machine writes to the tables, column by column, with the machine's own clock. */
module AuthWrites {
  import opened Options
  import opened AuthModel
  import opened AuthEffects
  import opened AuthInvariants
  import opened AuthProtocol
  import opened AuthSteps
  import TokenBlacklist

  /** A won swap writes what this refresh asked for, at this moment, and signs the next token; a lost one writes nothing. */
  lemma SwapWrites(s: Sys, e: Event)
    requires SysInv(s) && Enabled(s, e) && e.Swap?
    ensures var snap, t := s.clients[e.c].snap, Step(s, e);
            && (t.clients[e.c].Committed? ==>
                  Swapped(s.db, t.db, RotateInput(snap.rotation.familyId, snap.rotation.generation, snap.jti, e.next,
                                                  e.expiresAt, snap.rotation.generation + 1, s.now, e.tenant, e.access,
                                                  e.accessExp, e.ctx)))
            && (!t.clients[e.c].Committed? ==> t.db == s.db)
            && t.signed == s.signed[e.next := Claims(e.next, snap.rotation.familyId, snap.rotation.generation + 1, e.exp)]
            && t.redis == s.redis && t.pending == s.pending && t.now == s.now
  {
    RotateSwaps(s.db, SwapInput(s, s.clients[e.c].snap, e));
    hide SysInv, Rotate, Swapped;
  }

  lemma PresentedRowExists(s: Sys, c: ClientId)
    requires SysInv(s) && c in s.clients && s.clients[c].Replaying?
    ensures s.clients[c].snap.jti in s.db.rotations
  {
    assert ClientOk(s, s.clients[c]);
    hide DbInv, RowsSigned;
  }

  /** The answer to a replay revokes the family for that reason, now, and marks the presented row. */
  lemma ReplayWrites(s: Sys, c: ClientId)
    requires SysInv(s) && Enabled(s, RevokeReplayed(c))
    ensures var snap, t := s.clients[c].snap, Step(s, RevokeReplayed(c));
            && RevokedRows(s.db, t.db, snap.rotation.familyId, ReplayDetected, s.now, Some(snap.jti), None)
            && t == s.(db := t.db, clients := s.clients[c := Refused(ReplayFound, s.clients[c].claims, Some(snap))])
  {
    PresentedRowExists(s, c);
    var snap := s.clients[c].snap;
    hide SysInv, ClientOk, Revoke, RevokedRows;
    RevokeRevokes(s.db, snap.rotation.familyId, ReplayDetected, s.now, Some(snap.jti), None);
    RevokeFailsIff(s.db, snap.rotation.familyId, ReplayDetected, s.now, Some(snap.jti), None);
  }

  /** Steps nobody waits for write their own rows and nothing else. */
  lemma IdleWrites(s: Sys, e: Event)
    requires Enabled(s, e)
    ensures e.RevokeFamily? ==> RevokedRows(s.db, Step(s, e).db, e.fid, e.reason, s.now, None, e.actor)
    ensures e.ExpireFamily? ==>
              ExpiredRows(s.db, Step(s, e).db, e.fid) && Step(s, e).pending == s.pending - multiset{e.fid}
    ensures e.TouchSession? ==>
              TouchedRows(s.db, Step(s, e).db, e.fid, s.now, e.ctx, e.seenJti, e.seenExp)
    ensures e.RevokeFamily? || e.TouchSession? ==> Step(s, e) == s.(db := Step(s, e).db)
    ensures e.BlacklistToken? ==>
              Step(s, e) == s.(redis := if s.redisUp then s.redis[e.jti := s.now + 1000 * if e.ttl < 1 then 1 else e.ttl]
                                        else s.redis)
  {
    hide RevokedRows, ExpiredRows, TouchedRows, Revoke, Expire, Touch;
    if e.RevokeFamily? {
      RevokeRevokes(s.db, e.fid, e.reason, s.now, None, e.actor);
      RevokeFailsIff(s.db, e.fid, e.reason, s.now, None, e.actor);
    } else if e.ExpireFamily? {
      ExpireExpires(s.db, e.fid);
    } else if e.TouchSession? {
      TouchTouches(s.db, e.fid, s.now, e.ctx, e.seenJti, e.seenExp);
    }
  }

  /** The three writes of sign-in, each one row; a row that cannot be written ends the sign-in. */
  lemma SignInWrites(s: Sys, e: Event)
    requires SysInv(s) && Enabled(s, e)
    ensures e.StartSignIn? ==>
              var t := Step(s, e);
              && t.signed == s.signed[e.jti := Claims(e.jti, e.fid, 0, e.exp)]
              && (e.fid in s.db.families ==> t.db == s.db)
              && (e.fid !in s.db.families ==>
                    t.db == Db(s.db.families[e.fid := Family(e.user, e.tenant, 0, FamilyActive, e.expiresAt, None, None)],
                               s.db.rotations, s.db.sessions))
              && (t.clients[e.c] == SignInFailed <==> e.fid in s.db.families)
    ensures e.WriteRotation? && !Step(s, e).clients[e.c].SignInFailed? ==>
              var w := s.clients[e.c];
              Step(s, e).db == Db(s.db.families,
                                  s.db.rotations[w.claims.jti := Rotation(w.claims.family, 0, None, RotationActive, w.expiresAt,
                                                                          None, None, None)], s.db.sessions)
    ensures e.WriteSession? && !Step(s, e).clients[e.c].SignInFailed? ==>
              var w := s.clients[e.c];
              Step(s, e).db == Db(s.db.families, s.db.rotations,
                                  s.db.sessions[w.claims.family := Session(w.user, w.tenant, SessionActive, e.ctx,
                                                                           Some(e.access), Some(e.accessExp), s.now, s.now,
                                                                           None, None, None)])
    ensures (e.WriteRotation? || e.WriteSession?) && Step(s, e).clients[e.c].SignInFailed? ==> Step(s, e).db == s.db
  {
    if e.WriteRotation? {
      assert ClientOk(s, s.clients[e.c]);
    }
    hide SysInv;
  }

  /** A presented token is taken up exactly when it was signed as it stands and is in time, 30 seconds of tolerance included. */
  lemma PresentMeans(s: Sys, c: ClientId, claims: Claims)
    requires Enabled(s, Present(c, claims))
    ensures var client := Step(s, Present(c, claims)).clients[c];
            if claims.jti in s.signed && s.signed[claims.jti] == claims && s.now < 1000 * (claims.exp + 30)
            then client == Decoded(claims) else client == Refused(InvalidToken, claims, None)
  {
  }

  /** The lookup returns the row of the presented jti with its family, provided it is the family of the token. */
  lemma LookupMeans(s: Sys, c: ClientId)
    requires Enabled(s, Lookup(c))
    ensures var claims, client := s.clients[c].claims, Step(s, Lookup(c)).clients[c];
            if claims.jti in s.db.rotations && s.db.rotations[claims.jti].familyId == claims.family
               && claims.family in s.db.families
            then client == Found(claims, Snapshot(claims.jti, s.db.rotations[claims.jti], s.db.families[claims.family]))
            else client == Refused(RotationNotFound, claims, None)
  {
  }

  /** When each outcome of the checks occurs: mismatch, revoked, expired (before replay), replay, current. */
  lemma CheckMeans(s: Sys, c: ClientId)
    requires Enabled(s, Check(c))
    ensures var claims, snap, client := s.clients[c].claims, s.clients[c].snap, Step(s, Check(c)).clients[c];
            var mismatch := claims.generation != snap.rotation.generation;
            var over := snap.family.status == FamilyExpired || snap.rotation.expiresAt <= s.now || snap.family.expiresAt <= s.now;
            var stale := snap.rotation.status != RotationActive || snap.rotation.generation != snap.family.currentGeneration;
            client == if mismatch then Refused(WrongGeneration, claims, Some(snap))
                      else if snap.family.status == FamilyRevoked then Refused(FamilyIsRevoked, claims, Some(snap))
                      else if over then Refused(FamilyIsExpired, claims, Some(snap))
                      else if stale then Replaying(claims, snap)
                      else Checked(claims, snap)
  {
  }

  /** A request without access ends there; nothing is written and no token is spent. */
  lemma DenyMeans(s: Sys, c: ClientId)
    requires Enabled(s, DenyAccess(c))
    ensures Step(s, DenyAccess(c)) ==
            s.(clients := s.clients[c := Refused(NoAccess, s.clients[c].claims, Some(s.clients[c].snap))])
  {
  }

  /** The last step of a refresh blacklists the token it came with until its `exp`, if Redis can be reached. */
  lemma FinishMeans(s: Sys, c: ClientId)
    requires Enabled(s, Finish(c))
    ensures var k, t := s.clients[c], Step(s, Finish(c));
            && t.clients[c] == Returned(k.claims, k.snap, k.next) && t.db == s.db
            && (s.redisUp ==>
                  && t.redis == s.redis[k.claims.jti := t.redis[k.claims.jti]]
                  && 1000 * k.claims.exp <= t.redis[k.claims.jti]
                  && (t.redis[k.claims.jti] < 1000 * k.claims.exp + 1000 || t.redis[k.claims.jti] < s.now + 2000))
            && (!s.redisUp ==> t.redis == s.redis)
  {
    TokenBlacklist.EntryCoversToken(s.clients[c].claims.exp, s.now);
  }
}
