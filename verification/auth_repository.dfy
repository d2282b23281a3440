/** The three token tables, updated in place, one transaction at a time. */
module AuthRepositoryModule {
  import opened Options
  import opened AuthEffects
  import opened AuthModel

  class AuthRepository {
    var families: map<FamilyId, Family>
    var rotations: map<Jti, Rotation>
    var sessions: map<FamilyId, Session>

    constructor ()
      ensures Tables() == Db(map[], map[], map[])
    {
      families, rotations, sessions := map[], map[], map[];
    }

    ghost function Tables(): Db
      reads this
    {
      Db(families, rotations, sessions)
    }

    /** False when the primary key is taken. */
    method CreateRefreshTokenFamily(fid: FamilyId, user: UserId, tenant: TenantId, generation: nat, expiresAt: Time)
      returns (ok: bool)
      modifies this
      ensures var after := CreateFamily(old(Tables()), fid, user, tenant, generation, expiresAt);
              ok == after.Some? && Tables() == if ok then after.value else old(Tables())
      ensures ok <==> fid !in old(families)
      ensures ok ==> families == old(families)[fid := Family(user, tenant, generation, FamilyActive, expiresAt, None, None)]
                     && rotations == old(rotations) && sessions == old(sessions)
    {
      ok := fid !in families;
      if ok {
        families := families[fid := Family(user, tenant, generation, FamilyActive, expiresAt, None, None)];
      }
    }

    method IsGenerationTaken(fid: FamilyId, generation: nat) returns (taken: bool)
      ensures taken == GenerationTaken(Tables(), fid, generation)
      ensures taken <==> exists j :: j in rotations && rotations[j].familyId == fid && rotations[j].generation == generation
    {
      taken := exists j :: j in rotations && rotations[j].familyId == fid && rotations[j].generation == generation;
    }

    /** False when the family is missing, or one of the two unique indexes objects. */
    method CreateRefreshTokenRotation(fid: FamilyId, generation: nat, jti: Jti, expiresAt: Time, parent: Option<Jti>)
      returns (ok: bool)
      modifies this
      ensures var after := CreateRotation(old(Tables()), fid, generation, jti, expiresAt, parent);
              ok == after.Some? && Tables() == if ok then after.value else old(Tables())
      ensures ok <==> fid in old(families) && jti !in old(rotations)
                      && forall j :: j in old(rotations) && old(rotations)[j].familyId == fid ==>
                           old(rotations)[j].generation != generation
      ensures ok ==> families == old(families) && sessions == old(sessions)
                     && rotations == old(rotations)[jti := Rotation(fid, generation, parent, RotationActive, expiresAt,
                                                                    None, None, None)]
    {
      var taken := IsGenerationTaken(fid, generation);
      ok := fid in families && jti !in rotations && !taken;
      if ok {
        rotations := rotations[jti := Rotation(fid, generation, parent, RotationActive, expiresAt, None, None, None)];
      }
    }

    method CreateUserSession(fid: FamilyId, user: UserId, tenant: TenantId, context: Context, accessJti: Jti,
                             accessExpiresAt: Time, at: Time) returns (ok: bool)
      modifies this
      ensures var after := CreateSession(old(Tables()), fid, user, tenant, context, accessJti, accessExpiresAt, at);
              ok == after.Some? && Tables() == if ok then after.value else old(Tables())
      ensures ok <==> fid in old(families) && fid !in old(sessions)
      ensures ok ==> families == old(families) && rotations == old(rotations)
                     && sessions == old(sessions)[fid := Session(user, tenant, SessionActive, context, Some(accessJti),
                                                                 Some(accessExpiresAt), at, at, None, None, None)]
    {
      ok := fid in families && fid !in sessions;
      if ok {
        sessions := sessions[fid := Session(user, tenant, SessionActive, context, Some(accessJti),
                                            Some(accessExpiresAt), at, at, None, None, None)];
      }
    }

    method FindRotationByHash(jti: Jti) returns (found: Option<Snapshot>)
      ensures found == if jti in rotations && rotations[jti].familyId in families
                       then Some(Snapshot(jti, rotations[jti], families[rotations[jti].familyId])) else None
    {
      if jti in rotations && rotations[jti].familyId in families {
        found := Some(Snapshot(jti, rotations[jti], families[rotations[jti].familyId]));
      } else {
        found := None;
      }
    }

    /** The conditional update first; the other rows only when it hit. A failing statement undoes all of it. */
    method RotateRefreshTokenFamily(d: RotateInput) returns (result: RotateResult)
      modifies this
      ensures (Tables(), result) == Rotate(old(Tables()), d)
      ensures result.Won? ==> Swapped(old(Tables()), Tables(), d)
      ensures !result.Won? ==> Tables() == old(Tables())
      ensures result.Lost? <==>
                !(d.familyId in old(families) && old(families)[d.familyId].status == FamilyActive
                  && old(families)[d.familyId].currentGeneration == d.expectedGeneration)
    {
      RotateSwaps(Tables(), d);
      var advanced := 0;
      var fs, rs, ss := families, rotations, sessions;
      if d.familyId in fs && fs[d.familyId].status.FamilyActive?
         && fs[d.familyId].currentGeneration == d.expectedGeneration {
        fs := fs[d.familyId := fs[d.familyId].(currentGeneration := d.nextGeneration, expiresAt := d.nextExpiresAt,
                                               tenantId := d.tenantId)];
        advanced := 1;
      }
      if advanced == 0 {
        return Lost;
      }
      if d.previousJti !in rs {
        return Aborted;
      }
      rs := rs[d.previousJti := rs[d.previousJti].(status := RotationUsed, usedAt := Some(d.rotatedAt),
                                                   replacedAt := Some(d.rotatedAt))];
      var taken := IsGenerationTaken(d.familyId, d.nextGeneration);
      if d.nextJti in rs || taken {
        return Aborted;
      }
      rs := rs[d.nextJti := Rotation(d.familyId, d.nextGeneration, Some(d.previousJti), RotationActive,
                                     d.nextExpiresAt, None, None, None)];
      if d.familyId in ss && ss[d.familyId].status.SessionActive? {
        ss := ss[d.familyId := SeenSession(ss[d.familyId], d)];
      }
      families, rotations, sessions := fs, rs, ss;
      return Won;
    }

    method RevokeRefreshTokenFamily(fid: FamilyId, reason: Reason, at: Time, replayed: Option<Jti>,
                                    actor: Option<UserId>) returns (ok: bool)
      modifies this
      ensures var after := Revoke(old(Tables()), fid, reason, at, replayed, actor);
              ok == after.Some? && Tables() == if ok then after.value else old(Tables())
      ensures ok <==> replayed == None || replayed.value in old(rotations)
      ensures ok ==> RevokedRows(old(Tables()), Tables(), fid, reason, at, replayed, actor)
    {
      if replayed == None || replayed.value in rotations {
        RevokeRevokes(Tables(), fid, reason, at, replayed, actor);
      }
      hide RevokedRows;
      var fs, rs, ss := families, rotations, sessions;
      if fid in fs && fs[fid].status.FamilyActive? {
        fs := fs[fid := fs[fid].(status := FamilyRevoked, revokedAt := Some(at), revokedReason := Some(reason))];
      }
      rs := map j | j in rs :: RevokedRotation(rs[j], fid);
      if replayed.Some? {
        if replayed.value !in rs {
          return false;
        }
        rs := rs[replayed.value := rs[replayed.value].(status := RotationReplayed, replayedAt := Some(at))];
      }
      if fid in ss && ss[fid].status.SessionActive? {
        var s := ss[fid].(status := SessionRevoked, revokedAt := Some(at), revokeReason := Some(reason));
        if actor.Some? {
          s := s.(revokedBy := actor);
        }
        ss := ss[fid := s];
      }
      families, rotations, sessions := fs, rs, ss;
      return true;
    }

    method ExpireRefreshTokenFamily(fid: FamilyId)
      modifies this
      ensures Tables() == Expire(old(Tables()), fid)
      ensures ExpiredRows(old(Tables()), Tables(), fid)
    {
      ExpireExpires(Tables(), fid);
      if fid in families && families[fid].status.FamilyActive? {
        families := families[fid := families[fid].(status := FamilyExpired, revokedReason := Some(ExpiredReason))];
      }
      if fid in sessions && sessions[fid].status.SessionActive? {
        sessions := sessions[fid := sessions[fid].(status := SessionExpired, revokeReason := Some(ExpiredReason))];
      }
    }

    method TouchUserSession(fid: FamilyId, at: Time, context: Context, access: Option<Jti>, accessExp: Option<Time>)
      returns (count: nat)
      modifies this
      ensures Tables() == Touch(old(Tables()), fid, at, context, access, accessExp)
      ensures TouchedRows(old(Tables()), Tables(), fid, at, context, access, accessExp)
      ensures count == if fid in old(sessions) && old(sessions)[fid].status.SessionActive? then 1 else 0
    {
      TouchTouches(Tables(), fid, at, context, access, accessExp);
      hide TouchedRows;
      count := 0;
      if fid in sessions && sessions[fid].status.SessionActive? {
        var s := sessions[fid];
        s := s.(lastSeenAt := at, context := Context(context.os, context.client, s.context.ip, s.context.userAgent));
        if context.ip.Some? { s := s.(context := s.context.(ip := context.ip)); }
        if context.userAgent.Some? { s := s.(context := s.context.(userAgent := context.userAgent)); }
        if access.Some? { s := s.(currentAccessJti := access); }
        if accessExp.Some? { s := s.(currentAccessExpiresAt := accessExp); }
        sessions := sessions[fid := s];
        count := 1;
      }
    }
  }
}
