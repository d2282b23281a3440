/** The calls of AuthService that run from start to end, on the tables and the blacklist they update. */
module AuthServiceModule {
  import opened Options
  import opened AuthEffects
  import opened AuthModel
  import opened AuthInvariants
  import opened AuthRepositoryModule
  import opened AuthRevocation
  import opened TokenBlacklist
  import AuthBlacklistRuns
  import AuthRuns

  datatype AuthError =
    | InvalidToken | TokenRevoked | MissingClaims | WrongSubject
    | RotationNotFound | WrongGeneration | FamilyIsRevoked | FamilyIsExpired | NoAccess | ReplayFound | DatabaseError
    | NotImpersonating

  datatype RefreshResult = Tokens(next: Jti) | Failed(error: AuthError)
  datatype LogoutResult = LoggedOut | NotLoggedOut(reason: AuthError)

  datatype TokenType = AccessToken | RefreshToken

  /** Claims as a caller holds them: any of them may be missing. */
  datatype Payload = Payload(sub: UserId, jti: Option<Jti>, exp: Option<int>, tokenType: Option<TokenType>,
                             family: Option<FamilyId>, generation: Option<nat>)

  /** `stripTokenMetaClaims`, then a new jti and expiry: what an access token carries. */
  function IssuedAccess(payload: Payload, jti: Jti, exp: int): Payload {
    payload.(jti := Some(jti), exp := Some(exp), tokenType := Some(AccessToken), family := None, generation := None)
  }

  /** An `exp` that passes `!payload.exp`: present, and not zero. */
  predicate Truthy(exp: Option<int>) {
    exp.Some? && exp.value != 0
  }

  /** Signature and time; a token without `exp` never runs out. */
  predicate InTime(claims: Payload, signed: bool, now: Time) {
    signed && (claims.exp.Some? ==> WithinExpiry(claims.exp.value, now))
  }

  /** What `verifyToken` lets through. */
  predicate Accepted(store: map<Jti, Time>, claims: Payload, expected: TokenType, signed: bool, now: Time, redisUp: bool) {
    InTime(claims, signed, now) && claims.tokenType == Some(expected)
    && !(claims.jti.Some? && redisUp && Blacklisted(store, claims.jti.value, now))
  }

  /** The row a payload names, in the family it names. */
  predicate Names(db: Db, claims: Payload) {
    && claims.jti.Some? && claims.family.Some? && claims.generation.Some?
    && claims.jti.value in db.rotations && claims.family.value in db.families
    && db.rotations[claims.jti.value].familyId == claims.family.value
    && db.rotations[claims.jti.value].generation == claims.generation.value
  }

  function SnapshotFor(db: Db, claims: Payload): Snapshot
    requires Names(db, claims)
  {
    Snapshot(claims.jti.value, db.rotations[claims.jti.value], db.families[claims.family.value])
  }

  predicate Unexpired(snap: Snapshot, now: Time) {
    now < snap.rotation.expiresAt && now < snap.family.expiresAt
  }

  /** An entry ends with the token's `exp`, and in one second at the earliest; less than a second later at the most. */
  predicate LastsUntil(until: Time, exp: int, now: Time) {
    1000 * exp <= until && now + 1000 <= until && (until < 1000 * exp + 1000 || until < now + 2000)
  }

  function SwapOf(snap: Snapshot, next: Jti, nextExpiresAt: Time, now: Time, tenant: TenantId, accessJti: Jti,
                  accessExpiresAt: Time, ctx: Context): RotateInput
  {
    RotateInput(snap.rotation.familyId, snap.rotation.generation, snap.jti, next, nextExpiresAt,
                snap.rotation.generation + 1, now, tenant, accessJti, accessExpiresAt, ctx)
  }

  /** What answering a replay does to the tables. */
  function Replayed(db: Db, snap: Snapshot, now: Time): Db
    requires snap.jti in db.rotations
  {
    Revoke(db, snap.rotation.familyId, ReplayDetected, now, Some(snap.jti), None).value
  }

  function ErrorOf(check: CheckResult): Option<AuthError> {
    match check
    case GenerationMismatch => Some(WrongGeneration)
    case AlreadyRevoked => Some(FamilyIsRevoked)
    case AlreadyExpired => Some(FamilyIsExpired)
    case Replay => Some(ReplayFound)
    case Current => None
  }

  /** The tables after `revokeImpersonationTokens`. */
  function AfterRevocation(db: Db, caller: Payload, actor: Option<UserId>, now: Time): Db {
    if caller.family.Some? then Revoke(db, caller.family.value, ImpersonationEnded, now, None, actor).value else db
  }

  /** Every row of the first is in the second, unchanged. */
  ghost predicate RowsKept(a: Db, b: Db) {
    && (forall f :: f in a.families ==> f in b.families && b.families[f] == a.families[f])
    && (forall j :: j in a.rotations ==> j in b.rotations && b.rotations[j] == a.rotations[j])
    && (forall f :: f in a.sessions ==> f in b.sessions && b.sessions[f] == a.sessions[f])
  }

  ghost predicate ImpersonationRevoked(a: Db, b: Db, caller: Payload, actor: Option<UserId>, now: Time) {
    if caller.family.Some? then RevokedRows(a, b, caller.family.value, ImpersonationEnded, now, None, actor) else b == a
  }

  lemma RevocationIsRevoked(db: Db, caller: Payload, actor: Option<UserId>, now: Time)
    ensures ImpersonationRevoked(db, AfterRevocation(db, caller, actor, now), caller, actor, now)
  {
    if caller.family.Some? {
      RevokeRevokes(db, caller.family.value, ImpersonationEnded, now, None, actor);
    }
    hide RevokedRows, Revoke;
  }

  lemma NothingLost(db: Db)
    ensures RowsKept(db, db)
  {
  }

  lemma RevocationKeepsLinks(db: Db, caller: Payload, actor: Option<UserId>, now: Time)
    requires RowsLinked(db)
    ensures RowsLinked(AfterRevocation(db, caller, actor, now))
  {
  }

  /**
   A token of either kind that Redis came to cover is not accepted before its `exp`, in any later
   state of any run in which Redis can be reached.
   */
  lemma BlacklistedIsRefused(r: AuthRuns.Run, i: nat, k: nat, claims: Payload, expected: TokenType, signed: bool)
    requires AuthRuns.IsRun(r) && i <= k < |r.states| && claims.jti.Some? && claims.exp.Some?
    requires AuthBlacklistRuns.Covered(r.states[i], claims.jti.value, claims.exp.value)
    requires AuthBlacklistRuns.ExpiresAt(r.states[k], claims.jti.value, claims.exp.value)
    requires forall n :: i <= n < k ==>
               AuthBlacklistRuns.HonestEntry(r.states[n], r.events[n], claims.jti.value, claims.exp.value)
    ensures r.states[k].redisUp && r.states[k].now < 1000 * claims.exp.value ==>
              !Accepted(r.states[k].redis, claims, expected, signed, r.states[k].now, true)
  {
    AuthBlacklistRuns.StaysBlacklisted(r, i, k, claims.jti.value, claims.exp.value);
  }

  lemma ReplayedIsClosed(db: Db, snap: Snapshot, now: Time)
    requires snap.jti in db.rotations && snap.rotation.familyId in db.families
    ensures FamilyClosed(Replayed(db, snap, now), snap.rotation.familyId)
    ensures var after := Replayed(db, snap, now);
            snap.jti in after.rotations && after.rotations[snap.jti].status.RotationReplayed?
  {
  }

  class AuthService {
    const repository: AuthRepository
    const blacklist: TokenBlacklistService

    constructor (repository: AuthRepository, blacklist: TokenBlacklistService)
      ensures this.repository == repository && this.blacklist == blacklist
    {
      this.repository := repository;
      this.blacklist := blacklist;
    }

    ghost function Stored(): Store
      reads this, repository, blacklist
    {
      Store(repository.Tables(), blacklist.store)
    }

    /**
     Sign-in, undisturbed: three writes, one after the other. A family id that is taken leaves the
     tables alone; a jti that is taken leaves a family without a rotation behind.
     */
    method IssueSession(fid: FamilyId, jti: Jti, expiresAt: Time, user: UserId, tenant: TenantId, ctx: Context,
                        accessJti: Jti, accessExpiresAt: Time, now: Time) returns (ok: bool)
      requires RowsLinked(repository.Tables())
      modifies repository
      ensures var db := old(repository.Tables());
              var after := repository.Tables();
              && (ok <==> fid !in db.families && jti !in db.rotations)
              && (ok ==>
                    && after.families == db.families[fid := Family(user, tenant, 0, FamilyActive, expiresAt, None, None)]
                    && after.rotations == db.rotations[jti := Rotation(fid, 0, None, RotationActive, expiresAt, None, None, None)]
                    && Chain(after, fid, [jti]) && HasStatus(after, jti, RotationActive)
                    && after.sessions == db.sessions[fid := Session(user, tenant, SessionActive, ctx, Some(accessJti),
                                                                    Some(accessExpiresAt), now, now, None, None, None)])
              && (!ok ==> after == if fid in db.families then db
                                   else CreateFamily(db, fid, user, tenant, 0, expiresAt).value)
              && RowsKept(db, after)
    {
      ok := repository.CreateRefreshTokenFamily(fid, user, tenant, 0, expiresAt);
      if !ok {
        return;
      }
      ok := repository.CreateRefreshTokenRotation(fid, 0, jti, expiresAt, None);
      if !ok {
        return;
      }
      ok := repository.CreateUserSession(fid, user, tenant, ctx, accessJti, accessExpiresAt, now);
    }

    /** One pass over the targets, pushing one or two tasks for each. */
    method BuildRevocationTasks(targets: seq<Target>, reason: Reason, now: Time, actor: Option<UserId>)
      returns (tasks: seq<Task>)
      ensures tasks == AllTasks(targets, reason, now, actor)
    {
      tasks := [];
      for i := 0 to |targets|
        invariant tasks == AllTasks(targets[..i], reason, now, actor)
      {
        var target := targets[i];
        assert targets[..i + 1][..i] == targets[..i];
        if target.accessJti.Some? && target.accessExpiresAt.Some? {
          tasks := tasks + [BlacklistTask(target.accessJti.value,
                                          RemainingTtlFromDate(target.accessExpiresAt.value, now))];
        }
        tasks := tasks + [RevokeTask(target.familyId, reason, now, actor)];
        assert tasks == AllTasks(targets[..i], reason, now, actor) + TasksFor(target, reason, now, actor);
      }
      assert targets[..|targets|] == targets;
    }

    method Perform(task: Task, now: Time, redisUp: bool)
      modifies repository, blacklist
      ensures Stored() == RunTask(old(Stored()), task, now, redisUp)
    {
      match task {
        case BlacklistTask(jti, ttl) => blacklist.Blacklist(jti, ttl, now, redisUp);
        case RevokeTask(fid, reason, at, actor) =>
          var _ := repository.RevokeRefreshTokenFamily(fid, reason, at, None, actor);
      }
    }

    method PerformAll(tasks: seq<Task>, now: Time, redisUp: bool)
      modifies repository, blacklist
      ensures Stored() == RunTasks(old(Stored()), tasks, now, redisUp)
    {
      for i := 0 to |tasks|
        invariant Stored() == RunTasks(old(Stored()), tasks[..i], now, redisUp)
      {
        Perform(tasks[i], now, redisUp);
        assert tasks[..i + 1][..i] == tasks[..i];
      }
      assert tasks[..|tasks|] == tasks;
    }

    /** No target family or its session is left active, and no other family is touched. */
    method RevokeSessionTargets(targets: seq<Target>, reason: Reason, now: Time, actor: Option<UserId>, redisUp: bool)
      returns (count: nat)
      modifies repository, blacklist
      ensures count == |targets|
      ensures Stored() == RunTasks(old(Stored()), AllTasks(targets, reason, now, actor), now, redisUp)
      ensures forall f :: Targeted(targets, f) ==>
                RevokedAs(old(repository.Tables()), repository.Tables(), f, reason, now, actor)
      ensures forall f :: Targeted(targets, f) && f in old(repository.families) ==>
                FamilyClosed(repository.Tables(), f)
      ensures forall f :: !Targeted(targets, f) ==> FamilyUntouched(old(repository.Tables()), repository.Tables(), f)
      ensures redisUp ==> forall i :: 0 <= i < |targets| && targets[i].accessJti.Some?
                                      && targets[i].accessExpiresAt.Some? ==>
                && targets[i].accessJti.value in blacklist.store && now < blacklist.store[targets[i].accessJti.value]
                && CoversTarget(targets, targets[i].accessJti.value, now, blacklist.store[targets[i].accessJti.value])
      ensures !redisUp ==> blacklist.store == old(blacklist.store)
    {
      ghost var before := Stored();
      var tasks := BuildRevocationTasks(targets, reason, now, actor);
      PerformAll(tasks, now, redisUp);
      if !redisUp { NothingBlacklisted(before, tasks, now); }
      hide RunTasks, AllTasks, FamilyClosed, FamilyUntouched, Targeted, RevokedAs;
      forall f
        ensures Targeted(targets, f) ==> RevokedAs(before.db, repository.Tables(), f, reason, now, actor)
        ensures Targeted(targets, f) && f in before.db.families ==> FamilyClosed(repository.Tables(), f)
        ensures !Targeted(targets, f) ==> FamilyUntouched(before.db, repository.Tables(), f)
      {
        RevokeTargetsInAnyOrder(before, targets, reason, now, actor, tasks, redisUp, f);
        if Targeted(targets, f) {
          TargetsRevokedAs(before, targets, reason, now, actor, tasks, redisUp, f);
        }
      }
      if redisUp {
        forall i | 0 <= i < |targets| && targets[i].accessJti.Some? && targets[i].accessExpiresAt.Some?
          ensures targets[i].accessJti.value in blacklist.store && now < blacklist.store[targets[i].accessJti.value]
          ensures CoversTarget(targets, targets[i].accessJti.value, now, blacklist.store[targets[i].accessJti.value])
        {
          RevokeTargetsBlacklist(before, targets, reason, now, actor, tasks, i);
        }
      }
      return |targets|;
    }

    /** Signature and time, then the type, then the blacklist. */
    method VerifyToken(claims: Payload, expected: TokenType, signed: bool, now: Time, redisUp: bool)
      returns (error: Option<AuthError>)
      ensures error.None? <==> Accepted(blacklist.store, claims, expected, signed, now, redisUp)
      ensures error.None? <==>
                && signed && claims.tokenType == Some(expected)
                && (claims.exp.Some? ==> now < 1000 * (claims.exp.value + 30))
                && !(redisUp && claims.jti.Some? && claims.jti.value in blacklist.store
                     && now < blacklist.store[claims.jti.value])
      ensures error == Some(InvalidToken) <==>
                !(signed && claims.tokenType == Some(expected) && (claims.exp.Some? ==> now < 1000 * (claims.exp.value + 30)))
      ensures error.Some? ==> error.value == InvalidToken || error.value == TokenRevoked
    {
      if !signed || (claims.exp.Some? && !WithinExpiry(claims.exp.value, now)) {
        return Some(InvalidToken);
      }
      if claims.tokenType != Some(expected) {
        return Some(InvalidToken);
      }
      if claims.jti.Some? {
        var found := blacklist.IsBlacklisted(claims.jti.value, now, redisUp);
        if found {
          return Some(TokenRevoked);
        }
      }
      return None;
    }

    /**
     Logging out either changes nothing, or closes the refresh token's family and blacklists both
     tokens until they end; no other family and no other blacklist entry changes.
     */
    method PerformLogout(access: Option<Payload>, refresh: Payload, signed: bool, now: Time, redisUp: bool)
      returns (result: LogoutResult)
      modifies repository, blacklist
      ensures result.LoggedOut? <==>
                && access.Some? && access.value.jti.Some? && Truthy(access.value.exp)
                && Accepted(old(blacklist.store), refresh, RefreshToken, signed, now, redisUp)
                && access.value.sub == refresh.sub && refresh.jti.Some? && Truthy(refresh.exp)
      ensures result.LoggedOut? ==>
        && signed && refresh.tokenType == Some(RefreshToken) && now < 1000 * (refresh.exp.value + 30)
        && access.value.exp.value != 0 && refresh.exp.value != 0
        && (refresh.family.Some? ==>
              RevokedRows(old(repository.Tables()), repository.Tables(), refresh.family.value, Logout, now, None,
                          Some(access.value.sub)))
      ensures result.NotLoggedOut? ==> Stored() == old(Stored())
      ensures result.LoggedOut? ==>
        repository.Tables() ==
        if refresh.family.Some?
        then Revoke(old(repository.Tables()), refresh.family.value, Logout, now, None, Some(access.value.sub)).value
        else old(repository.Tables())
      ensures result.LoggedOut? ==>
        forall j :: Some(j) != access.value.jti && Some(j) != refresh.jti ==>
          (j in blacklist.store <==> j in old(blacklist.store))
          && (j in blacklist.store ==> blacklist.store[j] == old(blacklist.store)[j])
      ensures result.LoggedOut? ==>
        && (refresh.family.Some? && refresh.family.value in old(repository.families) ==>
              FamilyClosed(repository.Tables(), refresh.family.value))
        && (forall f: FamilyId :: refresh.family != Some(f) ==> FamilyUntouched(old(repository.Tables()), repository.Tables(), f))
        && (redisUp ==>
              && access.value.jti.value in blacklist.store && now < blacklist.store[access.value.jti.value]
              && refresh.jti.value in blacklist.store
              && LastsUntil(blacklist.store[refresh.jti.value], refresh.exp.value, now)
              && (access.value.jti != refresh.jti ==>
                    LastsUntil(blacklist.store[access.value.jti.value], access.value.exp.value, now)))
    {
      if access.None? || access.value.jti.None? || !Truthy(access.value.exp) {
        return NotLoggedOut(MissingClaims);
      }
      var error := VerifyToken(refresh, RefreshToken, signed, now, redisUp);
      if error.Some? {
        return NotLoggedOut(error.value);
      }
      if refresh.sub != access.value.sub {
        return NotLoggedOut(WrongSubject);
      }
      if refresh.jti.None? || !Truthy(refresh.exp) {
        return NotLoggedOut(MissingClaims);
      }
      blacklist.Blacklist(access.value.jti.value, RemainingTtl(access.value.exp.value, now), now, redisUp);
      blacklist.Blacklist(refresh.jti.value, RemainingTtl(refresh.exp.value, now), now, redisUp);
      EntryCoversToken(access.value.exp.value, now);
      EntryCoversToken(refresh.exp.value, now);
      ghost var before := repository.Tables();
      if refresh.family.Some? {
        var fid := refresh.family.value;
        var _ := repository.RevokeRefreshTokenFamily(fid, Logout, now, None, Some(access.value.sub));
        forall f
          ensures f == fid && f in before.families ==> FamilyClosed(repository.Tables(), f)
          ensures f != fid ==> FamilyUntouched(before, repository.Tables(), f)
        {
          RevokeEffect(before, fid, Logout, now, Some(access.value.sub), f);
        }
      }
      return LoggedOut;
    }

    /** `revokeImpersonationTokens`: blacklists the caller's token; revokes only a family the token names. */
    method RevokeImpersonationTokens(caller: Payload, actor: Option<UserId>, now: Time, redisUp: bool)
      modifies repository, blacklist
      ensures repository.Tables() == AfterRevocation(old(repository.Tables()), caller, actor, now)
      ensures caller.family.Some? ==>
                RevokedRows(old(repository.Tables()), repository.Tables(), caller.family.value, ImpersonationEnded, now, None,
                            actor)
      ensures redisUp && caller.jti.Some? && caller.exp.Some? && caller.exp.value != 0 ==>
                && caller.jti.value in blacklist.store
                && LastsUntil(blacklist.store[caller.jti.value], caller.exp.value, now)
      ensures forall j :: Some(j) != caller.jti ==>
                (j in blacklist.store <==> j in old(blacklist.store))
                && (j in blacklist.store ==> blacklist.store[j] == old(blacklist.store)[j])
    {
      if caller.exp.Some? { EntryCoversToken(caller.exp.value, now); }
      if caller.jti.Some? && Truthy(caller.exp) {
        blacklist.Blacklist(caller.jti.value, RemainingTtl(caller.exp.value, now), now, redisUp);
      }
      if caller.family.Some? {
        var _ := repository.RevokeRefreshTokenFamily(caller.family.value, ImpersonationEnded, now, None, actor);
      }
    }

    /**
     The whole of `endImpersonation`: revoke, find the administrator (whose membership may be gone), then
     open a session. What was revoked stays revoked when a later part fails.
     */
    method EndImpersonation(caller: Payload, impersonator: Option<UserId>, adminTenant: Option<TenantId>,
                            fid: FamilyId, jti: Jti, expiresAt: Time, ctx: Context, accessJti: Jti,
                            accessExpiresAt: Time, now: Time, redisUp: bool) returns (error: Option<AuthError>)
      requires RowsLinked(repository.Tables())
      modifies repository, blacklist
      ensures error == Some(NotImpersonating) <==> impersonator.None?
      ensures error == Some(NotImpersonating) ==> Stored() == old(Stored())
      ensures impersonator.Some? ==>
                var revoked := AfterRevocation(old(repository.Tables()), caller, impersonator, now);
                && ImpersonationRevoked(old(repository.Tables()), revoked, caller, impersonator, now)
                && (error.None? <==> adminTenant.Some? && fid !in revoked.families && jti !in revoked.rotations)
                && (adminTenant.None? ==> repository.Tables() == revoked)
                && RowsKept(revoked, repository.Tables())
                && (error.None? ==>
                      && fid in repository.families
                      && repository.families[fid] == Family(impersonator.value, adminTenant.value, 0, FamilyActive, expiresAt,
                                                            None, None)
                      && Chain(repository.Tables(), fid, [jti]) && IsActive(repository.Tables(), fid)
                      && fid in repository.sessions && repository.sessions[fid].status.SessionActive?)
    {
      hide AfterRevocation, ImpersonationRevoked, RevokedRows, Revoke, RowsKept, RowsLinked, CreateFamily;
      if impersonator.None? {
        return Some(NotImpersonating);
      }
      RevokeImpersonationTokens(caller, impersonator, now, redisUp);
      RevocationKeepsLinks(old(repository.Tables()), caller, impersonator, now);
      RevocationIsRevoked(old(repository.Tables()), caller, impersonator, now);
      if adminTenant.None? {
        NothingLost(repository.Tables());
        return Some(NoAccess);
      }
      var ok := IssueSession(fid, jti, expiresAt, impersonator.value, adminTenant.value, ctx, accessJti, accessExpiresAt, now);
      if !ok {
        return Some(DatabaseError);
      }
      return None;
    }

    /**
     Ended with an access token this service issued, an impersonation leaves every row there was,
     its own refresh family and session included, exactly as it was.
     */
    method EndImpersonationWithIssuedToken(payload: Payload, issuedJti: Jti, issuedExp: int, impersonator: Option<UserId>,
                                           adminTenant: Option<TenantId>, fid: FamilyId, jti: Jti, expiresAt: Time,
                                           ctx: Context, accessJti: Jti, accessExpiresAt: Time, now: Time, redisUp: bool)
      returns (error: Option<AuthError>)
      requires RowsLinked(repository.Tables())
      modifies repository, blacklist
      ensures RowsKept(old(repository.Tables()), repository.Tables())
      ensures forall f :: IsActive(old(repository.Tables()), f) ==> IsActive(repository.Tables(), f)
    {
      error := EndImpersonation(IssuedAccess(payload, issuedJti, issuedExp), impersonator, adminTenant, fid, jti, expiresAt,
                                ctx, accessJti, accessExpiresAt, now, redisUp);
    }

    method HandleRefreshReplay(snap: Snapshot, now: Time)
      requires snap.jti in repository.rotations
      modifies repository
      ensures repository.Tables() == Replayed(old(repository.Tables()), snap, now)
      ensures RevokedRows(old(repository.Tables()), repository.Tables(), snap.rotation.familyId, ReplayDetected, now,
                          Some(snap.jti), None)
    {
      var _ := repository.RevokeRefreshTokenFamily(snap.rotation.familyId, ReplayDetected, now, Some(snap.jti), None);
    }

    /** The checks on what the lookup returned; the expiry it may start has run when this returns. */
    method AssertRefreshRotationCurrent(claims: Payload, snap: Snapshot, now: Time) returns (error: Option<AuthError>)
      requires snap.jti in repository.rotations && claims.generation.Some?
      modifies repository
      ensures error.None? <==>
                && claims.generation.value == snap.rotation.generation
                && snap.family.status.FamilyActive? && Unexpired(snap, now) && IsCurrent(snap)
      ensures error == Some(ReplayFound) <==>
                && claims.generation.value == snap.rotation.generation
                && snap.family.status.FamilyActive? && Unexpired(snap, now) && !IsCurrent(snap)
      ensures error == Some(FamilyIsExpired) <==>
                && claims.generation.value == snap.rotation.generation
                && (snap.family.status.FamilyExpired? || (snap.family.status.FamilyActive? && !Unexpired(snap, now)))
      ensures error == Some(WrongGeneration) <==> claims.generation.value != snap.rotation.generation
      ensures error == Some(FamilyIsRevoked) <==>
                claims.generation.value == snap.rotation.generation && snap.family.status == FamilyRevoked
      ensures error.None? ==>
                && snap.rotation.status == RotationActive && snap.rotation.generation == snap.family.currentGeneration
                && snap.family.status == FamilyActive && now < snap.rotation.expiresAt && now < snap.family.expiresAt
      ensures error == Some(ReplayFound) ==>
                && (snap.rotation.status != RotationActive || snap.rotation.generation != snap.family.currentGeneration)
                && snap.family.status == FamilyActive && now < snap.rotation.expiresAt && now < snap.family.expiresAt
                && RevokedRows(old(repository.Tables()), repository.Tables(), snap.rotation.familyId, ReplayDetected, now,
                               Some(snap.jti), None)
      ensures error == Some(FamilyIsExpired) ==>
                && (snap.family.status == FamilyExpired || snap.rotation.expiresAt <= now || snap.family.expiresAt <= now)
                && ExpiredRows(old(repository.Tables()), repository.Tables(), snap.rotation.familyId)
      ensures error == ErrorOf(CheckRotation(Claims(snap.jti, snap.rotation.familyId, claims.generation.value, 0), snap, now))
      ensures repository.Tables() ==
              if error == Some(ReplayFound) then Replayed(old(repository.Tables()), snap, now)
              else if error == Some(FamilyIsExpired) then Expire(old(repository.Tables()), snap.rotation.familyId)
              else old(repository.Tables())
    {
      if claims.generation.value != snap.rotation.generation {
        return Some(WrongGeneration);
      }
      if snap.family.status.FamilyRevoked? {
        return Some(FamilyIsRevoked);
      }
      if snap.family.status.FamilyExpired? || snap.rotation.expiresAt <= now || snap.family.expiresAt <= now {
        repository.ExpireRefreshTokenFamily(snap.rotation.familyId);
        return Some(FamilyIsExpired);
      }
      if !snap.rotation.status.RotationActive? || snap.rotation.generation != snap.family.currentGeneration {
        HandleRefreshReplay(snap, now);
        return Some(ReplayFound);
      }
      return None;
    }

    /** The swap, from whatever the tables have become since the lookup; losing it is a replay. */
    method PersistRotation(snap: Snapshot, next: Jti, nextExpiresAt: Time, now: Time, tenant: TenantId, accessJti: Jti,
                           accessExpiresAt: Time, ctx: Context) returns (error: Option<AuthError>)
      requires snap.jti in repository.rotations
      modifies repository
      ensures error == None ==>
                Swapped(old(repository.Tables()), repository.Tables(),
                        RotateInput(snap.rotation.familyId, snap.rotation.generation, snap.jti, next, nextExpiresAt,
                                    snap.rotation.generation + 1, now, tenant, accessJti, accessExpiresAt, ctx))
      ensures error == Some(ReplayFound) ==>
                && RevokedRows(old(repository.Tables()), repository.Tables(), snap.rotation.familyId, ReplayDetected, now,
                               Some(snap.jti), None)
                && !(IsActive(old(repository.Tables()), snap.rotation.familyId)
                     && old(repository.families)[snap.rotation.familyId].currentGeneration == snap.rotation.generation)
      ensures error == Some(DatabaseError) ==>
                next in old(repository.rotations)
                || GenerationTaken(old(repository.Tables()), snap.rotation.familyId, snap.rotation.generation + 1)
      ensures error.Some? ==> error.value == ReplayFound || error.value == DatabaseError
      ensures var d := SwapOf(snap, next, nextExpiresAt, now, tenant, accessJti, accessExpiresAt, ctx);
              match Rotate(old(repository.Tables()), d).1
              case Won => error == None && repository.Tables() == Rotate(old(repository.Tables()), d).0
              case Lost => error == Some(ReplayFound) && repository.Tables() == Replayed(old(repository.Tables()), snap, now)
              case Aborted => error == Some(DatabaseError) && repository.Tables() == old(repository.Tables())
    {
      RotateAborts(repository.Tables(), SwapOf(snap, next, nextExpiresAt, now, tenant, accessJti, accessExpiresAt, ctx));
      hide Swapped, RevokedRows;
      var outcome := repository.RotateRefreshTokenFamily(SwapOf(snap, next, nextExpiresAt, now, tenant, accessJti,
                                                                accessExpiresAt, ctx));
      match outcome {
        case Won => return None;
        case Lost =>
          HandleRefreshReplay(snap, now);
          return Some(ReplayFound);
        case Aborted => return Some(DatabaseError);
      }
    }

    /**
     One refresh, undisturbed: verify, look the row up, check it, swap it, blacklist the old token.
     Tokens come out exactly when the row is the current one of an active, unexpired family and the
     new row's unique indexes are free; a stale row of such a family costs the family; every other
     refusal but an expiry leaves the tables alone.
     */
    method RefreshTokens(claims: Payload, signed: bool, hasAccess: bool, now: Time, redisUp: bool, next: Jti,
                         nextExpiresAt: Time, tenant: TenantId, accessJti: Jti, accessExpiresAt: Time, ctx: Context)
      returns (result: RefreshResult)
      modifies repository, blacklist
      ensures result.Tokens? || result == Failed(DatabaseError) <==>
                && Accepted(old(blacklist.store), claims, RefreshToken, signed, now, redisUp)
                && Names(old(repository.Tables()), claims)
                && var snap := SnapshotFor(old(repository.Tables()), claims);
                snap.family.status.FamilyActive? && Unexpired(snap, now) && IsCurrent(snap) && hasAccess
      ensures result == Failed(DatabaseError) ==>
                next in old(repository.rotations)
                || GenerationTaken(old(repository.Tables()), claims.family.value, claims.generation.value + 1)
      ensures result == Failed(ReplayFound) <==>
                && Accepted(old(blacklist.store), claims, RefreshToken, signed, now, redisUp)
                && Names(old(repository.Tables()), claims)
                && var snap := SnapshotFor(old(repository.Tables()), claims);
                snap.family.status.FamilyActive? && Unexpired(snap, now) && !IsCurrent(snap)
      ensures result == Failed(FamilyIsExpired) <==>
                && Accepted(old(blacklist.store), claims, RefreshToken, signed, now, redisUp)
                && Names(old(repository.Tables()), claims)
                && var snap := SnapshotFor(old(repository.Tables()), claims);
                snap.family.status.FamilyExpired? || (snap.family.status.FamilyActive? && !Unexpired(snap, now))
      ensures var db := old(repository.Tables());
              var after := repository.Tables();
              match result
              case Tokens(jti) =>
                var snap := SnapshotFor(db, claims);
                && jti == next
                && signed && claims.tokenType == Some(RefreshToken) && hasAccess
                && (claims.exp.Some? ==> now < 1000 * (claims.exp.value + 30))
                && snap.rotation.status == RotationActive && snap.family.status == FamilyActive
                && claims.generation.value == snap.rotation.generation == snap.family.currentGeneration
                && now < snap.rotation.expiresAt && now < snap.family.expiresAt
                && Swapped(db, after, RotateInput(claims.family.value, claims.generation.value, claims.jti.value, next,
                                                  nextExpiresAt, claims.generation.value + 1, now, tenant, accessJti,
                                                  accessExpiresAt, ctx))
                && after == Rotate(db, SwapOf(snap, next, nextExpiresAt, now, tenant, accessJti, accessExpiresAt, ctx)).0
                && (redisUp && claims.exp.Some? && claims.exp.value != 0 ==>
                      snap.jti in blacklist.store && LastsUntil(blacklist.store[snap.jti], claims.exp.value, now))
              case Failed(ReplayFound) =>
                && after == Replayed(db, SnapshotFor(db, claims), now)
                && RevokedRows(db, after, claims.family.value, ReplayDetected, now, Some(claims.jti.value), None)
                && FamilyClosed(after, claims.family.value)
                && after.rotations[claims.jti.value].status.RotationReplayed?
              case Failed(FamilyIsExpired) =>
                claims.family.Some? && after == Expire(db, claims.family.value)
                && ExpiredRows(db, after, claims.family.value)
              case Failed(_) => after == db
      ensures blacklist.store ==
              if result.Tokens? && redisUp && Truthy(claims.exp)
              then old(blacklist.store)[claims.jti.value := EntryExpiry(RemainingTtl(claims.exp.value, now), now)]
              else old(blacklist.store)
    {
      hide Swapped, RevokedRows, ExpiredRows, Rotate, Revoke, Expire, CheckRotation, FamilyClosed, EntryExpiry, RemainingTtl;
      if claims.exp.Some? { EntryCoversToken(claims.exp.value, now); }
      var error := VerifyToken(claims, RefreshToken, signed, now, redisUp);
      if error.Some? {
        return Failed(error.value);
      }
      if claims.jti.None? || claims.family.None? || claims.generation.None? {
        return Failed(MissingClaims);
      }
      var found := repository.FindRotationByHash(claims.jti.value);
      if found.None? || found.value.rotation.familyId != claims.family.value {
        return Failed(RotationNotFound);
      }
      var snap := found.value;
      ReplayedIsClosed(repository.Tables(), snap, now);
      error := AssertRefreshRotationCurrent(claims, snap, now);
      if error.Some? {
        return Failed(error.value);
      }
      if !hasAccess {
        return Failed(NoAccess);
      }
      error := PersistRotation(snap, next, nextExpiresAt, now, tenant, accessJti, accessExpiresAt, ctx);
      if error.Some? {
        return Failed(error.value);
      }
      if Truthy(claims.exp) {
        blacklist.Blacklist(snap.jti, RemainingTtl(claims.exp.value, now), now, redisUp);
      }
      return Tokens(next);
    }
  }
}
