/** Revoking many sessions at once, in whatever order the started tasks happen to run. */
module AuthRevocation {
  import opened Options
  import opened AuthEffects
  import opened AuthModel
  import TokenBlacklist

  datatype Target = Target(familyId: FamilyId, accessJti: Option<Jti>, accessExpiresAt: Option<Time>)

  datatype Task =
    | BlacklistTask(jti: Jti, ttl: int)
    | RevokeTask(fid: FamilyId, reason: Reason, at: Time, actor: Option<UserId>)

  /** Tables and blacklist together. */
  datatype Store = Store(db: Db, redis: map<Jti, Time>)

  function TasksFor(target: Target, reason: Reason, now: Time, actor: Option<UserId>): seq<Task> {
    (if target.accessJti.Some? && target.accessExpiresAt.Some?
     then [BlacklistTask(target.accessJti.value, RemainingTtlFromDate(target.accessExpiresAt.value, now))] else [])
    + [RevokeTask(target.familyId, reason, now, actor)]
  }

  function AllTasks(targets: seq<Target>, reason: Reason, now: Time, actor: Option<UserId>): seq<Task> {
    if targets == [] then []
    else AllTasks(targets[..|targets| - 1], reason, now, actor)
         + TasksFor(targets[|targets| - 1], reason, now, actor)
  }

  function RunTask(s: Store, task: Task, now: Time, redisUp: bool): Store {
    match task
    case BlacklistTask(jti, ttl) => if redisUp then s.(redis := s.redis[jti := EntryExpiry(ttl, now)]) else s
    case RevokeTask(fid, reason, at, actor) => s.(db := Revoke(s.db, fid, reason, at, None, actor).value)
  }

  function RunTasks(s: Store, tasks: seq<Task>, now: Time, redisUp: bool): Store {
    if tasks == [] then s
    else RunTask(RunTasks(s, tasks[..|tasks| - 1], now, redisUp), tasks[|tasks| - 1], now, redisUp)
  }

  ghost predicate FamilyClosed(db: Db, f: FamilyId) {
    && f in db.families && !db.families[f].status.FamilyActive?
    && (f in db.sessions ==> !db.sessions[f].status.SessionActive?)
  }

  /** Nothing of family f differs between the two states. */
  ghost predicate FamilyUntouched(a: Db, b: Db, f: FamilyId) {
    && (f in a.families <==> f in b.families) && (f in a.families ==> b.families[f] == a.families[f])
    && (f in a.sessions <==> f in b.sessions) && (f in a.sessions ==> b.sessions[f] == a.sessions[f])
    && (forall j :: j in b.rotations <==> j in a.rotations)
    && (forall j :: j in a.rotations && a.rotations[j].familyId == f ==> b.rotations[j] == a.rotations[j])
    && (forall j :: j in a.rotations ==> b.rotations[j].familyId == a.rotations[j].familyId)
  }

  ghost predicate Revokes(tasks: seq<Task>, f: FamilyId) {
    exists i :: 0 <= i < |tasks| && tasks[i].RevokeTask? && tasks[i].fid == f
  }

  lemma RevokeEffect(db: Db, fid: FamilyId, reason: Reason, at: Time, actor: Option<UserId>, f: FamilyId)
    ensures var after := Revoke(db, fid, reason, at, None, actor).value;
            && (f in db.families && (f == fid || FamilyClosed(db, f)) ==> FamilyClosed(after, f))
            && (f != fid ==> FamilyUntouched(db, after, f))
            && (f in after.families <==> f in db.families)
  {
  }

  /** After any tasks: exactly the families they name are closed, all others are as before. */
  lemma {:induction false} TasksClose(s: Store, tasks: seq<Task>, now: Time, redisUp: bool, f: FamilyId)
    ensures var after := RunTasks(s, tasks, now, redisUp);
            && (f in after.db.families <==> f in s.db.families)
            && (f in s.db.families && (Revokes(tasks, f) || FamilyClosed(s.db, f)) ==> FamilyClosed(after.db, f))
            && (!Revokes(tasks, f) ==> FamilyUntouched(s.db, after.db, f))
  {
    if tasks != [] {
      var last := tasks[|tasks| - 1];
      var before := RunTasks(s, tasks[..|tasks| - 1], now, redisUp);
      TasksClose(s, tasks[..|tasks| - 1], now, redisUp, f);
      if Revokes(tasks[..|tasks| - 1], f) {
        var i :| 0 <= i < |tasks| - 1 && tasks[..|tasks| - 1][i].RevokeTask? && tasks[..|tasks| - 1][i].fid == f;
        assert tasks[i].RevokeTask? && tasks[i].fid == f;
      }
      if last.RevokeTask? {
        assert last.fid == f ==> Revokes(tasks, f);
        RevokeEffect(before.db, last.fid, last.reason, last.at, last.actor, f);
        hide Revoke, FamilyClosed;
      }
    }
  }

  /** The entry a jti ends up with is the last one written for it; other keys are as before. */
  lemma {:induction false} TasksBlacklist(s: Store, tasks: seq<Task>, now: Time, jti: Jti)
    ensures var redis := RunTasks(s, tasks, now, true).redis;
            if exists i :: 0 <= i < |tasks| && tasks[i].BlacklistTask? && tasks[i].jti == jti then
              exists i :: 0 <= i < |tasks| && tasks[i].BlacklistTask? && tasks[i].jti == jti
                          && jti in redis && redis[jti] == EntryExpiry(tasks[i].ttl, now)
            else (jti in redis <==> jti in s.redis) && (jti in redis ==> redis[jti] == s.redis[jti])
  {
    if tasks != [] {
      var init := tasks[..|tasks| - 1];
      TasksBlacklist(s, init, now, jti);
      assert forall i :: 0 <= i < |init| ==> init[i] == tasks[i];
      var last := tasks[|tasks| - 1];
      if last.BlacklistTask? && last.jti == jti {
        assert tasks[|tasks| - 1].jti == jti;
      } else {
        hide Revoke;
        assert jti in RunTasks(s, tasks, now, true).redis <==> jti in RunTasks(s, init, now, true).redis;
      }
    }
  }

  /** A list of targets gives rise to tasks that name exactly its families, and blacklist exactly its access tokens. */
  lemma {:induction false} TasksOfTargets(targets: seq<Target>, reason: Reason, now: Time, actor: Option<UserId>, t: Task)
    ensures t in AllTasks(targets, reason, now, actor) <==>
            exists i :: 0 <= i < |targets| && t in TasksFor(targets[i], reason, now, actor)
  {
    if targets != [] {
      var init := targets[..|targets| - 1];
      TasksOfTargets(init, reason, now, actor, t);
      assert forall i :: 0 <= i < |init| ==> init[i] == targets[i];
      if t in TasksFor(targets[|targets| - 1], reason, now, actor) {
        assert t in AllTasks(targets, reason, now, actor);
      }
    }
  }

  ghost predicate Targeted(targets: seq<Target>, f: FamilyId) {
    exists i :: 0 <= i < |targets| && targets[i].familyId == f
  }

  lemma TargetsAreRevoked(targets: seq<Target>, reason: Reason, now: Time, actor: Option<UserId>, f: FamilyId)
    requires Targeted(targets, f)
    ensures RevokeTask(f, reason, now, actor) in AllTasks(targets, reason, now, actor)
  {
    var i :| 0 <= i < |targets| && targets[i].familyId == f;
    var own := TasksFor(targets[i], reason, now, actor);
    assert own[|own| - 1] == RevokeTask(f, reason, now, actor);
    TasksOfTargets(targets, reason, now, actor, RevokeTask(f, reason, now, actor));
  }

  lemma OnlyTargetsAreRevoked(targets: seq<Target>, reason: Reason, now: Time, actor: Option<UserId>, t: Task)
    requires t in AllTasks(targets, reason, now, actor) && t.RevokeTask?
    ensures Targeted(targets, t.fid)
  {
    TasksOfTargets(targets, reason, now, actor, t);
  }

  lemma RevokesExactlyTargets(targets: seq<Target>, reason: Reason, now: Time, actor: Option<UserId>,
                              order: seq<Task>, f: FamilyId)
    requires multiset(order) == multiset(AllTasks(targets, reason, now, actor))
    ensures Revokes(order, f) <==> Targeted(targets, f)
  {
    hide AllTasks, Targeted;
    SameElements(order, AllTasks(targets, reason, now, actor));
    if Targeted(targets, f) {
      TargetsAreRevoked(targets, reason, now, actor, f);
    }
    if Revokes(order, f) {
      var k :| 0 <= k < |order| && order[k].RevokeTask? && order[k].fid == f;
      OnlyTargetsAreRevoked(targets, reason, now, actor, order[k]);
    }
  }

  /**
   Duplicates included, and whatever the order the started tasks run in: every target family and its
   session end closed, and everything about any other family is unchanged.
   */
  lemma RevokeTargetsInAnyOrder(s: Store, targets: seq<Target>, reason: Reason, now: Time, actor: Option<UserId>,
                                order: seq<Task>, redisUp: bool, f: FamilyId)
    requires multiset(order) == multiset(AllTasks(targets, reason, now, actor))
    ensures var after := RunTasks(s, order, now, redisUp).db;
            && (Targeted(targets, f) && f in s.db.families ==> FamilyClosed(after, f))
            && (!Targeted(targets, f) ==> FamilyUntouched(s.db, after, f))
  {
    hide FamilyClosed, FamilyUntouched, RunTasks, AllTasks;
    TasksClose(s, order, now, redisUp, f);
    RevokesExactlyTargets(targets, reason, now, actor, order, f);
  }

  /** Every revocation among the tasks carries this reason, moment and actor. */
  ghost predicate SameOrder(tasks: seq<Task>, reason: Reason, at: Time, actor: Option<UserId>) {
    forall i :: 0 <= i < |tasks| && tasks[i].RevokeTask? ==>
      tasks[i].reason == reason && tasks[i].at == at && tasks[i].actor == actor
  }

  /** The rows of one family after its revocation, column by column; a family that was closed before stays as it was. */
  ghost predicate RevokedAs(a: Db, b: Db, f: FamilyId, reason: Reason, at: Time, actor: Option<UserId>) {
    && (f in a.families ==> f in b.families && FamilyRevokedBy(a.families[f], b.families[f], reason, at))
    && (f in a.sessions ==> f in b.sessions && SessionRevokedBy(a.sessions[f], b.sessions[f], reason, at, actor))
    && (forall j :: j in a.rotations && a.rotations[j].familyId == f ==>
          j in b.rotations && RotationSwept(a.rotations[j], b.rotations[j], f, false, at))
  }

  lemma RevokedOnce(a: Db, fid: FamilyId, reason: Reason, at: Time, actor: Option<UserId>)
    ensures RevokedAs(a, Revoke(a, fid, reason, at, None, actor).value, fid, reason, at, actor)
  {
    RevokeRevokes(a, fid, reason, at, None, actor);
    hide Revoke;
  }

  /** A second revocation, of this family or another, changes nothing more. */
  lemma RevokedAgain(a: Db, b: Db, f: FamilyId, fid: FamilyId, reason: Reason, at: Time, actor: Option<UserId>)
    requires RevokedAs(a, b, f, reason, at, actor)
    ensures RevokedAs(a, Revoke(b, fid, reason, at, None, actor).value, f, reason, at, actor)
  {
    RevokeRevokes(b, fid, reason, at, None, actor);
    hide Revoke;
  }

  lemma RevokedFirst(a: Db, b: Db, f: FamilyId, reason: Reason, at: Time, actor: Option<UserId>)
    requires FamilyUntouched(a, b, f)
    ensures RevokedAs(a, Revoke(b, f, reason, at, None, actor).value, f, reason, at, actor)
  {
    RevokedOnce(b, f, reason, at, actor);
    hide Revoke;
  }

  lemma {:induction false} TasksRevokeAs(s: Store, tasks: seq<Task>, now: Time, redisUp: bool, f: FamilyId,
                                         reason: Reason, at: Time, actor: Option<UserId>)
    requires SameOrder(tasks, reason, at, actor) && Revokes(tasks, f)
    ensures RevokedAs(s.db, RunTasks(s, tasks, now, redisUp).db, f, reason, at, actor)
  {
    var init, last := tasks[..|tasks| - 1], tasks[|tasks| - 1];
    var before := RunTasks(s, init, now, redisUp);
    assert forall i :: 0 <= i < |init| ==> init[i] == tasks[i];
    TasksClose(s, init, now, redisUp, f);
    if Revokes(init, f) {
      TasksRevokeAs(s, init, now, redisUp, f, reason, at, actor);
      if last.RevokeTask? {
        RevokedAgain(s.db, before.db, f, last.fid, reason, at, actor);
      }
    } else {
      var i :| 0 <= i < |tasks| && tasks[i].RevokeTask? && tasks[i].fid == f;
      assert i == |tasks| - 1;
      RevokedFirst(s.db, before.db, f, reason, at, actor);
    }
    hide Revoke, RevokedAs, FamilyClosed, FamilyUntouched;
  }

  /** In every order of the started tasks each target is revoked with the reason, moment and actor of the call. */
  lemma TargetsRevokedAs(s: Store, targets: seq<Target>, reason: Reason, now: Time, actor: Option<UserId>,
                         order: seq<Task>, redisUp: bool, f: FamilyId)
    requires multiset(order) == multiset(AllTasks(targets, reason, now, actor)) && Targeted(targets, f)
    ensures RevokedAs(s.db, RunTasks(s, order, now, redisUp).db, f, reason, now, actor)
  {
    hide RevokedAs, RunTasks, AllTasks;
    RevokesExactlyTargets(targets, reason, now, actor, order, f);
    SameElements(order, AllTasks(targets, reason, now, actor));
    forall i | 0 <= i < |order| && order[i].RevokeTask?
      ensures order[i].reason == reason && order[i].at == now && order[i].actor == actor
    {
      assert order[i] in order;
      TasksOfTargets(targets, reason, now, actor, order[i]);
    }
    TasksRevokeAs(s, order, now, redisUp, f, reason, now, actor);
  }

  lemma {:induction false} NothingBlacklisted(s: Store, tasks: seq<Task>, now: Time)
    ensures RunTasks(s, tasks, now, false).redis == s.redis
  {
    if tasks != [] { NothingBlacklisted(s, tasks[..|tasks| - 1], now); }
  }

  lemma SameElements(a: seq<Task>, b: seq<Task>)
    requires multiset(a) == multiset(b)
    ensures forall t :: t in a <==> t in b
  {
    forall t ensures t in a <==> t in b {
      assert t in multiset(a) <==> t in multiset(b);
    }
  }

  lemma OwnTokenIsTask(targets: seq<Target>, reason: Reason, now: Time, actor: Option<UserId>, i: nat)
    requires i < |targets| && targets[i].accessJti.Some? && targets[i].accessExpiresAt.Some?
    ensures BlacklistTask(targets[i].accessJti.value, RemainingTtlFromDate(targets[i].accessExpiresAt.value, now))
            in AllTasks(targets, reason, now, actor)
  {
    var own := BlacklistTask(targets[i].accessJti.value, RemainingTtlFromDate(targets[i].accessExpiresAt.value, now));
    assert TasksFor(targets[i], reason, now, actor)[0] == own;
    TasksOfTargets(targets, reason, now, actor, own);
  }

  /** `until` is the end of some target's copy of this access token, one second from now at the least, rounded up to seconds. */
  ghost predicate CoversTarget(targets: seq<Target>, jti: Jti, now: Time, until: Time) {
    exists k :: 0 <= k < |targets| && targets[k].accessJti == Some(jti) && targets[k].accessExpiresAt.Some?
                && targets[k].accessExpiresAt.value <= until && now + 1000 <= until
                && (until < targets[k].accessExpiresAt.value + 1000 || until < now + 2000)
  }

  lemma TaskCoversTarget(targets: seq<Target>, reason: Reason, now: Time, actor: Option<UserId>, t: Task)
    requires t in AllTasks(targets, reason, now, actor) && t.BlacklistTask?
    ensures CoversTarget(targets, t.jti, now, EntryExpiry(t.ttl, now))
  {
    TasksOfTargets(targets, reason, now, actor, t);
    var k :| 0 <= k < |targets| && t in TasksFor(targets[k], reason, now, actor);
    TokenBlacklist.EntryCoversDate(targets[k].accessExpiresAt.value, now);
  }

  /** With Redis reachable, every current access token of a target is refused from now until it ends. */
  lemma RevokeTargetsBlacklist(s: Store, targets: seq<Target>, reason: Reason, now: Time, actor: Option<UserId>,
                               order: seq<Task>, i: nat)
    requires multiset(order) == multiset(AllTasks(targets, reason, now, actor))
    requires i < |targets| && targets[i].accessJti.Some? && targets[i].accessExpiresAt.Some?
    ensures var redis := RunTasks(s, order, now, true).redis;
            var jti := targets[i].accessJti.value;
            jti in redis && now < redis[jti] && CoversTarget(targets, jti, now, redis[jti])
  {
    var jti := targets[i].accessJti.value;
    hide RunTasks, AllTasks, CoversTarget, TasksFor;
    SameElements(order, AllTasks(targets, reason, now, actor));
    OwnTokenIsTask(targets, reason, now, actor, i);
    var own := BlacklistTask(jti, RemainingTtlFromDate(targets[i].accessExpiresAt.value, now));
    assert own in order;
    var n :| 0 <= n < |order| && order[n] == own;
    TasksBlacklist(s, order, now, jti);
    var redis := RunTasks(s, order, now, true).redis;
    var m :| 0 <= m < |order| && order[m].BlacklistTask? && order[m].jti == jti
             && jti in redis && redis[jti] == EntryExpiry(order[m].ttl, now);
    assert order[m] in order;
    TaskCoversTarget(targets, reason, now, actor, order[m]);
  }
}
