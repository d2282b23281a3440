/** What holds over whole runs: every interleaving of any number of requests. */
module AuthRuns {
  import opened Options
  import opened AuthModel
  import opened AuthInvariants
  import opened AuthProtocol
  import opened AuthSteps
  import opened AuthSessions

  /** states[i] is reached after the first i events. */
  datatype Run = Run(states: seq<Sys>, events: seq<Event>)

  ghost predicate StepAt(r: Run, i: nat)
    requires |r.states| == |r.events| + 1 && i < |r.events|
  {
    Enabled(r.states[i], r.events[i]) && r.states[i + 1] == Step(r.states[i], r.events[i])
  }

  ghost predicate IsRun(r: Run) {
    && |r.states| == |r.events| + 1
    && r.states[0] == Init
    && forall i :: 0 <= i < |r.events| ==> StepAt(r, i)
  }

  lemma EmptyTables()
    ensures DbInv(Init.db)
  {
    forall j ensures ParentLinked(Init.db, j) {}
    forall f ensures HeadExists(Init.db, f) {}
  }

  lemma InitKeeps()
    ensures SysInv(Init) && SessionInv(Init.db)
  {
    EmptyTables();
    hide DbInv;
  }

  lemma {:induction false} Reachable(r: Run, i: nat)
    requires IsRun(r) && i < |r.states|
    ensures SysInv(r.states[i])
  {
    hide SysInv, SysEvolves, Step, Enabled;
    if i == 0 {
      InitKeeps();
    } else {
      Reachable(r, i - 1);
      assert StepAt(r, i - 1);
      StepKeepsInv(r.states[i - 1], r.events[i - 1]);
    }
  }

  lemma EvolvesBetween(s: Sys, t: Sys, u: Sys)
    requires SysEvolves(s, t) && SysEvolves(t, u)
    ensures SysEvolves(s, u)
  {
    EvolvesTransitive(s.db, t.db, u.db);
    assert FamiliesEvolve(s.db, t.db) && FamiliesEvolve(t.db, u.db);
    hide Evolves;
  }

  lemma {:induction false} Forward(r: Run, i: nat, k: nat)
    requires IsRun(r) && i <= k < |r.states|
    ensures SysEvolves(r.states[i], r.states[k])
    decreases k
  {
    hide SysInv, Evolves, Step, Enabled;
    if i == k {
      SameDbEvolves(r.states[i].db);
    } else {
      hide SysEvolves;
      Forward(r, i, k - 1);
      Reachable(r, k - 1);
      assert StepAt(r, k - 1);
      StepKeepsInv(r.states[k - 1], r.events[k - 1]);
      EvolvesBetween(r.states[i], r.states[k - 1], r.states[k]);
    }
  }

  // ---------- one commit per family and generation ----------

  /** This step is a refresh that wins the swap of generation g of family f. */
  ghost predicate Commits(s: Sys, e: Event, f: FamilyId, g: nat) {
    && e.Swap? && e.c in s.clients && s.clients[e.c].Checked?
    && s.clients[e.c].snap.rotation.familyId == f && s.clients[e.c].snap.rotation.generation == g
    && Rotate(s.db, SwapInput(s, s.clients[e.c].snap, e)).1.Won?
  }

  lemma CommitAdvances(s: Sys, e: Event, f: FamilyId, g: nat)
    requires Enabled(s, e) && Commits(s, e, f, g)
    ensures IsActive(s.db, f) && s.db.families[f].currentGeneration == g
    ensures f in Step(s, e).db.families && Step(s, e).db.families[f].currentGeneration == g + 1
  {
  }

  lemma CounterForward(s: Sys, t: Sys, f: FamilyId)
    requires SysEvolves(s, t) && f in s.db.families
    ensures f in t.db.families && s.db.families[f].currentGeneration <= t.db.families[f].currentGeneration
  {
  }

  /** Whatever Redis does, no generation of a family is ever swapped twice. */
  lemma OneCommitPerGeneration(r: Run, i: nat, k: nat, f: FamilyId, g: nat)
    requires IsRun(r) && i < |r.events| && k < |r.events|
    requires Commits(r.states[i], r.events[i], f, g) && Commits(r.states[k], r.events[k], f, g)
    ensures i == k
  {
    if i != k {
      var a, b := if i < k then i else k, if i < k then k else i;
      assert StepAt(r, a) && StepAt(r, b);
      CommitAdvances(r.states[a], r.events[a], f, g);
      CommitAdvances(r.states[b], r.events[b], f, g);
      Forward(r, a + 1, b);
      CounterForward(r.states[a + 1], r.states[b], f);
    }
  }

  // ---------- the chain of every family, in every reachable state ----------

  /** All generations up to the counter, linked; in an active family all used but the newest, which is active. */
  lemma ReachableChain(r: Run, i: nat, f: FamilyId) returns (jtis: seq<Jti>)
    requires IsRun(r) && i < |r.states| && f in r.states[i].db.families && HasRotation(r.states[i].db, f)
    ensures Chain(r.states[i].db, f, jtis)
    ensures IsActive(r.states[i].db, f) ==>
      forall g :: 0 <= g < |jtis| ==>
        HasStatus(r.states[i].db, jtis[g], if g == |jtis| - 1 then RotationActive else RotationUsed)
  {
    Reachable(r, i);
    jtis := FamilyHasChain(r.states[i].db, f);
  }

  lemma ReachableOneActive(r: Run, i: nat, j: Jti, k: Jti)
    requires IsRun(r) && i < |r.states| && j in r.states[i].db.rotations && k in r.states[i].db.rotations
    requires r.states[i].db.rotations[j].familyId == r.states[i].db.rotations[k].familyId
    requires r.states[i].db.rotations[j].status.RotationActive? && r.states[i].db.rotations[k].status.RotationActive?
    ensures j == k
  {
    Reachable(r, i);
    AtMostOneActiveRotation(r.states[i].db, j, k);
  }

  // ---------- revoked and expired are final ----------

  ghost function RotationsOf(db: Db, f: FamilyId): set<Jti> {
    set j | j in db.rotations && db.rotations[j].familyId == f
  }

  /** Once revoked or expired, a family row (status, generation, reason and all) never changes, and gains no rotation. */
  lemma SettledForever(r: Run, i: nat, k: nat, f: FamilyId)
    requires IsRun(r) && i <= k < |r.states| && Settled(r.states[i].db, f)
    ensures Settled(r.states[k].db, f) && r.states[k].db.families[f] == r.states[i].db.families[f]
    ensures HasRotation(r.states[i].db, f) ==> RotationsOf(r.states[k].db, f) == RotationsOf(r.states[i].db, f)
  {
    Forward(r, i, k);
    Reachable(r, k);
    var a, b := r.states[i].db, r.states[k].db;
    assert FamiliesEvolve(a, b) && RotationsEvolve(a, b) && NoLateRotations(a, b);
    if HasRotation(a, f) {
      NothingAdded(a, b, f);
    }
  }

  lemma NothingAdded(a: Db, b: Db, f: FamilyId)
    requires RotationsEvolve(a, b) && NoLateRotations(a, b) && Settled(a, f) && HasRotation(a, f)
    ensures RotationsOf(b, f) == RotationsOf(a, f)
  {
    forall j | j in b.rotations && b.rotations[j].familyId == f ensures j in RotationsOf(a, f) {
      assert j in a.rotations;
    }
    assert forall j :: j in RotationsOf(a, f) ==> j in RotationsOf(b, f);
  }

  /** Once a family is revoked or expired, however that came about, no refresh commits, whenever it passed its checks. */
  lemma SettledNeverCommits(r: Run, i: nat, k: nat, f: FamilyId, g: nat)
    requires IsRun(r) && i <= k < |r.events| && Settled(r.states[i].db, f)
    ensures !Commits(r.states[k], r.events[k], f, g)
  {
    SettledForever(r, i, k, f);
    assert StepAt(r, k);
    if Commits(r.states[k], r.events[k], f, g) {
      CommitAdvances(r.states[k], r.events[k], f, g);
      assert false;
    }
  }

  /** A revocation and an expiry both settle the family from the very next step on. */
  lemma NoCommitAfterRevocation(r: Run, i: nat, k: nat, f: FamilyId, g: nat)
    requires IsRun(r) && i < k < |r.events| && f in r.states[i].db.families
    requires (r.events[i].RevokeFamily? || r.events[i].ExpireFamily?) && r.events[i].fid == f
    ensures Settled(r.states[i + 1].db, f) && !Commits(r.states[k], r.events[k], f, g)
  {
    assert StepAt(r, i);
    assert Settled(r.states[i + 1].db, f);
    SettledNeverCommits(r, i + 1, k, f, g);
  }

  /** The first revocation decides: its reason, moment and actor stay on the rows whatever follows. */
  lemma FirstRevocationSticks(r: Run, i: nat, k: nat, f: FamilyId)
    requires IsRun(r) && i < k < |r.states| && i < |r.events|
    requires r.events[i].RevokeFamily? && r.events[i].fid == f
    requires IsActive(r.states[i].db, f) && f in r.states[i].db.sessions
             && r.states[i].db.sessions[f].status.SessionActive? && r.events[i].actor.Some?
    ensures var e := r.events[i];
            var db := r.states[k].db;
            && f in db.families && f in db.sessions
            && db.families[f].status.FamilyRevoked? && db.sessions[f].status.SessionRevoked?
            && db.families[f].revokedReason == Some(e.reason) == db.sessions[f].revokeReason
            && db.families[f].revokedAt == Some(r.states[i].now) == db.sessions[f].revokedAt
            && db.sessions[f].revokedBy == e.actor
  {
    assert StepAt(r, i);
    Forward(r, i + 1, k);
    SessionForward(r.states[i + 1], r.states[k], f);
    SettledForever(r, i + 1, k, f);
  }

  lemma SessionForward(s: Sys, t: Sys, f: FamilyId)
    requires SysEvolves(s, t) && f in s.db.sessions && !s.db.sessions[f].status.SessionActive?
    ensures f in t.db.sessions && t.db.sessions[f] == s.db.sessions[f]
  {
  }

  // ---------- a stale token never yields tokens, and costs the family ----------

  /** A refresh on its way to being refused: it saw a stale row, or it lost the swap. */
  predicate Doomed(client: Client, claims: Claims, snap: Snapshot) {
    match client
    case Found(k, p) => k == claims && p == snap && !IsCurrent(snap)
    case Replaying(k, p) => k == claims && p == snap
    case Refused(_, k, seen) => k == claims && seen == Some(snap)
    case _ => false
  }

  lemma DoomedStays(s: Sys, e: Event, c: ClientId, claims: Claims, snap: Snapshot)
    requires Enabled(s, e) && c in s.clients && Doomed(s.clients[c], claims, snap)
    ensures c in Step(s, e).clients && Doomed(Step(s, e).clients[c], claims, snap)
  {
    if e == Check(c) {
      DoomedCheck(s, c, claims, snap);
    } else if e != RevokeReplayed(c) {
      OthersUntouched(s, e, c);
    }
  }

  lemma DoomedCheck(s: Sys, c: ClientId, claims: Claims, snap: Snapshot)
    requires c in s.clients && s.clients[c].Found? && Doomed(s.clients[c], claims, snap)
    ensures Doomed(DoCheck(s, c).clients[c], claims, snap)
  {
  }

  /** Only a request's own steps move it; a doomed request has two of them. */
  lemma OthersUntouched(s: Sys, e: Event, c: ClientId)
    requires Enabled(s, e) && c in s.clients && e != Check(c) && e != RevokeReplayed(c)
    requires s.clients[c].Found? || s.clients[c].Replaying? || s.clients[c].Refused?
    ensures c in Step(s, e).clients && Step(s, e).clients[c] == s.clients[c]
  {
    if WritesTables(e) {
      WritersUntouched(s, e, c);
    } else {
      hide DoStartSignIn, DoWriteRotation, DoWriteSession, DoSwap, DoRevokeReplayed, Revoke, Expire, Touch, CheckRotation;
    }
  }

  /** Steps of one client that also write the tables. */
  predicate WritesTables(e: Event) {
    e.StartSignIn? || e.WriteRotation? || e.WriteSession? || e.Swap? || e.RevokeReplayed?
  }

  lemma WritersUntouched(s: Sys, e: Event, c: ClientId)
    requires Enabled(s, e) && WritesTables(e) && c in s.clients && e != RevokeReplayed(c)
    requires s.clients[c].Found? || s.clients[c].Replaying? || s.clients[c].Refused?
    ensures c in Step(s, e).clients && Step(s, e).clients[c] == s.clients[c]
  {
    hide CreateFamily, CreateRotation, CreateSession, Rotate, Revoke;
    if e.Swap? {
      SwapUntouched(s, e, c);
      hide DoSwap;
    }
  }

  lemma SwapUntouched(s: Sys, e: Event, c: ClientId)
    requires e.Swap? && e.c in s.clients && s.clients[e.c].Checked? && c in s.clients && c != e.c
    ensures DoSwap(s, e).clients[c] == s.clients[c]
  {
  }

  lemma {:induction false} DoomedForever(r: Run, i: nat, k: nat, c: ClientId, claims: Claims, snap: Snapshot)
    requires IsRun(r) && i <= k < |r.states|
    requires c in r.states[i].clients && Doomed(r.states[i].clients[c], claims, snap)
    ensures c in r.states[k].clients && Doomed(r.states[k].clients[c], claims, snap)
    decreases k
  {
    if i < k {
      DoomedForever(r, i, k - 1, c, claims, snap);
      assert StepAt(r, k - 1);
      DoomedStays(r.states[k - 1], r.events[k - 1], c, claims, snap);
    }
  }

  /** The family is closed: revoked with this row marked replayed, or expired, or revoked before the request. */
  ghost predicate Closed(db: Db, claims: Claims, error: Error) {
    && Settled(db, claims.family)
    && (error.ReplayFound? ==> claims.jti in db.rotations && db.rotations[claims.jti].status.RotationReplayed?)
    && (error.FamilyIsRevoked? ==> db.families[claims.family].status.FamilyRevoked?)
  }

  /**
   A refresh that found a row which is not current and active never returns tokens; once its own
   steps are done and the expiry it may have started has run, its family is closed.
   */
  lemma StaleTokenIsRefused(r: Run, i: nat, k: nat, c: ClientId, claims: Claims, snap: Snapshot)
    requires IsRun(r) && i <= k < |r.states|
    requires c in r.states[i].clients && r.states[i].clients[c] == Found(claims, snap) && !IsCurrent(snap)
    ensures c in r.states[k].clients && !r.states[k].clients[c].Committed? && !r.states[k].clients[c].Returned?
    ensures r.states[k].clients[c].Refused? ==>
      var error := r.states[k].clients[c].error;
      && (error.ReplayFound? || error.FamilyIsRevoked? || error.FamilyIsExpired?)
      && (claims.family !in r.states[k].pending ==> Closed(r.states[k].db, claims, error))
  {
    DoomedForever(r, i, k, c, claims, snap);
    Reachable(r, k);
    assert ClientOk(r.states[k], r.states[k].clients[c]);
    DoomedAreClosed(r.states[k], r.states[k].clients[c], claims, snap);
  }

  lemma DoomedAreClosed(s: Sys, client: Client, claims: Claims, snap: Snapshot)
    requires Doomed(client, claims, snap) && ClientOk(s, client) && !IsCurrent(snap)
    ensures client.Refused? ==>
      && (client.error.ReplayFound? || client.error.FamilyIsRevoked? || client.error.FamilyIsExpired?)
      && (claims.family !in s.pending ==> Closed(s.db, claims, client.error))
  {
  }

  /** A refresh checked at or after the expiry of its row or of its family is refused, and stays so. */
  lemma ExpiredIsRefused(r: Run, i: nat, k: nat, c: ClientId, claims: Claims, snap: Snapshot)
    requires IsRun(r) && i < k < |r.states| && r.events[i] == Check(c)
    requires c in r.states[i].clients && r.states[i].clients[c] == Found(claims, snap)
    requires snap.rotation.expiresAt <= r.states[i].now || snap.family.expiresAt <= r.states[i].now
    ensures c in r.states[k].clients
    ensures !r.states[k].clients[c].Checked? && !r.states[k].clients[c].Committed? && !r.states[k].clients[c].Returned?
  {
    assert StepAt(r, i);
    ExpiredCheckRefuses(r.states[i], c);
    DoomedForever(r, i + 1, k, c, claims, snap);
  }

  lemma ExpiredCheckRefuses(s: Sys, c: ClientId)
    requires c in s.clients && s.clients[c].Found?
    requires s.clients[c].snap.rotation.expiresAt <= s.now || s.clients[c].snap.family.expiresAt <= s.now
    ensures c in DoCheck(s, c).clients && DoCheck(s, c).clients[c].Refused?
    ensures DoCheck(s, c).clients[c].claims == s.clients[c].claims && DoCheck(s, c).clients[c].seen == Some(s.clients[c].snap)
    ensures s.clients[c].claims.generation == s.clients[c].snap.rotation.generation
            && s.clients[c].snap.family.status != FamilyRevoked ==>
              DoCheck(s, c).clients[c].error == FamilyIsExpired
              && s.clients[c].snap.rotation.familyId in DoCheck(s, c).pending
  {
  }

  /** The same for a refresh that passed its checks but lost the swap to somebody else. */
  lemma LostSwapIsReplay(r: Run, i: nat, k: nat)
    requires IsRun(r) && i < k < |r.states|
    requires r.events[i].Swap? && StepAt(r, i) && r.events[i].c in r.states[i].clients
    requires var snap := r.states[i].clients[r.events[i].c].snap;
             !IsActive(r.states[i].db, snap.rotation.familyId)
             || r.states[i].db.families[snap.rotation.familyId].currentGeneration != snap.rotation.generation
    ensures var c := r.events[i].c;
            var claims := r.states[i].clients[c].claims;
            && c in r.states[k].clients && !r.states[k].clients[c].Committed? && !r.states[k].clients[c].Returned?
            && (r.states[k].clients[c].Refused? ==>
                  r.states[k].clients[c].error.ReplayFound? && Closed(r.states[k].db, claims, ReplayFound))
  {
    var c := r.events[i].c;
    var client := r.states[i].clients[c];
    LostSwapReplays(r.states[i], r.events[i]);
    hide SysInv, Step, Closed, ClientOk, Rotate, IsActive;
    LostForever(r, i + 1, k, c, client.claims, client.snap);
    Reachable(r, k);
    ReachableClient(r.states[k], c);
    if r.states[k].clients[c].Refused? {
      FoundReplayIsClosed(r.states[k], client.claims, client.snap);
    }
  }

  lemma LostSwapReplays(s: Sys, e: Event)
    requires Enabled(s, e) && e.Swap?
    requires var snap := s.clients[e.c].snap;
             !IsActive(s.db, snap.rotation.familyId)
             || s.db.families[snap.rotation.familyId].currentGeneration != snap.rotation.generation
    ensures e.c in Step(s, e).clients && Step(s, e).clients[e.c] == Replaying(s.clients[e.c].claims, s.clients[e.c].snap)
  {
  }

  lemma FoundReplayIsClosed(s: Sys, claims: Claims, snap: Snapshot)
    requires ClientOk(s, Refused(ReplayFound, claims, Some(snap)))
    ensures Closed(s.db, claims, ReplayFound)
  {
    assert RefusalOk(s, ReplayFound, claims, Some(snap));
  }

  predicate Lost(client: Client, claims: Claims, snap: Snapshot) {
    client == Replaying(claims, snap) || client == Refused(ReplayFound, claims, Some(snap))
  }

  lemma LostStays(s: Sys, e: Event, c: ClientId, claims: Claims, snap: Snapshot)
    requires Enabled(s, e) && c in s.clients && Lost(s.clients[c], claims, snap) && ClientOk(s, s.clients[c])
    ensures c in Step(s, e).clients && Lost(Step(s, e).clients[c], claims, snap)
  {
    if e == RevokeReplayed(c) {
      assert snap.jti in s.db.rotations;
      assert Step(s, e).clients[c] == Refused(ReplayFound, claims, Some(snap));
    } else {
      hide ClientOk;
      OthersUntouched(s, e, c);
    }
  }

  lemma ReachableClient(s: Sys, c: ClientId)
    requires SysInv(s) && c in s.clients
    ensures ClientOk(s, s.clients[c])
  {
    hide ClientOk;
  }

  lemma {:induction false} LostForever(r: Run, i: nat, k: nat, c: ClientId, claims: Claims, snap: Snapshot)
    requires IsRun(r) && i <= k < |r.states|
    requires c in r.states[i].clients && Lost(r.states[i].clients[c], claims, snap)
    ensures c in r.states[k].clients && Lost(r.states[k].clients[c], claims, snap)
    decreases k
  {
    hide SysInv, Step, Enabled, Lost, ClientOk;
    if i < k {
      LostForever(r, i, k - 1, c, claims, snap);
      assert StepAt(r, k - 1);
      Reachable(r, k - 1);
      ReachableClient(r.states[k - 1], c);
      LostStays(r.states[k - 1], r.events[k - 1], c, claims, snap);
    }
  }

  // ---------- what a refresh that does return was entitled to ----------

  /**
   Tokens go only to a request whose row was the active head of its family when it was looked up,
   and they belong to the next generation, whose parent is that row. No request ever ends in a
   generation mismatch or in a rolled-back transaction.
   */
  lemma RefreshOutcomes(r: Run, k: nat, c: ClientId)
    requires IsRun(r) && k < |r.states| && c in r.states[k].clients
    ensures var client := r.states[k].clients[c];
            && (client.Returned? ==>
                  && IsCurrent(client.snap) && client.snap.jti == client.claims.jti
                  && SuccessorRow(r.states[k], client.snap, client.next))
            && (client.Refused? ==> !client.error.WrongGeneration? && !client.error.DatabaseError?)
  {
    Reachable(r, k);
    assert ClientOk(r.states[k], r.states[k].clients[c]);
  }

  // ---------- session rows mirror family rows ----------

  ghost predicate NoneEarly(r: Run)
    requires IsRun(r)
  {
    forall i :: 0 <= i < |r.events| && StepAt(r, i) ==> !Early(r.states[i], r.events[i])
  }

  lemma {:induction false} SessionsMirror(r: Run, i: nat)
    requires IsRun(r) && NoneEarly(r) && i < |r.states|
    ensures SessionInv(r.states[i].db)
  {
    hide SysInv, SessionInv, Step, Enabled, Early;
    if i == 0 {
      InitKeeps();
    } else {
      SessionsMirror(r, i - 1);
      Reachable(r, i - 1);
      assert StepAt(r, i - 1);
      StepMirrors(r.states[i - 1], r.events[i - 1]);
    }
  }

  /** The exact condition: the session row written at the end of sign-in agrees with a family that is still active. */
  lemma LastWriteAgreesIff(s: Sys, e: Event)
    requires SysInv(s) && Enabled(s, e) && e.WriteSession? && s.clients[e.c].claims.family !in s.db.sessions
    ensures var f := s.clients[e.c].claims.family;
            var db := Step(s, e).db;
            && f in db.families && f in db.sessions
            && (SameStatus(db.families[f].status, db.sessions[f].status) <==> IsActive(s.db, f))
  {
    assert ClientOk(s, s.clients[e.c]);
  }

  // ---------- exactly when the rows agree ----------

  /** The last write of a sign-in whose family has been revoked or expired meanwhile. */
  predicate LateSession(s: Sys, e: Event)
    requires Enabled(s, e)
  {
    e.WriteSession? && s.clients[e.c].claims.family !in s.db.sessions && !IsActive(s.db, s.clients[e.c].claims.family)
  }

  lemma RotateAgrees(db: Db, d: RotateInput)
    requires RowsAgree(db)
    ensures RowsAgree(Rotate(db, d).0)
  {
  }

  lemma RevokeAgrees(db: Db, fid: FamilyId, reason: Reason, at: Time, replayed: Option<Jti>, actor: Option<UserId>)
    requires RowsAgree(db) && (replayed.Some? ==> replayed.value in db.rotations)
    ensures RowsAgree(Revoke(db, fid, reason, at, replayed, actor).value)
  {
  }

  lemma ExpireAndTouchAgree(s: Sys, e: Event)
    requires RowsAgree(s.db) && Enabled(s, e) && (e.ExpireFamily? || e.TouchSession?)
    ensures RowsAgree(Step(s, e).db)
  {
  }

  lemma SignInAgrees(s: Sys, e: Event)
    requires SysInv(s) && RowsAgree(s.db) && Enabled(s, e) && !LateSession(s, e)
    requires e.StartSignIn? || e.WriteRotation? || e.WriteSession?
    ensures RowsAgree(Step(s, e).db)
  {
    if e.WriteSession? {
      assert ClientOk(s, s.clients[e.c]);
    }
    hide ClientOk, RowsSigned;
  }

  /** Every other step, early revocations included, keeps each session row in agreement with its family row. */
  lemma StepAgrees(s: Sys, e: Event)
    requires SysInv(s) && RowsAgree(s.db) && Enabled(s, e) && !LateSession(s, e)
    ensures RowsAgree(Step(s, e).db)
  {
    hide SysInv, RowsAgree, Rotate, Revoke, CheckRotation;
    if e.StartSignIn? || e.WriteRotation? || e.WriteSession? {
      SignInAgrees(s, e);
    } else if e.Swap? || e.RevokeReplayed? {
      RefreshAgrees(s, e);
    } else if e.ExpireFamily? || e.TouchSession? {
      ExpireAndTouchAgree(s, e);
    } else {
      hide DoStartSignIn, DoWriteRotation, DoWriteSession, DoSwap, DoRevokeReplayed, Expire, Touch;
      if e.RevokeFamily? {
        RevokeAgrees(s.db, e.fid, e.reason, s.now, None, e.actor);
      }
    }
  }

  lemma RefreshAgrees(s: Sys, e: Event)
    requires SysInv(s) && RowsAgree(s.db) && Enabled(s, e) && (e.Swap? || e.RevokeReplayed?)
    ensures RowsAgree(Step(s, e).db)
  {
    assert ClientOk(s, s.clients[e.c]);
    hide SysInv, RowsAgree, Rotate, Revoke;
    var snap := s.clients[e.c].snap;
    if e.Swap? {
      RotateAgrees(s.db, SwapInput(s, snap, e));
    } else {
      RevokeAgrees(s.db, snap.rotation.familyId, ReplayDetected, s.now, Some(snap.jti), None);
    }
  }

  ghost predicate NoneLate(r: Run)
    requires IsRun(r)
  {
    forall i :: 0 <= i < |r.events| && StepAt(r, i) ==> !LateSession(r.states[i], r.events[i])
  }

  lemma {:induction false} RunAgrees(r: Run, i: nat)
    requires IsRun(r) && NoneLate(r) && i < |r.states|
    ensures RowsAgree(r.states[i].db)
  {
    hide SysInv, Step, Enabled, LateSession;
    if i > 0 {
      RunAgrees(r, i - 1);
      hide RowsAgree;
      Reachable(r, i - 1);
      assert StepAt(r, i - 1);
      StepAgrees(r.states[i - 1], r.events[i - 1]);
    }
  }

  /**
   Throughout a run each session row has the status of its family row, if and only if no sign-in of
   the run writes its session row after its family was revoked or expired.
   */
  lemma RowsAgreeIffNoneLate(r: Run)
    requires IsRun(r)
    ensures (forall i :: 0 <= i < |r.states| ==> RowsAgree(r.states[i].db)) <==> NoneLate(r)
  {
    hide SysInv, Step;
    if NoneLate(r) {
      forall i | 0 <= i < |r.states| ensures RowsAgree(r.states[i].db) {
        RunAgrees(r, i);
      }
    } else {
      var i :| 0 <= i < |r.events| && StepAt(r, i) && LateSession(r.states[i], r.events[i]);
      Reachable(r, i);
      LastWriteAgreesIff(r.states[i], r.events[i]);
      assert !RowsAgree(r.states[i + 1].db);
    }
  }

  // A run in which family 7 is revoked between its first write and its session row.
  const SPLIT_EVENTS := [StartSignIn(0, 7, 1, 100, 100000, 5, 9), RevokeFamily(7, ForceLogoutUser, None),
                         WriteRotation(0), WriteSession(0, 2, 50000, Context(0, 0, None, None))]

  const OPEN_FAMILY := Family(5, 9, 0, FamilyActive, 100000, None, None)
  const REVOKED_FAMILY := Family(5, 9, 0, FamilyRevoked, 100000, Some(0), Some(ForceLogoutUser))

  function SplitState(db: Db, client: Client): Sys {
    Sys(db, map[1 := Claims(1, 7, 0, 100)], map[], true, 0, map[0 := client], multiset{})
  }

  const SPLIT_1 := SplitState(Db(map[7 := OPEN_FAMILY], map[], map[]), NeedsRotation(Claims(1, 7, 0, 100), 100000, 5, 9))
  const SPLIT_2 := SPLIT_1.(db := Db(map[7 := REVOKED_FAMILY], map[], map[]))
  const SPLIT_3 := SplitState(Db(map[7 := REVOKED_FAMILY],
                                 map[1 := Rotation(7, 0, None, RotationActive, 100000, None, None, None)], map[]),
                              NeedsSession(Claims(1, 7, 0, 100), 5, 9))

  lemma SplitSteps()
    ensures Enabled(Init, SPLIT_EVENTS[0]) && DoStartSignIn(Init, SPLIT_EVENTS[0]) == SPLIT_1
    ensures DoRevokeFamily(SPLIT_1, 7, ForceLogoutUser, None) == SPLIT_2
    ensures Enabled(SPLIT_2, SPLIT_EVENTS[2]) && DoWriteRotation(SPLIT_2, 0) == SPLIT_3
    ensures Enabled(SPLIT_3, SPLIT_EVENTS[3])
  {
    assert Revoke(SPLIT_1.db, 7, ForceLogoutUser, 0, None, None).value.rotations == map[];
  }

  /** The assumption is needed: such a run is possible, and it ends in disagreement. */
  lemma EarlyRevocationSplitsThem() returns (r: Run)
    ensures IsRun(r) && !NoneEarly(r) && !NoneLate(r)
    ensures !Mirror(r.states[|r.states| - 1].db) && !RowsAgree(r.states[|r.states| - 1].db)
  {
    SplitSteps();
    var last := Step(SPLIT_3, SPLIT_EVENTS[3]);
    r := Run([Init, SPLIT_1, SPLIT_2, SPLIT_3, last], SPLIT_EVENTS);
    assert StepAt(r, 0) && StepAt(r, 1) && StepAt(r, 2) && StepAt(r, 3);
    assert Early(r.states[1], r.events[1]) && LateSession(r.states[3], r.events[3]);
    assert last.db.families[7].status.FamilyRevoked? && last.db.sessions[7].status.SessionActive?;
  }
}
