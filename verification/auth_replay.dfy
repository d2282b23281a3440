/** Replay detection raises no false alarm: it closes an active family only for a token that was really used twice. */
module AuthReplay {
  import opened Options
  import opened AuthModel
  import opened AuthInvariants
  import opened AuthProtocol
  import opened AuthSteps
  import opened AuthRuns

  /** Request d has rotated this row away. */
  ghost predicate SpentBy(s: Sys, d: ClientId, j: Jti) {
    d in s.clients && (s.clients[d].Committed? || s.clients[d].Returned?) && s.clients[d].snap.jti == j
  }

  /** Every used row was rotated away by some request. */
  ghost predicate UsedWasSpent(s: Sys) {
    forall j {:trigger j in s.db.rotations} :: HasStatus(s.db, j, RotationUsed) ==> exists d :: SpentBy(s, d, j)
  }

  /** While its family is active, this row is no longer. */
  ghost predicate RowIsStale(s: Sys, claims: Claims, snap: Snapshot) {
    IsActive(s.db, claims.family) ==> !HasStatus(s.db, snap.jti, RotationActive)
  }

  /** A request on its way to a replay holds a row that really is stale. */
  ghost predicate SuspectIsStale(s: Sys, client: Client) {
    match client
    case Found(claims, snap) => !IsCurrent(snap) ==> RowIsStale(s, claims, snap)
    case Replaying(claims, snap) => RowIsStale(s, claims, snap)
    case _ => true
  }

  ghost predicate ReplayInv(s: Sys) {
    && UsedWasSpent(s)
    && (forall c :: c in s.clients ==> SuspectIsStale(s, s.clients[c]))
  }

  // ---------- used rows ----------

  lemma RotateUses(db: Db, d: RotateInput, j: Jti)
    requires HasStatus(Rotate(db, d).0, j, RotationUsed) && !HasStatus(db, j, RotationUsed)
    ensures Rotate(db, d).1.Won? && j == d.previousJti
  {
  }

  lemma RevokeUsesNone(db: Db, fid: FamilyId, reason: Reason, at: Time, replayed: Option<Jti>, actor: Option<UserId>,
                       j: Jti)
    requires replayed.Some? ==> replayed.value in db.rotations
    requires HasStatus(Revoke(db, fid, reason, at, replayed, actor).value, j, RotationUsed)
    ensures HasStatus(db, j, RotationUsed)
  {
  }

  /** Only a won swap makes a row used, and its request keeps that row. */
  lemma NewlyUsed(s: Sys, e: Event, j: Jti)
    requires Enabled(s, e) && HasStatus(Step(s, e).db, j, RotationUsed) && !HasStatus(s.db, j, RotationUsed)
    ensures e.Swap? && SpentBy(Step(s, e), e.c, j)
  {
    if e.Swap? {
      SwapUses(s, e, j);
    } else if e.RevokeReplayed? {
      ReplayUsesNone(s, e.c, j);
    } else {
      hide DoSwap, DoRevokeReplayed, CheckRotation, Rotate, Revoke;
      if e.RevokeFamily? {
        RevokeUsesNone(s.db, e.fid, e.reason, s.now, None, e.actor, j);
      }
    }
  }

  lemma SwapUses(s: Sys, e: Event, j: Jti)
    requires e.Swap? && e.c in s.clients && s.clients[e.c].Checked?
    requires HasStatus(DoSwap(s, e).db, j, RotationUsed) && !HasStatus(s.db, j, RotationUsed)
    ensures SpentBy(DoSwap(s, e), e.c, j)
  {
    RotateUses(s.db, SwapInput(s, s.clients[e.c].snap, e), j);
    hide Rotate;
  }

  lemma ReplayUsesNone(s: Sys, c: ClientId, j: Jti)
    requires c in s.clients && s.clients[c].Replaying? && HasStatus(DoRevokeReplayed(s, c).db, j, RotationUsed)
    ensures HasStatus(s.db, j, RotationUsed)
  {
    var snap := s.clients[c].snap;
    if snap.jti in s.db.rotations {
      RevokeUsesNone(s.db, snap.rotation.familyId, ReplayDetected, s.now, Some(snap.jti), None, j);
    }
  }

  lemma SpenderStays(s: Sys, e: Event, d: ClientId, j: Jti)
    requires Enabled(s, e) && SpentBy(s, d, j)
    ensures SpentBy(Step(s, e), d, j)
  {
    if WritesTables(e) {
      WritersKeepSpender(s, e, d, j);
    } else {
      hide DoStartSignIn, DoWriteRotation, DoWriteSession, DoSwap, DoRevokeReplayed, Revoke, Expire, Touch, CheckRotation;
    }
  }

  lemma WritersKeepSpender(s: Sys, e: Event, d: ClientId, j: Jti)
    requires Enabled(s, e) && WritesTables(e) && SpentBy(s, d, j)
    ensures SpentBy(Step(s, e), d, j)
  {
    hide CreateFamily, CreateRotation, CreateSession, Rotate, Revoke;
    if e.Swap? {
      SwapUntouched(s, e, d);
      hide DoSwap;
    }
  }

  lemma StepKeepsSpent(s: Sys, e: Event)
    requires SysInv(s) && UsedWasSpent(s) && Enabled(s, e)
    ensures UsedWasSpent(Step(s, e))
  {
    var t := Step(s, e);
    hide SysInv, Step, Enabled, SpentBy, HasStatus;
    forall j | HasStatus(t.db, j, RotationUsed) ensures exists d :: SpentBy(t, d, j) {
      if HasStatus(s.db, j, RotationUsed) {
        SpentStays(s, e, j);
      } else {
        NewlyUsed(s, e, j);
      }
    }
  }

  lemma SpentStays(s: Sys, e: Event, j: Jti)
    requires UsedWasSpent(s) && Enabled(s, e) && HasStatus(s.db, j, RotationUsed)
    ensures exists d :: SpentBy(Step(s, e), d, j)
  {
    assert j in s.db.rotations;
    var d :| SpentBy(s, d, j);
    hide Step, Enabled, SpentBy;
    SpenderStays(s, e, d, j);
  }

  // ---------- stale rows ----------

  lemma StaleStays(s: Sys, t: Sys, claims: Claims, snap: Snapshot)
    requires SysEvolves(s, t) && SnapOk(s, claims, snap) && RowIsStale(s, claims, snap)
    ensures RowIsStale(t, claims, snap)
  {
  }

  /** A looked-up row that is not the current one of an active family is not active. */
  lemma LookupFindsStale(s: Sys, claims: Claims, snap: Snapshot)
    requires DbInv(s.db) && snap.jti in s.db.rotations && snap.rotation == s.db.rotations[snap.jti]
    requires snap.rotation.familyId == claims.family
    requires claims.family in s.db.families && snap.family == s.db.families[claims.family]
    requires !IsCurrent(snap)
    ensures RowIsStale(s, claims, snap)
  {
  }

  /** A swap is lost only to a family that is closed, or has moved on from the row. */
  lemma LostSwapIsStale(s: Sys, e: Event)
    requires DbInv(s.db) && e.Swap? && e.c in s.clients && s.clients[e.c].Checked? && ClientOk(s, s.clients[e.c])
    requires Rotate(s.db, SwapInput(s, s.clients[e.c].snap, e)).1.Lost?
    ensures RowIsStale(DoSwap(s, e), s.clients[e.c].claims, s.clients[e.c].snap)
  {
    assert DoSwap(s, e).db == s.db;
  }

  /** How a request becomes a suspect, or stays one. */
  lemma SuspectsMove(s: Sys, e: Event, c: ClientId)
    requires Enabled(s, e) && c in Step(s, e).clients
    requires Step(s, e).clients[c].Found? || Step(s, e).clients[c].Replaying?
    ensures (c in s.clients && Step(s, e).clients[c] == s.clients[c]) || e == Lookup(c) || e == Check(c)
            || (e.Swap? && e.c == c)
  {
    if WritesTables(e) {
      WritersMoveNoSuspect(s, e, c);
    } else {
      hide DoStartSignIn, DoWriteRotation, DoWriteSession, DoSwap, DoRevokeReplayed, Revoke, Expire, Touch, CheckRotation;
    }
  }

  lemma WritersMoveNoSuspect(s: Sys, e: Event, c: ClientId)
    requires Enabled(s, e) && WritesTables(e) && c in Step(s, e).clients
    requires Step(s, e).clients[c].Found? || Step(s, e).clients[c].Replaying?
    ensures (c in s.clients && Step(s, e).clients[c] == s.clients[c]) || (e.Swap? && e.c == c)
  {
    hide CreateFamily, CreateRotation, CreateSession, Revoke;
    if e.Swap? {
      if c != e.c { OtherClients(s, e, c); }
      hide DoSwap;
    }
  }

  lemma OtherClients(s: Sys, e: Event, c: ClientId)
    requires e.Swap? && e.c in s.clients && s.clients[e.c].Checked? && c in DoSwap(s, e).clients && c != e.c
    ensures c in s.clients && DoSwap(s, e).clients[c] == s.clients[c]
  {
  }

  lemma LookupSuspect(s: Sys, c: ClientId)
    requires DbInv(s.db) && c in s.clients && s.clients[c].Verified?
    ensures SuspectIsStale(DoLookup(s, c), DoLookup(s, c).clients[c])
  {
    var t := DoLookup(s, c);
    if t.clients[c].Found? && !IsCurrent(t.clients[c].snap) {
      LookupFindsStale(t, t.clients[c].claims, t.clients[c].snap);
    }
  }

  lemma CheckSuspect(s: Sys, c: ClientId)
    requires c in s.clients && s.clients[c].Found? && SuspectIsStale(s, s.clients[c])
    ensures SuspectIsStale(DoCheck(s, c), DoCheck(s, c).clients[c])
  {
    hide RowIsStale;
    if CheckRotation(s.clients[c].claims, s.clients[c].snap, s.now).Replay? {
      StaleInSameRows(s, DoCheck(s, c), s.clients[c].claims, s.clients[c].snap);
    }
  }

  lemma StaleInSameRows(s: Sys, t: Sys, claims: Claims, snap: Snapshot)
    requires RowIsStale(s, claims, snap) && t.db == s.db
    ensures RowIsStale(t, claims, snap)
  {
  }

  lemma SwapSuspect(s: Sys, e: Event)
    requires DbInv(s.db) && e.Swap? && e.c in s.clients && s.clients[e.c].Checked? && ClientOk(s, s.clients[e.c])
    ensures SuspectIsStale(DoSwap(s, e), DoSwap(s, e).clients[e.c])
  {
    hide DbInv, Rotate, RowIsStale;
    if Rotate(s.db, SwapInput(s, s.clients[e.c].snap, e)).1.Lost? {
      LostSwapIsStale(s, e);
    }
  }

  lemma SuspectStays(s: Sys, t: Sys, client: Client)
    requires SysEvolves(s, t) && ClientOk(s, client) && SuspectIsStale(s, client)
    ensures SuspectIsStale(t, client)
  {
    hide SysEvolves, SnapOk, RowIsStale;
    match client
    case Found(claims, snap) => if !IsCurrent(snap) { StaleStays(s, t, claims, snap); }
    case Replaying(claims, snap) => StaleStays(s, t, claims, snap);
    case _ =>
  }

  lemma StepKeepsSuspect(s: Sys, e: Event, c: ClientId)
    requires SysInv(s) && ReplayInv(s) && Enabled(s, e) && c in Step(s, e).clients
    ensures SuspectIsStale(Step(s, e), Step(s, e).clients[c])
  {
    var t := Step(s, e);
    if t.clients[c].Found? || t.clients[c].Replaying? {
      SuspectsMove(s, e, c);
      StepKeepsInv(s, e);
      if c in s.clients && t.clients[c] == s.clients[c] {
        assert ClientOk(s, s.clients[c]);
        hide *;
        assert SuspectIsStale(s, s.clients[c]) by { SuspectsAreStale(s, c); }
        SuspectStays(s, t, s.clients[c]);
      } else {
        MovedSuspect(s, e, c);
      }
    }
  }

  lemma SuspectsAreStale(s: Sys, c: ClientId)
    requires ReplayInv(s) && c in s.clients
    ensures SuspectIsStale(s, s.clients[c])
  {
  }

  lemma MovedSuspect(s: Sys, e: Event, c: ClientId)
    requires SysInv(s) && ReplayInv(s) && Enabled(s, e)
    requires e == Lookup(c) || e == Check(c) || (e.Swap? && e.c == c)
    ensures c in Step(s, e).clients && SuspectIsStale(Step(s, e), Step(s, e).clients[c])
  {
    hide DbInv, SuspectIsStale, CheckRotation, Rotate;
    if e.Lookup? {
      LookupSuspect(s, c);
    } else if e.Check? {
      CheckSuspect(s, c);
    } else {
      assert ClientOk(s, s.clients[c]);
      SwapSuspect(s, e);
    }
  }

  lemma StepKeepsReplayInv(s: Sys, e: Event)
    requires SysInv(s) && ReplayInv(s) && Enabled(s, e)
    ensures ReplayInv(Step(s, e))
  {
    StepKeepsSpent(s, e);
    hide SysInv, Step, Enabled, UsedWasSpent, SuspectIsStale;
    forall c | c in Step(s, e).clients ensures SuspectIsStale(Step(s, e), Step(s, e).clients[c]) {
      StepKeepsSuspect(s, e, c);
    }
  }

  lemma NothingUsed()
    ensures ReplayInv(Init)
  {
    forall j ensures !HasStatus(Init.db, j, RotationUsed) {}
  }

  lemma {:induction false} ReachableReplay(r: Run, i: nat)
    requires IsRun(r) && i < |r.states|
    ensures ReplayInv(r.states[i])
  {
    hide SysInv, ReplayInv, Step, Enabled;
    if i == 0 {
      NothingUsed();
    } else {
      ReachableReplay(r, i - 1);
      Reachable(r, i - 1);
      assert StepAt(r, i - 1);
      StepKeepsReplayInv(r.states[i - 1], r.events[i - 1]);
    }
  }

  /**
   Whenever the answer to a replay is about to close an active family, another request has already
   rotated the very token that was presented: used twice, in every interleaving.
   */
  lemma NoFalseAlarm(r: Run, i: nat, c: ClientId) returns (d: ClientId)
    requires IsRun(r) && i < |r.events| && r.events[i] == RevokeReplayed(c) && StepAt(r, i)
    requires IsActive(r.states[i].db, r.states[i].clients[c].claims.family)
    ensures var s := r.states[i];
            && d != c && d in s.clients && (s.clients[d].Committed? || s.clients[d].Returned?)
            && s.clients[d].claims == s.clients[c].claims
  {
    var s := r.states[i];
    Reachable(r, i);
    ReachableReplay(r, i);
    d := SpenderOf(s, c);
  }

  lemma SpenderOf(s: Sys, c: ClientId) returns (d: ClientId)
    requires SysInv(s) && ReplayInv(s) && c in s.clients && s.clients[c].Replaying?
    requires IsActive(s.db, s.clients[c].claims.family)
    ensures d != c && d in s.clients && (s.clients[d].Committed? || s.clients[d].Returned?)
    ensures s.clients[d].claims == s.clients[c].claims
  {
    var snap := s.clients[c].snap;
    assert ClientOk(s, s.clients[c]) && SuspectIsStale(s, s.clients[c]);
    StaleIsUsed(s, s.clients[c].claims, snap);
    assert snap.jti in s.db.rotations;
    d :| SpentBy(s, d, snap.jti);
    assert ClientOk(s, s.clients[d]);
    hide DbInv, RowsSigned, ClientsOk;
  }

  lemma StaleIsUsed(s: Sys, claims: Claims, snap: Snapshot)
    requires DbInv(s.db) && SnapOk(s, claims, snap) && RowIsStale(s, claims, snap) && IsActive(s.db, claims.family)
    ensures HasStatus(s.db, snap.jti, RotationUsed)
  {
  }
}
