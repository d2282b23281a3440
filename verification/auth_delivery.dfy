/**
 Why no revocation comes early in practice: a refresh token leaves the server only after the session
 row of its family is written, and forced revocations take their targets from session rows.
 */
module AuthDelivery {
  import opened Options
  import opened AuthModel
  import opened AuthInvariants
  import opened AuthProtocol
  import opened AuthSteps
  import opened AuthSessions
  import opened AuthRuns

  /** Some finished request has handed this token out. */
  ghost predicate Delivered(s: Sys, claims: Claims) {
    exists d :: d in s.clients && HandedOut(s, s.clients[d], claims)
  }

  predicate HandedOut(s: Sys, client: Client, claims: Claims) {
    match client
    case SignedIn(own) => own == claims
    case Returned(_, _, next) => next == claims.jti && next in s.signed && s.signed[next] == claims
    case _ => false
  }

  /** Signed tokens are presented only once handed out; families to revoke come from session rows. */
  ghost predicate Orderly(s: Sys, e: Event) {
    match e
    case Present(_, claims) => IsSigned(s, claims) ==> Delivered(s, claims)
    case RevokeFamily(fid, _, _) => fid in s.db.sessions
    case _ => true
  }

  /** The family of a refresh under way. */
  function Tracked(client: Client): Option<FamilyId> {
    match client
    case Decoded(claims) => Some(claims.family)
    case Verified(claims) => Some(claims.family)
    case Found(claims, _) => Some(claims.family)
    case Checked(claims, _) => Some(claims.family)
    case Replaying(claims, _) => Some(claims.family)
    case Committed(claims, _, _) => Some(claims.family)
    case Returned(claims, _, _) => Some(claims.family)
    case _ => None
  }

  ghost predicate HasSession(s: Sys, client: Client) {
    Tracked(client).Some? ==> Tracked(client).value in s.db.sessions
  }

  /** Every refresh under way, and every expiry still to run, belongs to a family with a session row. */
  ghost predicate Backed(s: Sys) {
    && (forall c :: c in s.clients ==> HasSession(s, s.clients[c]))
    && (forall f :: f in s.pending ==> f in s.db.sessions)
  }

  /** A request keeps its family; only `Present` starts a new refresh. */
  lemma FamilyIsKept(s: Sys, e: Event, d: ClientId)
    requires Enabled(s, e) && d in Step(s, e).clients && Tracked(Step(s, e).clients[d]).Some?
    ensures (d in s.clients && Tracked(s.clients[d]) == Tracked(Step(s, e).clients[d]))
            || (e.Present? && IsSigned(s, e.claims) && Tracked(Step(s, e).clients[d]) == Some(e.claims.family))
  {
    if WritesTables(e) {
      WritersKeepFamily(s, e, d);
    } else if e.Check? {
      CheckKeepsFamily(s, e.c, d);
    } else {
      hide DoStartSignIn, DoWriteRotation, DoWriteSession, DoSwap, DoRevokeReplayed, Revoke, Expire, Touch;
    }
  }

  lemma CheckKeepsFamily(s: Sys, c: ClientId, d: ClientId)
    requires c in s.clients && s.clients[c].Found?
    requires d in DoCheck(s, c).clients && Tracked(DoCheck(s, c).clients[d]).Some?
    ensures d in s.clients && Tracked(s.clients[d]) == Tracked(DoCheck(s, c).clients[d])
  {
    hide CheckRotation;
  }

  lemma SwapKeepsFamily(s: Sys, e: Event, d: ClientId)
    requires e.Swap? && e.c in s.clients && s.clients[e.c].Checked?
    requires d in DoSwap(s, e).clients && Tracked(DoSwap(s, e).clients[d]).Some?
    ensures d in s.clients && Tracked(s.clients[d]) == Tracked(DoSwap(s, e).clients[d])
  {
    hide Rotate;
  }

  lemma WritersKeepFamily(s: Sys, e: Event, d: ClientId)
    requires Enabled(s, e) && WritesTables(e) && d in Step(s, e).clients && Tracked(Step(s, e).clients[d]).Some?
    ensures d in s.clients && Tracked(s.clients[d]) == Tracked(Step(s, e).clients[d])
  {
    if e.Swap? {
      SwapKeepsFamily(s, e, d);
    } else {
      hide DoSwap, CreateFamily, CreateRotation, CreateSession, Revoke;
    }
  }

  lemma NewlyPending(s: Sys, e: Event, f: FamilyId)
    requires Enabled(s, e) && f in Step(s, e).pending && f !in s.pending
    ensures e.Check? && f == s.clients[e.c].snap.rotation.familyId
  {
    if WritesTables(e) {
      WritersAddNoExpiry(s, e);
    } else {
      hide DoStartSignIn, DoWriteRotation, DoWriteSession, DoSwap, DoRevokeReplayed, Revoke, Expire, Touch;
    }
  }

  lemma PendingHasSession(s: Sys, e: Event, f: FamilyId)
    requires SysInv(s) && Backed(s) && Enabled(s, e) && f in Step(s, e).pending
    ensures f in s.db.sessions
  {
    hide Step;
    if f !in s.pending {
      NewlyPending(s, e, f);
      assert ClientOk(s, s.clients[e.c]) && HasSession(s, s.clients[e.c]);
    }
  }

  lemma WritersAddNoExpiry(s: Sys, e: Event)
    requires Enabled(s, e) && WritesTables(e)
    ensures Step(s, e).pending == s.pending
  {
    hide CreateFamily, CreateRotation, CreateSession, Rotate, Revoke;
  }

  /** A token that was handed out belongs to a family with a session row. */
  lemma DeliveredHasSession(s: Sys, claims: Claims)
    requires SysInv(s) && Backed(s) && Delivered(s, claims)
    ensures claims.family in s.db.sessions
  {
    var d :| d in s.clients && HandedOut(s, s.clients[d], claims);
    assert ClientOk(s, s.clients[d]) && HasSession(s, s.clients[d]);
    hide DbInv, ClientsOk;
  }

  lemma SessionsStay(s: Sys, t: Sys)
    requires SysEvolves(s, t)
    ensures forall f :: f in s.db.sessions ==> f in t.db.sessions
  {
  }

  lemma StepKeepsBacked(s: Sys, e: Event)
    requires SysInv(s) && Backed(s) && Enabled(s, e) && Orderly(s, e)
    ensures Backed(Step(s, e))
  {
    StepKeepsInv(s, e);
    SessionsStay(s, Step(s, e));
    var t := Step(s, e);
    hide SysInv, SysEvolves, Step, Enabled, Delivered;
    forall d | d in t.clients ensures HasSession(t, t.clients[d]) {
      if Tracked(t.clients[d]).Some? {
        FamilyIsKept(s, e, d);
        if d in s.clients && Tracked(s.clients[d]) == Tracked(t.clients[d]) {
          assert HasSession(s, s.clients[d]);
        } else {
          DeliveredHasSession(s, e.claims);
        }
      }
    }
    forall f | f in t.pending ensures f in t.db.sessions {
      PendingHasSession(s, e, f);
    }
  }

  /** In such a state no step is early. */
  lemma OrderlyIsNotEarly(s: Sys, e: Event)
    requires SysInv(s) && Backed(s) && Enabled(s, e) && Orderly(s, e)
    ensures !Early(s, e)
  {
    if e.RevokeReplayed? {
      assert ClientOk(s, s.clients[e.c]) && HasSession(s, s.clients[e.c]);
    }
  }

  ghost predicate OrderlyRun(r: Run)
    requires IsRun(r)
  {
    forall i :: 0 <= i < |r.events| && StepAt(r, i) ==> Orderly(r.states[i], r.events[i])
  }

  lemma {:induction false} ReachableBacked(r: Run, i: nat)
    requires IsRun(r) && OrderlyRun(r) && i < |r.states|
    ensures Backed(r.states[i])
  {
    hide SysInv, Backed, Step, Enabled, Orderly;
    if i == 0 {
      NothingToBack();
    } else {
      ReachableBacked(r, i - 1);
      Reachable(r, i - 1);
      assert StepAt(r, i - 1);
      StepKeepsBacked(r.states[i - 1], r.events[i - 1]);
    }
  }

  lemma NothingToBack()
    ensures Backed(Init)
  {
  }

  /** With tokens used only after they were handed out and targets taken from session rows, sessions always mirror families. */
  lemma OrderlyRunsMirror(r: Run, i: nat)
    requires IsRun(r) && OrderlyRun(r) && i < |r.states|
    ensures NoneEarly(r) && SessionInv(r.states[i].db)
  {
    hide SysInv, SessionInv, Backed, Step, Enabled, Orderly, Early;
    forall k | 0 <= k < |r.events| && StepAt(r, k) ensures !Early(r.states[k], r.events[k]) {
      ReachableBacked(r, k);
      Reachable(r, k);
      OrderlyIsNotEarly(r.states[k], r.events[k]);
    }
    SessionsMirror(r, i);
  }
}
