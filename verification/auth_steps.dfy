/** Every step of the machine keeps its invariant, and only moves it forward. */
module AuthSteps {
  import opened Options
  import opened AuthModel
  import opened AuthInvariants
  import opened AuthProtocol

  // ---------- sign-in ----------

  lemma StartSignInKeeps(s: Sys, e: Event)
    requires SysInv(s) && e.StartSignIn? && e.jti !in s.signed
    ensures SysInv(DoStartSignIn(s, e)) && SysEvolves(s, DoStartSignIn(s, e))
  {
    var t := DoStartSignIn(s, e);
    assert ClientsOk(s);
    StartSignInTables(s, e);
    hide *;
    StartSignInOk(s, e);
    OneClientMoved(s, t, e.c, t.clients[e.c]);
  }

  lemma StartSignInOk(s: Sys, e: Event)
    requires e.StartSignIn?
    ensures e.c in DoStartSignIn(s, e).clients && ClientOk(DoStartSignIn(s, e), DoStartSignIn(s, e).clients[e.c])
  {
  }

  lemma StartSignInTables(s: Sys, e: Event)
    requires SysInv(s) && e.StartSignIn? && e.jti !in s.signed
    ensures var t := DoStartSignIn(s, e);
            && DbInv(t.db) && SysEvolves(s, t) && RowsSigned(t)
            && e.c in t.clients && t.clients == s.clients[e.c := t.clients[e.c]]
  {
    hide DbInv, Evolves;
    if e.fid !in s.db.families {
      CreateFamilyKeeps(s.db, e.fid, e.user, e.tenant, e.expiresAt);
    } else {
      SameDbEvolves(s.db);
    }
  }

  lemma WriteRotationKeeps(s: Sys, c: ClientId)
    requires SysInv(s) && c in s.clients && s.clients[c].NeedsRotation?
    ensures SysInv(DoWriteRotation(s, c)) && SysEvolves(s, DoWriteRotation(s, c))
  {
    var t := DoWriteRotation(s, c);
    assert ClientOk(s, s.clients[c]);
    WriteRotationTables(s, c);
    assert ClientOk(t, t.clients[c]);
    hide *;
    OneClientMoved(s, t, c, t.clients[c]);
  }

  lemma WriteRotationTables(s: Sys, c: ClientId)
    requires SysInv(s) && c in s.clients && s.clients[c].NeedsRotation? && ClientOk(s, s.clients[c])
    ensures var t := DoWriteRotation(s, c);
            DbInv(t.db) && SysEvolves(s, t) && RowsSigned(t) && t.clients == s.clients[c := t.clients[c]]
  {
    WriteRotationDb(s, c);
    WriteRotationSigned(s, c);
    hide DbInv, Evolves, ClientsOk, SysEvolves, RowsSigned, ClientOk;
    TablesMoved(s, DoWriteRotation(s, c));
  }

  lemma WriteRotationSigned(s: Sys, c: ClientId)
    requires RowsSigned(s) && c in s.clients && s.clients[c].NeedsRotation? && ClientOk(s, s.clients[c])
    ensures RowsSigned(DoWriteRotation(s, c))
  {
  }

  lemma WriteRotationDb(s: Sys, c: ClientId)
    requires DbInv(s.db) && c in s.clients && s.clients[c].NeedsRotation? && ClientOk(s, s.clients[c])
    ensures var t := DoWriteRotation(s, c); DbInv(t.db) && Evolves(s.db, t.db)
  {
    var w := s.clients[c];
    hide DbInv, Evolves;
    if CreateRotation(s.db, w.claims.family, w.claims.generation, w.claims.jti, w.expiresAt, None).Some? {
      CreateFirstRotationKeeps(s.db, w.claims.family, w.claims.jti, w.expiresAt);
    } else {
      SameDbEvolves(s.db);
    }
  }

  lemma WriteSessionKeeps(s: Sys, e: Event)
    requires SysInv(s) && e.WriteSession? && e.c in s.clients && s.clients[e.c].NeedsSession?
    ensures SysInv(DoWriteSession(s, e)) && SysEvolves(s, DoWriteSession(s, e))
  {
    var w := s.clients[e.c];
    var t := DoWriteSession(s, e);
    assert ClientOk(s, w);
    WriteSessionTables(s, e);
    assert ClientOk(t, t.clients[e.c]);
    hide *;
    OneClientMoved(s, t, e.c, t.clients[e.c]);
  }

  lemma WriteSessionTables(s: Sys, e: Event)
    requires SysInv(s) && e.WriteSession? && e.c in s.clients && s.clients[e.c].NeedsSession?
    ensures var t := DoWriteSession(s, e);
            DbInv(t.db) && SysEvolves(s, t) && RowsSigned(t) && t.clients == s.clients[e.c := t.clients[e.c]]
  {
    var w := s.clients[e.c];
    if CreateSession(s.db, w.claims.family, w.user, w.tenant, e.ctx, e.access, e.accessExp, s.now).Some? {
      CreateSessionKeeps(s.db, w.claims.family, w.user, w.tenant, e.ctx, e.access, e.accessExp, s.now);
    }
    hide DbInv;
  }

  // ---------- refresh: the steps that only read the tables ----------

  lemma PresentKeeps(s: Sys, c: ClientId, claims: Claims)
    requires SysInv(s) && c !in s.clients
    ensures SysInv(DoPresent(s, c, claims)) && SysEvolves(s, DoPresent(s, c, claims))
  {
    var t := DoPresent(s, c, claims);
    OneReaderMoved(s, t, c, t.clients[c]) by { hide SysInv; }
    hide *;
  }

  lemma AskBlacklistKeeps(s: Sys, c: ClientId)
    requires SysInv(s) && c in s.clients && s.clients[c].Decoded?
    ensures SysInv(DoAskBlacklist(s, c)) && SysEvolves(s, DoAskBlacklist(s, c))
  {
    var t := DoAskBlacklist(s, c);
    assert ClientOk(s, s.clients[c]);
    OneReaderMoved(s, t, c, t.clients[c]) by { hide SysInv; }
    hide *;
  }

  lemma LookupKeeps(s: Sys, c: ClientId)
    requires SysInv(s) && c in s.clients && s.clients[c].Verified?
    ensures SysInv(DoLookup(s, c)) && SysEvolves(s, DoLookup(s, c))
  {
    var t := DoLookup(s, c);
    assert ClientOk(s, s.clients[c]) && RowsSigned(s);
    LookupReads(s, c);
    hide *;
    LookupOk(s, c);
    OneReaderMoved(s, t, c, t.clients[c]);
  }

  lemma LookupOk(s: Sys, c: ClientId)
    requires RowsSigned(s) && c in s.clients && s.clients[c].Verified? && ClientOk(s, s.clients[c])
    ensures c in DoLookup(s, c).clients && ClientOk(DoLookup(s, c), DoLookup(s, c).clients[c])
  {
  }

  lemma LookupReads(s: Sys, c: ClientId)
    requires c in s.clients && s.clients[c].Verified?
    ensures SameTables(s, DoLookup(s, c)) && DoLookup(s, c).clients == s.clients[c := DoLookup(s, c).clients[c]]
  {
  }

  lemma CheckOk(s: Sys, c: ClientId)
    requires c in s.clients && s.clients[c].Found? && ClientOk(s, s.clients[c])
    ensures ClientOk(DoCheck(s, c), DoCheck(s, c).clients[c])
  {
    SnapSame(s, DoCheck(s, c), s.clients[c].claims, s.clients[c].snap);
    if CheckRotation(s.clients[c].claims, s.clients[c].snap, s.now).Replay?
       || CheckRotation(s.clients[c].claims, s.clients[c].snap, s.now).Current? {
      hide SnapOk;
    }
  }

  lemma SnapSame(s: Sys, t: Sys, claims: Claims, snap: Snapshot)
    requires SnapOk(s, claims, snap) && t.db == s.db && t.signed == s.signed
    ensures SnapOk(t, claims, snap)
  {
  }

  lemma CheckReads(s: Sys, c: ClientId)
    requires c in s.clients && s.clients[c].Found?
    ensures SameTables(s, DoCheck(s, c)) && DoCheck(s, c).clients == s.clients[c := DoCheck(s, c).clients[c]]
  {
  }

  lemma CheckKeeps(s: Sys, c: ClientId)
    requires SysInv(s) && c in s.clients && s.clients[c].Found?
    ensures SysInv(DoCheck(s, c)) && SysEvolves(s, DoCheck(s, c))
  {
    var t := DoCheck(s, c);
    assert ClientOk(s, s.clients[c]);
    CheckOk(s, c) by { hide ClientOk, SysInv; }
    CheckReads(s, c);
    hide *;
    OneReaderMoved(s, t, c, t.clients[c]);
  }

  lemma DenyAccessKeeps(s: Sys, c: ClientId)
    requires SysInv(s) && c in s.clients && s.clients[c].Checked?
    ensures SysInv(DoDenyAccess(s, c)) && SysEvolves(s, DoDenyAccess(s, c))
  {
    var t := DoDenyAccess(s, c);
    assert ClientOk(s, s.clients[c]);
    assert ClientOk(t, t.clients[c]);
    OneReaderMoved(s, t, c, t.clients[c]) by { hide SysInv, ClientOk; }
    hide *;
  }

  lemma FinishKeeps(s: Sys, c: ClientId)
    requires SysInv(s) && c in s.clients && s.clients[c].Committed?
    ensures SysInv(DoFinish(s, c)) && SysEvolves(s, DoFinish(s, c))
  {
    var t := DoFinish(s, c);
    assert ClientOk(s, s.clients[c]);
    assert ClientOk(t, t.clients[c]);
    OneReaderMoved(s, t, c, t.clients[c]) by { hide SysInv, ClientOk; }
    hide *;
  }

  // ---------- refresh: the swap ----------

  lemma SwapsOwn(s: Sys, e: Event)
    requires RowsSigned(s) && e.Swap? && e.c in s.clients && s.clients[e.c].Checked? && e.next !in s.signed
    requires ClientOk(s, s.clients[e.c])
    ensures SwapsOwnRow(s.db, SwapInput(s, s.clients[e.c].snap, e))
  {
  }

  lemma SwapKeeps(s: Sys, e: Event)
    requires SysInv(s) && e.Swap? && e.c in s.clients && s.clients[e.c].Checked? && e.next !in s.signed
    ensures SysInv(DoSwap(s, e)) && SysEvolves(s, DoSwap(s, e))
  {
    assert ClientOk(s, s.clients[e.c]);
    SwapsOwn(s, e);
    RotateNeverAborts(s.db, SwapInput(s, s.clients[e.c].snap, e));
    assert DoSwap(s, e).clients == s.clients[e.c := DoSwap(s, e).clients[e.c]];
    hide *;
    SwapTables(s, e);
    SwapKeepsSignatures(s, e);
    SwapMovesClient(s, e);
    OneClientMoved(s, DoSwap(s, e), e.c, DoSwap(s, e).clients[e.c]);
  }

  lemma SwapTables(s: Sys, e: Event)
    requires DbInv(s.db) && e.Swap? && e.c in s.clients && s.clients[e.c].Checked? && e.next !in s.signed
    requires SwapsOwnRow(s.db, SwapInput(s, s.clients[e.c].snap, e))
    ensures DbInv(DoSwap(s, e).db) && SysEvolves(s, DoSwap(s, e))
  {
    var d := SwapInput(s, s.clients[e.c].snap, e);
    RotateEvolves(s.db, d);
    RotateKeeps(s.db, d);
    hide DbInv, Evolves, Rotate;
  }

  lemma SwapKeepsSignatures(s: Sys, e: Event)
    requires RowsSigned(s) && e.Swap? && e.c in s.clients && s.clients[e.c].Checked? && e.next !in s.signed
    requires SwapsOwnRow(s.db, SwapInput(s, s.clients[e.c].snap, e))
    ensures RowsSigned(DoSwap(s, e))
  {
  }

  lemma SwapMovesClient(s: Sys, e: Event)
    requires e.Swap? && e.c in s.clients && s.clients[e.c].Checked? && ClientOk(s, s.clients[e.c])
    requires SysEvolves(s, DoSwap(s, e))
    requires !Rotate(s.db, SwapInput(s, s.clients[e.c].snap, e)).1.Aborted?
    ensures ClientOk(DoSwap(s, e), DoSwap(s, e).clients[e.c])
  {
    SnapStable(s, DoSwap(s, e), s.clients[e.c].claims, s.clients[e.c].snap);
    hide SysEvolves, SnapOk;
  }

  // ---------- refresh: the revocation that answers a replay ----------

  lemma RevokeReplayedKeeps(s: Sys, c: ClientId)
    requires SysInv(s) && c in s.clients && s.clients[c].Replaying?
    ensures SysInv(DoRevokeReplayed(s, c)) && SysEvolves(s, DoRevokeReplayed(s, c))
  {
    var r := s.clients[c];
    var t := DoRevokeReplayed(s, c);
    assert ClientOk(s, r);
    assert t.clients == s.clients[c := Refused(ReplayFound, r.claims, Some(r.snap))];
    hide *;
    RevokeReplayedTables(s, c);
    RevokeReplayedClientOk(s, c);
    OneClientMoved(s, t, c, Refused(ReplayFound, r.claims, Some(r.snap)));
  }

  lemma RevokeReplayedTables(s: Sys, c: ClientId)
    requires DbInv(s.db) && RowsSigned(s) && c in s.clients && s.clients[c].Replaying? && ClientOk(s, s.clients[c])
    ensures var t := DoRevokeReplayed(s, c); DbInv(t.db) && RowsSigned(t) && SysEvolves(s, t)
  {
    var r := s.clients[c];
    var t := DoRevokeReplayed(s, c);
    RevokeEvolves(s.db, r.snap.rotation.familyId, ReplayDetected, s.now, Some(r.snap.jti), None);
    RevokeKeeps(s.db, r.snap.rotation.familyId, ReplayDetected, s.now, Some(r.snap.jti), None);
    RevokedSigned(s, t, r.snap.rotation.familyId, ReplayDetected, Some(r.snap.jti), None);
    hide DbInv, Evolves, RowsSigned;
  }

  lemma RevokedSigned(s: Sys, t: Sys, fid: FamilyId, reason: Reason, replayed: Option<Jti>, actor: Option<UserId>)
    requires RowsSigned(s) && t.signed == s.signed
    requires replayed.Some? ==> replayed.value in s.db.rotations
    requires t.db == Revoke(s.db, fid, reason, s.now, replayed, actor).value
    ensures RowsSigned(t)
  {
  }

  lemma RevokeReplayedClientOk(s: Sys, c: ClientId)
    requires c in s.clients && s.clients[c].Replaying? && ClientOk(s, s.clients[c])
    requires SysEvolves(s, DoRevokeReplayed(s, c))
    ensures var r := s.clients[c]; ClientOk(DoRevokeReplayed(s, c), Refused(ReplayFound, r.claims, Some(r.snap)))
  {
    SnapStable(s, DoRevokeReplayed(s, c), s.clients[c].claims, s.clients[c].snap);
    hide SysEvolves;
  }

  // ---------- steps nobody is waiting for ----------

  lemma IdleStepKeeps(s: Sys, t: Sys)
    requires SysInv(s) && SameTables(s, t) && t.clients == s.clients
    ensures SysInv(t) && SysEvolves(s, t)
  {
    SameTablesEvolve(s, t);
    hide RowsSigned, SysEvolves, ClientsOk;
    NoClientMoved(s, t);
  }

  lemma RevokeFamilyKeeps(s: Sys, fid: FamilyId, reason: Reason, actor: Option<UserId>)
    requires SysInv(s)
    ensures var t := DoRevokeFamily(s, fid, reason, actor); SysInv(t) && SysEvolves(s, t)
  {
    var t := DoRevokeFamily(s, fid, reason, actor);
    hide DbInv, Evolves, RowsSigned, SysEvolves, ClientsOk, Revoke;
    RevokeEvolves(s.db, fid, reason, s.now, None, actor);
    RevokeKeeps(s.db, fid, reason, s.now, None, actor);
    RevokedSigned(s, t, fid, reason, None, actor);
    TablesMoved(s, t);
    NoClientMoved(s, t);
  }

  lemma ExpireFamilyKeeps(s: Sys, fid: FamilyId)
    requires SysInv(s)
    ensures SysInv(DoExpireFamily(s, fid)) && SysEvolves(s, DoExpireFamily(s, fid))
  {
    ExpirePending(s, fid);
    hide DbInv, Evolves, SysEvolves, ClientsOk, Expire;
    ExpireEvolves(s.db, fid);
    ExpireKeeps(s.db, fid);
    SameRowsSigned(s, DoExpireFamily(s, fid));
    hide RowsSigned;
    NoClientMoved(s, DoExpireFamily(s, fid));
  }

  /** A pending expiry that has run leaves its family settled. */
  lemma ExpirePending(s: Sys, fid: FamilyId)
    ensures SysEvolves(s, DoExpireFamily(s, fid))
  {
    ExpireEvolves(s.db, fid);
    hide Evolves;
  }

  lemma TouchSessionKeeps(s: Sys, fid: FamilyId, ctx: Context, access: Option<Jti>, accessExp: Option<Time>)
    requires SysInv(s)
    ensures var t := s.(db := Touch(s.db, fid, s.now, ctx, access, accessExp)); SysInv(t) && SysEvolves(s, t)
  {
    var t := s.(db := Touch(s.db, fid, s.now, ctx, access, accessExp));
    hide DbInv, Evolves, SysEvolves, ClientsOk, Touch;
    TouchEvolves(s.db, fid, s.now, ctx, access, accessExp);
    TouchKeeps(s.db, fid, s.now, ctx, access, accessExp);
    SameRowsSigned(s, t);
    TablesMoved(s, t);
    hide RowsSigned;
    NoClientMoved(s, t);
  }

  /** The inductive step of every theorem about runs. */
  lemma StepKeepsInv(s: Sys, e: Event)
    requires SysInv(s) && Enabled(s, e)
    ensures SysInv(Step(s, e)) && SysEvolves(s, Step(s, e))
  {
    hide SysInv, SysEvolves;
    match e
    case StartSignIn(_, _, _, _, _, _, _) => StartSignInKeeps(s, e);
    case WriteRotation(c) => WriteRotationKeeps(s, c);
    case WriteSession(_, _, _, _) => WriteSessionKeeps(s, e);
    case Present(c, claims) => PresentKeeps(s, c, claims);
    case AskBlacklist(c) => AskBlacklistKeeps(s, c);
    case Lookup(c) => LookupKeeps(s, c);
    case Check(c) => CheckKeeps(s, c);
    case DenyAccess(c) => DenyAccessKeeps(s, c);
    case Swap(_, _, _, _, _, _, _, _) => SwapKeeps(s, e);
    case RevokeReplayed(c) => RevokeReplayedKeeps(s, c);
    case Finish(c) => FinishKeeps(s, c);
    case RevokeFamily(fid, reason, actor) => RevokeFamilyKeeps(s, fid, reason, actor);
    case ExpireFamily(fid) => ExpireFamilyKeeps(s, fid);
    case TouchSession(fid, ctx, access, accessExp) => TouchSessionKeeps(s, fid, ctx, access, accessExp);
    case _ => IdleStepKeeps(s, Step(s, e));
  }
}
