/** What the token tables keep: the rotation chain of every family, and how rows may change over time. */
module AuthInvariants {
  import opened Options
  import opened AuthModel

  ghost predicate HasStatus(db: Db, j: Jti, status: RotationStatus) {
    j in db.rotations && db.rotations[j].status == status
  }

  // ---------- the chain invariant ----------

  /** Rows refer to existing rows, and a rotation is at most as new as its family says. */
  ghost predicate RowsLinked(db: Db) {
    && (forall j :: j in db.rotations ==>
          && db.rotations[j].familyId in db.families
          && db.rotations[j].generation <= db.families[db.rotations[j].familyId].currentGeneration)
    && (forall f :: f in db.sessions ==> f in db.families)
  }

  /** Generation zero has no parent; any other generation has the previous one of its family. */
  ghost predicate ParentLinked(db: Db, j: Jti) {
    j in db.rotations ==>
    var r := db.rotations[j];
    if r.generation == 0 then r.parent == None
    else
      && r.parent.Some? && r.parent.value in db.rotations
      && db.rotations[r.parent.value].familyId == r.familyId
      && db.rotations[r.parent.value].generation == r.generation - 1
  }

  ghost predicate ParentsLinked(db: Db) {
    forall j {:trigger ParentLinked(db, j)} :: ParentLinked(db, j)
  }

  /** The unique index on (family, generation). */
  ghost predicate GenerationsUnique(db: Db) {
    forall j, k | j in db.rotations && k in db.rotations :: SameLink(db.rotations[j], db.rotations[k]) ==> j == k
  }

  predicate SameLink(r: Rotation, s: Rotation) {
    r.familyId == s.familyId && r.generation == s.generation
  }

  /** A family that was ever rotated has the rotation its counter names. */
  ghost predicate HeadsExist(db: Db) {
    forall f {:trigger HeadExists(db, f)} :: HeadExists(db, f)
  }

  ghost predicate HeadExists(db: Db, f: FamilyId) {
    f in db.families && db.families[f].currentGeneration > 0 ==>
      GenerationTaken(db, f, db.families[f].currentGeneration)
  }

  /** Only the newest rotation can be active; in an active family it is, and all older ones are used. */
  ghost predicate StatusesChained(db: Db) {
    forall j :: j in db.rotations && db.rotations[j].familyId in db.families ==>
      var r := db.rotations[j];
      var f := db.families[r.familyId];
      && (r.generation < f.currentGeneration ==> !r.status.RotationActive?)
      && (f.status.FamilyActive? ==>
            r.status == if r.generation == f.currentGeneration then RotationActive else RotationUsed)
  }

  ghost predicate DbInv(db: Db) {
    RowsLinked(db) && ParentsLinked(db) && GenerationsUnique(db) && HeadsExist(db) && StatusesChained(db)
  }

  // ---------- how the tables may evolve ----------

  ghost predicate FamiliesEvolve(a: Db, b: Db) {
    forall f :: f in a.families ==>
      && f in b.families
      && a.families[f].currentGeneration <= b.families[f].currentGeneration
      && b.families[f].userId == a.families[f].userId
      && (!a.families[f].status.FamilyActive? ==> b.families[f] == a.families[f])
  }

  ghost predicate RotationsEvolve(a: Db, b: Db) {
    forall j :: j in a.rotations ==>
      && j in b.rotations
      && b.rotations[j].familyId == a.rotations[j].familyId
      && b.rotations[j].generation == a.rotations[j].generation
      && b.rotations[j].parent == a.rotations[j].parent
      && b.rotations[j].expiresAt == a.rotations[j].expiresAt
      && (!a.rotations[j].status.RotationActive? ==> !b.rotations[j].status.RotationActive?)
      && (a.rotations[j].status.RotationReplayed? ==> b.rotations[j].status.RotationReplayed?)
  }

  /** A family that is no longer active and already has a rotation gets no further one. */
  ghost predicate NoLateRotations(a: Db, b: Db) {
    forall j | j in b.rotations && j !in a.rotations && b.rotations[j].familyId in a.families ::
      !IsActive(a, b.rotations[j].familyId) ==> !HasRotation(a, b.rotations[j].familyId)
  }

  ghost predicate SessionsEvolve(a: Db, b: Db) {
    forall f :: f in a.sessions ==>
      && f in b.sessions
      && (!a.sessions[f].status.SessionActive? ==> b.sessions[f] == a.sessions[f])
  }

  ghost predicate Evolves(a: Db, b: Db) {
    FamiliesEvolve(a, b) && RotationsEvolve(a, b) && NoLateRotations(a, b) && SessionsEvolve(a, b)
  }

  lemma EvolvesTransitive(a: Db, b: Db, c: Db)
    requires Evolves(a, b) && Evolves(b, c)
    ensures Evolves(a, c)
  {
    forall j | j in c.rotations && j !in a.rotations && c.rotations[j].familyId in a.families
               && !IsActive(a, c.rotations[j].familyId)
      ensures !HasRotation(a, c.rotations[j].familyId)
    {
      if HasRotation(a, c.rotations[j].familyId) {
        HasRotationStays(a, b, c.rotations[j].familyId);
      }
    }
  }

  lemma HasRotationStays(a: Db, b: Db, f: FamilyId)
    requires RotationsEvolve(a, b) && HasRotation(a, f)
    ensures HasRotation(b, f)
  {
    var k :| k in a.rotations && a.rotations[k].familyId == f;
    assert k in b.rotations && b.rotations[k].familyId == f;
  }

  // ---------- consequences of the chain ----------

  /** Below any rotation the whole chain is there. */
  lemma {:induction false} ChainBelow(db: Db, j: Jti, g: nat)
    requires ParentsLinked(db) && j in db.rotations && g <= db.rotations[j].generation
    ensures GenerationTaken(db, db.rotations[j].familyId, g)
    decreases db.rotations[j].generation
  {
    if g < db.rotations[j].generation {
      assert ParentLinked(db, j);
      ChainBelow(db, db.rotations[j].parent.value, g);
    }
  }

  /** A family without a rotation of generation zero has none at all, and was never rotated. */
  lemma NoFirstNoRotation(db: Db, f: FamilyId)
    requires DbInv(db) && f in db.families && !GenerationTaken(db, f, 0)
    ensures !HasRotation(db, f) && db.families[f].currentGeneration == 0
  {
    assert HeadExists(db, f);
    if j :| j in db.rotations && db.rotations[j].familyId == f {
      ChainBelow(db, j, 0);
    }
  }

  /** Entry g of the list is the rotation of generation g, and its parent is the entry before it. */
  ghost predicate IsLink(db: Db, f: FamilyId, jtis: seq<Jti>, g: nat)
    requires g < |jtis|
  {
    && jtis[g] in db.rotations
    && db.rotations[jtis[g]].familyId == f
    && db.rotations[jtis[g]].generation == g
    && db.rotations[jtis[g]].parent == (if g == 0 then None else Some(jtis[g - 1]))
  }

  /** What a reader may rely on about one family: its rotations are exactly generations 0..current, linked. */
  ghost predicate Chain(db: Db, f: FamilyId, jtis: seq<Jti>)
    requires f in db.families
  {
    && |jtis| == db.families[f].currentGeneration + 1
    && (forall g :: 0 <= g < |jtis| ==> IsLink(db, f, jtis, g))
    && (forall j :: j in db.rotations && db.rotations[j].familyId == f ==> j in jtis)
  }

  lemma {:induction false} PrefixOfChain(db: Db, f: FamilyId, head: Jti) returns (jtis: seq<Jti>)
    requires ParentsLinked(db) && head in db.rotations && db.rotations[head].familyId == f
    ensures |jtis| == db.rotations[head].generation + 1 && jtis[|jtis| - 1] == head
    ensures forall g :: 0 <= g < |jtis| ==> IsLink(db, f, jtis, g)
    decreases db.rotations[head].generation
  {
    assert ParentLinked(db, head);
    if db.rotations[head].generation == 0 {
      jtis := [head];
    } else {
      var below := PrefixOfChain(db, f, db.rotations[head].parent.value);
      jtis := below + [head];
      forall g | 0 <= g < |jtis| ensures IsLink(db, f, jtis, g) {
        if g < |below| { assert IsLink(db, f, below, g); }
      }
    }
  }

  /** Every family that has a rotation has a full chain; in an active one only the last link is active. */
  lemma FamilyHasChain(db: Db, f: FamilyId) returns (jtis: seq<Jti>)
    requires DbInv(db) && f in db.families && HasRotation(db, f)
    ensures Chain(db, f, jtis)
    ensures IsActive(db, f) ==>
      forall g :: 0 <= g < |jtis| ==> HasStatus(db, jtis[g], if g == |jtis| - 1 then RotationActive else RotationUsed)
  {
    var current := db.families[f].currentGeneration;
    if current == 0 {
      var j :| j in db.rotations && db.rotations[j].familyId == f;
      assert GenerationTaken(db, f, 0);
    }
    assert HeadExists(db, f);
    assert GenerationTaken(db, f, current);
    var head :| head in db.rotations && db.rotations[head].familyId == f && db.rotations[head].generation == current;
    jtis := PrefixOfChain(db, f, head);
    forall j | j in db.rotations && db.rotations[j].familyId == f
      ensures j in jtis
    {
      var g := db.rotations[j].generation;
      assert IsLink(db, f, jtis, g);
      assert SameLink(db.rotations[j], db.rotations[jtis[g]]);
    }
    forall g | 0 <= g < |jtis|
      ensures IsActive(db, f) ==>
                HasStatus(db, jtis[g], if g == |jtis| - 1 then RotationActive else RotationUsed)
    {
      assert IsLink(db, f, jtis, g);
    }
  }

  /** No family, half-built or not, ever has two active rotations. */
  lemma AtMostOneActiveRotation(db: Db, j: Jti, k: Jti)
    requires DbInv(db) && j in db.rotations && k in db.rotations
    requires db.rotations[j].familyId == db.rotations[k].familyId
    requires db.rotations[j].status.RotationActive? && db.rotations[k].status.RotationActive?
    ensures j == k
  {
    assert db.rotations[j].familyId in db.families;
  }

  // ---------- carrying the chain over a change of rows ----------

  lemma TakenStays(a: Db, b: Db, f: FamilyId, g: nat)
    requires RotationsEvolve(a, b) && GenerationTaken(a, f, g)
    ensures GenerationTaken(b, f, g)
  {
    var j :| j in a.rotations && a.rotations[j].familyId == f && a.rotations[j].generation == g;
    assert j in b.rotations && b.rotations[j].familyId == f;
  }

  /** Heads stay as long as no counter is moved; new families start at zero. */
  lemma HeadsSurvive(a: Db, b: Db)
    requires HeadsExist(a) && RotationsEvolve(a, b)
    requires forall f :: f in b.families && b.families[f].currentGeneration > 0 ==>
               f in a.families && a.families[f].currentGeneration == b.families[f].currentGeneration
    ensures HeadsExist(b)
  {
    forall f ensures HeadExists(b, f) {
      assert HeadExists(a, f);
      if f in b.families && b.families[f].currentGeneration > 0 {
        TakenStays(a, b, f, b.families[f].currentGeneration);
      }
    }
  }

  lemma ParentsSurvive(a: Db, b: Db)
    requires ParentsLinked(a) && RotationsEvolve(a, b)
    requires forall j :: j in b.rotations && j !in a.rotations ==> ParentLinked(b, j)
    ensures ParentsLinked(b)
  {
    forall j ensures ParentLinked(b, j) {
      assert ParentLinked(a, j);
    }
  }

  /** At most one row is added, and its (family, generation) was free. */
  lemma UniqueSurvives(a: Db, b: Db, next: Jti)
    requires GenerationsUnique(a) && RotationsEvolve(a, b)
    requires forall j :: j in b.rotations ==> j in a.rotations || j == next
    requires next in b.rotations && next !in a.rotations ==>
               !GenerationTaken(a, b.rotations[next].familyId, b.rotations[next].generation)
    ensures GenerationsUnique(b)
  {
    forall j, k | j in b.rotations && k in b.rotations && SameLink(b.rotations[j], b.rotations[k])
      ensures j == k
    {
      if j in a.rotations && k in a.rotations {
        assert SameLink(a.rotations[j], a.rotations[k]);
      }
    }
  }

  /** All of the above, for changes that move no counter and add no rotation. */
  lemma ChainSurvives(a: Db, b: Db)
    requires ParentsLinked(a) && GenerationsUnique(a) && HeadsExist(a) && RotationsEvolve(a, b)
    requires b.rotations.Keys == a.rotations.Keys
    requires forall f :: f in b.families && b.families[f].currentGeneration > 0 ==>
               f in a.families && a.families[f].currentGeneration == b.families[f].currentGeneration
    ensures ParentsLinked(b) && GenerationsUnique(b) && HeadsExist(b)
  {
    ParentsSurvive(a, b);
    UniqueSurvives(a, b, 0);
    HeadsSurvive(a, b);
  }

  // ---------- every transaction keeps the chain and evolves ----------

  lemma CreateFamilyKeeps(db: Db, fid: FamilyId, user: UserId, tenant: TenantId, expiresAt: Time)
    requires DbInv(db) && fid !in db.families
    ensures var after := CreateFamily(db, fid, user, tenant, 0, expiresAt).value;
            DbInv(after) && Evolves(db, after)
  {
    ChainSurvives(db, CreateFamily(db, fid, user, tenant, 0, expiresAt).value);
  }

  lemma CreateFirstRotationKeeps(db: Db, fid: FamilyId, jti: Jti, expiresAt: Time)
    requires DbInv(db) && fid in db.families && jti !in db.rotations && !GenerationTaken(db, fid, 0)
    ensures var after := CreateRotation(db, fid, 0, jti, expiresAt, None).value;
            DbInv(after) && Evolves(db, after)
  {
    var b := CreateRotation(db, fid, 0, jti, expiresAt, None).value;
    NoFirstNoRotation(db, fid);
    assert ParentLinked(b, jti);
    ParentsSurvive(db, b);
    UniqueSurvives(db, b, jti);
    HeadsSurvive(db, b);
  }

  lemma CreateSessionKeeps(db: Db, fid: FamilyId, user: UserId, tenant: TenantId, ctx: Context, access: Jti,
                           accessExp: Time, at: Time)
    requires DbInv(db) && fid in db.families && fid !in db.sessions
    ensures var after := CreateSession(db, fid, user, tenant, ctx, access, accessExp, at).value;
            DbInv(after) && Evolves(db, after)
  {
    ChainSurvives(db, CreateSession(db, fid, user, tenant, ctx, access, accessExp, at).value);
  }

  /** The rotation being swapped out is a row of the family, at the generation the swap expects. */
  ghost predicate SwapsOwnRow(db: Db, d: RotateInput) {
    && d.previousJti in db.rotations && d.nextJti !in db.rotations
    && db.rotations[d.previousJti].familyId == d.familyId
    && db.rotations[d.previousJti].generation == d.expectedGeneration
    && d.nextGeneration == d.expectedGeneration + 1
  }

  lemma RotateNeverAborts(db: Db, d: RotateInput)
    requires DbInv(db) && SwapsOwnRow(db, d)
    ensures !Rotate(db, d).1.Aborted?
  {
  }

  lemma RotateEvolves(db: Db, d: RotateInput)
    requires DbInv(db) && SwapsOwnRow(db, d)
    ensures Evolves(db, Rotate(db, d).0)
  {
    RotateFamiliesEvolve(db, d);
    RotateRotationsEvolve(db, d);
    hide FamiliesEvolve, RotationsEvolve, NoLateRotations, SessionsEvolve, Rotate;
  }

  lemma RotateFamiliesEvolve(db: Db, d: RotateInput)
    requires SwapsOwnRow(db, d)
    ensures FamiliesEvolve(db, Rotate(db, d).0) && SessionsEvolve(db, Rotate(db, d).0)
  {
  }

  lemma RotateRotationsEvolve(db: Db, d: RotateInput)
    requires StatusesChained(db) && SwapsOwnRow(db, d)
    ensures RotationsEvolve(db, Rotate(db, d).0) && NoLateRotations(db, Rotate(db, d).0)
  {
  }

  lemma RotateKeeps(db: Db, d: RotateInput)
    requires DbInv(db) && SwapsOwnRow(db, d)
    ensures DbInv(Rotate(db, d).0)
  {
    var b := Rotate(db, d).0;
    RotateNeverAborts(db, d);
    RotateEvolves(db, d);
    if Rotate(db, d).1.Won? {
      RotateKeepsRows(db, d);
      RotateKeepsHeads(db, d);
      assert ParentLinked(b, d.nextJti);
      ParentsSurvive(db, b);
      UniqueSurvives(db, b, d.nextJti);
      hide *;
    }
  }

  lemma RotateKeepsRows(db: Db, d: RotateInput)
    requires RowsLinked(db) && GenerationsUnique(db) && StatusesChained(db) && SwapsOwnRow(db, d)
    ensures RowsLinked(Rotate(db, d).0) && StatusesChained(Rotate(db, d).0)
  {
    forall j | j in db.rotations && SameLink(db.rotations[j], db.rotations[d.previousJti]) ensures j == d.previousJti {}
  }

  lemma RotateKeepsHeads(db: Db, d: RotateInput)
    requires DbInv(db) && SwapsOwnRow(db, d) && Rotate(db, d).1.Won?
    ensures HeadsExist(Rotate(db, d).0)
  {
    var b := Rotate(db, d).0;
    RotateEvolves(db, d);
    forall f ensures HeadExists(b, f) {
      assert HeadExists(db, f);
      if f == d.familyId {
        assert b.rotations[d.nextJti].generation == b.families[f].currentGeneration;
      } else if f in b.families && b.families[f].currentGeneration > 0 {
        TakenStays(db, b, f, b.families[f].currentGeneration);
      }
    }
  }

  lemma RevokeEvolves(db: Db, fid: FamilyId, reason: Reason, at: Time, replayed: Option<Jti>, actor: Option<UserId>)
    requires replayed.Some? ==> replayed.value in db.rotations
    ensures Evolves(db, Revoke(db, fid, reason, at, replayed, actor).value)
  {
  }

  lemma RevokeKeeps(db: Db, fid: FamilyId, reason: Reason, at: Time, replayed: Option<Jti>, actor: Option<UserId>)
    requires DbInv(db)
    requires replayed.Some? ==> replayed.value in db.rotations && db.rotations[replayed.value].familyId == fid
    ensures DbInv(Revoke(db, fid, reason, at, replayed, actor).value)
  {
    RevokeEvolves(db, fid, reason, at, replayed, actor);
    ChainSurvives(db, Revoke(db, fid, reason, at, replayed, actor).value);
  }

  /** Transactions that touch no rotation, move no counter and reactivate no family. */
  ghost predicate SameRotations(a: Db, b: Db) {
    && FamiliesEvolve(a, b)
    && b.rotations == a.rotations
    && b.families.Keys == a.families.Keys && b.sessions.Keys == a.sessions.Keys
    && forall f :: f in b.families ==> b.families[f].currentGeneration == a.families[f].currentGeneration
  }

  lemma SameRotationsRows(a: Db, b: Db)
    requires DbInv(a) && SameRotations(a, b)
    ensures RowsLinked(b) && StatusesChained(b)
  {
  }

  lemma SameRotationsChain(a: Db, b: Db)
    requires DbInv(a) && SameRotations(a, b)
    ensures ParentsLinked(b) && GenerationsUnique(b) && HeadsExist(b)
  {
    ChainSurvives(a, b);
  }

  lemma ExpireEvolves(db: Db, fid: FamilyId)
    ensures Evolves(db, Expire(db, fid)) && SameRotations(db, Expire(db, fid))
  {
  }

  lemma ExpireKeeps(db: Db, fid: FamilyId)
    requires DbInv(db)
    ensures DbInv(Expire(db, fid))
  {
    ExpireEvolves(db, fid);
    SameRotationsRows(db, Expire(db, fid));
    SameRotationsChain(db, Expire(db, fid));
  }

  lemma TouchEvolves(db: Db, fid: FamilyId, at: Time, ctx: Context, access: Option<Jti>, accessExp: Option<Time>)
    ensures Evolves(db, Touch(db, fid, at, ctx, access, accessExp))
    ensures SameRotations(db, Touch(db, fid, at, ctx, access, accessExp))
  {
  }

  lemma TouchKeeps(db: Db, fid: FamilyId, at: Time, ctx: Context, access: Option<Jti>, accessExp: Option<Time>)
    requires DbInv(db)
    ensures DbInv(Touch(db, fid, at, ctx, access, accessExp))
  {
    TouchEvolves(db, fid, at, ctx, access, accessExp);
    SameRotationsRows(db, Touch(db, fid, at, ctx, access, accessExp));
    SameRotationsChain(db, Touch(db, fid, at, ctx, access, accessExp));
  }
}
