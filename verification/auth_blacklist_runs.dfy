/** How long a blacklisted token stays refused, over whole runs. */
module AuthBlacklistRuns {
  import opened Options
  import opened AuthModel
  import opened AuthProtocol
  import opened AuthRuns
  import TokenBlacklist

  /** Redis holds an entry for this token, access or refresh, at least until the token's `exp`. */
  ghost predicate Covered(s: Sys, jti: Jti, exp: int) {
    jti in s.redis && 1000 * exp <= s.redis[jti]
  }

  /** Callers blacklist this jti only with a time to live that reaches its `exp`. */
  predicate HonestEntry(s: Sys, e: Event, jti: Jti, exp: int) {
    match e
    case BlacklistToken(other, ttl) => other == jti ==> 1000 * exp <= EntryExpiry(ttl, s.now)
    case _ => true
  }

  /** A refresh token has the `exp` it was signed with; an access token has a jti no refresh token has. */
  ghost predicate ExpiresAt(s: Sys, jti: Jti, exp: int) {
    jti in s.signed ==> s.signed[jti].exp == exp
  }

  /** The callers of `blacklist` all pass what is left until `exp`, or until a date no earlier: both are honest, and cover. */
  lemma CallersAreHonest(s: Sys, jti: Jti, exp: int, until: Time)
    requires 1000 * exp <= until
    ensures HonestEntry(s, BlacklistToken(jti, RemainingTtl(exp, s.now)), jti, exp)
    ensures HonestEntry(s, BlacklistToken(jti, RemainingTtlFromDate(until, s.now)), jti, exp)
    ensures s.redisUp ==>
              && Covered(Step(s, BlacklistToken(jti, RemainingTtl(exp, s.now))), jti, exp)
              && Covered(Step(s, BlacklistToken(jti, RemainingTtlFromDate(until, s.now))), jti, exp)
  {
    TokenBlacklist.EntryCoversToken(exp, s.now);
    TokenBlacklist.EntryCoversDate(until, s.now);
  }

  lemma CoveredStays(s: Sys, e: Event, jti: Jti, exp: int)
    requires SysInv(s) && Enabled(s, e) && HonestEntry(s, e, jti, exp) && Covered(s, jti, exp) && ExpiresAt(s, jti, exp)
    ensures Covered(Step(s, e), jti, exp)
  {
    if e.Finish? {
      assert ClientOk(s, s.clients[e.c]);
      hide SysInv;
      TokenBlacklist.EntryCoversToken(s.clients[e.c].claims.exp, s.now);
    } else if WritesTables(e) {
      hide SysInv;
      WritersKeepRedis(s, e);
    } else {
      hide SysInv, DoStartSignIn, DoWriteRotation, DoWriteSession, DoSwap, DoRevokeReplayed, Revoke, Expire, Touch;
    }
  }

  lemma WritersKeepRedis(s: Sys, e: Event)
    requires Enabled(s, e) && WritesTables(e)
    ensures Step(s, e).redis == s.redis
  {
    hide CreateFamily, CreateRotation, CreateSession, Rotate, Revoke;
  }

  lemma ExpiresEarlierToo(s: Sys, t: Sys, jti: Jti, exp: int)
    requires SysEvolves(s, t) && ExpiresAt(t, jti, exp)
    ensures ExpiresAt(s, jti, exp)
  {
  }

  /** A refresh that got tokens has blacklisted the token it came with, if Redis could be reached. */
  lemma FinishCovers(s: Sys, c: ClientId)
    requires Enabled(s, Finish(c)) && s.redisUp
    ensures Covered(Step(s, Finish(c)), s.clients[c].claims.jti, s.clients[c].claims.exp)
  {
    TokenBlacklist.EntryCoversToken(s.clients[c].claims.exp, s.now);
  }

  lemma {:induction false} CoveredForever(r: Run, i: nat, k: nat, jti: Jti, exp: int)
    requires IsRun(r) && i <= k < |r.states| && Covered(r.states[i], jti, exp) && ExpiresAt(r.states[k], jti, exp)
    requires forall n :: i <= n < k ==> HonestEntry(r.states[n], r.events[n], jti, exp)
    ensures Covered(r.states[k], jti, exp)
    decreases k
  {
    hide SysInv, Step, Enabled, SysEvolves, Covered, ExpiresAt;
    if i < k {
      Forward(r, k - 1, k);
      ExpiresEarlierToo(r.states[k - 1], r.states[k], jti, exp);
      CoveredForever(r, i, k - 1, jti, exp);
      Reachable(r, k - 1);
      assert StepAt(r, k - 1);
      CoveredStays(r.states[k - 1], r.events[k - 1], jti, exp);
    }
  }

  /** Access or refresh token: once an entry covers it, Redis holds it as blacklisted until its `exp`. */
  lemma StaysBlacklisted(r: Run, i: nat, k: nat, jti: Jti, exp: int)
    requires IsRun(r) && i <= k < |r.states| && Covered(r.states[i], jti, exp) && ExpiresAt(r.states[k], jti, exp)
    requires forall n :: i <= n < k ==> HonestEntry(r.states[n], r.events[n], jti, exp)
    ensures r.states[k].now < 1000 * exp ==> Blacklisted(r.states[k].redis, jti, r.states[k].now)
  {
    CoveredForever(r, i, k, jti, exp);
  }

  /** A request that decoded a token presented it earlier, within its expiry plus the tolerance. */
  lemma {:induction false} DecodedWasPresented(r: Run, k: nat, c: ClientId) returns (i: nat)
    requires IsRun(r) && k < |r.states| && c in r.states[k].clients && r.states[k].clients[c].Decoded?
    ensures i < k && r.events[i] == Present(c, r.states[k].clients[c].claims)
    ensures r.states[i].now < 1000 * (r.states[k].clients[c].claims.exp + 30)
  {
    hide Step, Enabled;
    assert StepAt(r, k - 1);
    if c in r.states[k - 1].clients && r.states[k - 1].clients[c] == r.states[k].clients[c] {
      i := DecodedWasPresented(r, k - 1, c);
    } else {
      i := k - 1;
      DecodeStep(r.states[i], r.events[i], c);
    }
  }

  lemma WritersDecodeNothing(s: Sys, e: Event, c: ClientId)
    requires Enabled(s, e) && WritesTables(e) && c in Step(s, e).clients && Step(s, e).clients[c].Decoded?
    ensures c in s.clients && s.clients[c] == Step(s, e).clients[c]
  {
    hide CreateFamily, CreateRotation, CreateSession, Rotate, Revoke;
  }

  lemma DecodeStep(s: Sys, e: Event, c: ClientId)
    requires Enabled(s, e) && c in Step(s, e).clients && Step(s, e).clients[c].Decoded?
    requires c in s.clients ==> s.clients[c] != Step(s, e).clients[c]
    ensures e == Present(c, Step(s, e).clients[c].claims) && WithinExpiry(Step(s, e).clients[c].claims.exp, s.now)
  {
    hide DoSwap, DoStartSignIn, DoWriteRotation, DoWriteSession, DoRevokeReplayed, Revoke, Expire, Touch;
    if WritesTables(e) {
      WritersDecodeNothing(s, e, c);
    }
  }

  /** With Redis up, the question lets a token through exactly when no entry for it is left. */
  lemma AskMeaning(s: Sys, c: ClientId)
    requires Enabled(s, AskBlacklist(c)) && s.redisUp
    ensures var jti := s.clients[c].claims.jti;
            Step(s, AskBlacklist(c)).clients[c].Verified? <==> jti !in s.redis || s.redis[jti] <= s.now
  {
  }

  /**
   From the moment a token is blacklisted, a verification that reaches Redis refuses it until its
   `exp`. One that still accepts it asked Redis at or after `exp`, and had checked the signature and
   the time before `exp` plus the 30-second tolerance.
   */
  lemma BlacklistedUntilExpiry(r: Run, i: nat, k: nat, c: ClientId) returns (presented: nat)
    requires IsRun(r) && i <= k < |r.events| && r.events[k] == AskBlacklist(c) && StepAt(r, k)
    requires var claims := r.states[k].clients[c].claims;
             && Covered(r.states[i], claims.jti, claims.exp)
             && forall n :: i <= n < k ==> HonestEntry(r.states[n], r.events[n], claims.jti, claims.exp)
    requires r.states[k].redisUp
    ensures var claims := r.states[k].clients[c].claims;
            && (r.states[k].now < 1000 * claims.exp ==>
                  r.states[k + 1].clients[c] == Refused(TokenRevoked, claims, None))
            && (r.states[k + 1].clients[c].Verified? ==> 1000 * claims.exp <= r.states[k].now)
            && presented < k && r.events[presented] == Present(c, claims)
            && r.states[presented].now < 1000 * (claims.exp + 30)
  {
    presented := DecodedWasPresented(r, k, c);
    Reachable(r, k);
    assert ClientOk(r.states[k], r.states[k].clients[c]);
    hide SysInv;
    StaysBlacklisted(r, i, k, r.states[k].clients[c].claims.jti, r.states[k].clients[c].claims.exp);
  }
}
