/** The Redis blacklist of token ids: keys with a time to live, and nothing at all when Redis is unreachable. */
module TokenBlacklist {
  import opened AuthModel

  class TokenBlacklistService {
    /** Key to the moment Redis drops it. */
    var store: map<Jti, Time>

    constructor ()
      ensures store == map[]
    {
      store := map[];
    }

    method Blacklist(jti: Jti, expSeconds: int, now: Time, reachable: bool)
      modifies this
      ensures store == if reachable then old(store)[jti := EntryExpiry(expSeconds, now)] else old(store)
      ensures reachable ==> jti in store && store[jti] == now + 1000 * if expSeconds < 1 then 1 else expSeconds
    {
      if reachable {
        var ttl := Max(expSeconds, 1);
        store := store[jti := now + 1000 * ttl];
      }
    }

    /** Fail-open: an unreachable Redis answers "not blacklisted". */
    method IsBlacklisted(jti: Jti, now: Time, reachable: bool) returns (found: bool)
      ensures found <==> reachable && Blacklisted(store, jti, now)
      ensures found <==> reachable && jti in store && now < store[jti]
    {
      if !reachable {
        return false;
      }
      found := jti in store && now < store[jti];
    }
  }

  /** An entry made for a token's `exp` outlives it, by less than a second unless the token was (nearly) over. */
  lemma EntryCoversToken(exp: int, now: Time)
    ensures var until := EntryExpiry(RemainingTtl(exp, now), now);
            Max(1000 * exp, now + 1000) <= until < Max(1000 * exp, now + 1000) + 1000
  {
  }

  /** The same for an expiry kept as a date. */
  lemma EntryCoversDate(expiresAt: Time, now: Time)
    ensures var until := EntryExpiry(RemainingTtlFromDate(expiresAt, now), now);
            Max(expiresAt, now + 1000) <= until < Max(expiresAt, now + 1000) + 1000
  {
  }
}
