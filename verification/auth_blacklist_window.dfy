/** A run in which a blacklisted token is accepted after its `exp`, within the tolerance. */
module AuthBlacklistWindow {
  import opened Options
  import opened AuthModel
  import opened AuthInvariants
  import opened AuthProtocol
  import opened AuthRuns
  import opened AuthDelivery
  import opened AuthBlacklistRuns

  const CONTEXT := Context(0, 0, None, None)

  /** Sign-in to its end, then a revocation of the token, then its use at a later moment. */
  function WindowEvents(exp: int, at: Time): seq<Event> {
    [StartSignIn(0, 7, 1, exp, 1000 * exp, 5, 9), WriteRotation(0), WriteSession(0, 2, 50000, CONTEXT),
     BlacklistToken(1, RemainingTtl(exp, 0)), Tick(at), Present(1, Claims(1, 7, 0, exp)), AskBlacklist(1)]
  }

  function OpenFamily(exp: int): Family { Family(5, 9, 0, FamilyActive, 1000 * exp, None, None) }

  function FirstRotation(exp: int): Rotation { Rotation(7, 0, None, RotationActive, 1000 * exp, None, None, None) }

  const SESSION := Session(5, 9, SessionActive, CONTEXT, Some(2), Some(50000), 0, 0, None, None, None)

  function StateWith(exp: int, db: Db, signer: Client): Sys {
    Sys(db, map[1 := Claims(1, 7, 0, exp)], map[], true, 0, map[0 := signer], multiset{})
  }

  /** The sign-in as the machine performs it. */
  function SignInStates(exp: int): seq<Sys> {
    var claims := Claims(1, 7, 0, exp);
    [Init,
     StateWith(exp, Db(map[7 := OpenFamily(exp)], map[], map[]), NeedsRotation(claims, 1000 * exp, 5, 9)),
     StateWith(exp, Db(map[7 := OpenFamily(exp)], map[1 := FirstRotation(exp)], map[]), NeedsSession(claims, 5, 9)),
     StateWith(exp, Db(map[7 := OpenFamily(exp)], map[1 := FirstRotation(exp)], map[7 := SESSION]), SignedIn(claims))]
  }

  lemma SignInSteps(exp: int, at: Time)
    ensures var s, e := SignInStates(exp), WindowEvents(exp, at);
            && Enabled(s[0], e[0]) && Step(s[0], e[0]) == s[1]
            && Enabled(s[1], e[1]) && Step(s[1], e[1]) == s[2]
            && Enabled(s[2], e[2]) && Step(s[2], e[2]) == s[3]
  {
  }

  function Listed(exp: int): Sys { SignInStates(exp)[3].(redis := map[1 := 1000 * exp]) }

  function Later(exp: int, at: Time): Sys { Listed(exp).(now := at) }

  lemma WindowSteps(exp: int, at: Time)
    requires exp > 0 && 1000 * exp <= at < 1000 * (exp + 30)
    ensures var claims, later, e := Claims(1, 7, 0, exp), Later(exp, at), WindowEvents(exp, at);
            && Step(SignInStates(exp)[3], e[3]) == Listed(exp)
            && Enabled(Listed(exp), e[4]) && Step(Listed(exp), e[4]) == later
            && Enabled(later, e[5]) && Step(later, e[5]) == With(later, 1, Decoded(claims))
            && Enabled(With(later, 1, Decoded(claims)), e[6])
            && Step(With(later, 1, Decoded(claims)), e[6]) == With(later, 1, Verified(claims))
  {
    assert SetEntry(SignInStates(exp)[3], 1, RemainingTtl(exp, 0)) == map[1 := 1000 * exp];
    assert With(With(Later(exp, at), 1, Decoded(Claims(1, 7, 0, exp))), 1, Verified(Claims(1, 7, 0, exp)))
        == With(Later(exp, at), 1, Verified(Claims(1, 7, 0, exp)));
  }

  function WindowRun(exp: int, at: Time): Run {
    var claims, later := Claims(1, 7, 0, exp), Later(exp, at);
    Run(SignInStates(exp) + [Listed(exp), later, With(later, 1, Decoded(claims)), With(later, 1, Verified(claims))],
        WindowEvents(exp, at))
  }

  lemma WindowIsRun(exp: int, at: Time)
    requires exp > 0 && 1000 * exp <= at < 1000 * (exp + 30)
    ensures IsRun(WindowRun(exp, at))
  {
    var r := WindowRun(exp, at);
    SignInSteps(exp, at);
    WindowSteps(exp, at);
    hide Step, Enabled, Listed, Later, With, StateWith;
    assert StepAt(r, 0) && StepAt(r, 1) && StepAt(r, 2);
    assert StepAt(r, 3) && StepAt(r, 4) && StepAt(r, 5) && StepAt(r, 6);
  }

  lemma WindowIsOrderly(exp: int, at: Time)
    requires IsRun(WindowRun(exp, at))
    ensures OrderlyRun(WindowRun(exp, at))
  {
    var r, claims := WindowRun(exp, at), Claims(1, 7, 0, exp);
    assert r.states[5].clients[0] == SignedIn(claims);
    assert HandedOut(r.states[5], r.states[5].clients[0], claims);
    hide IsRun, Step, Enabled, Listed, Later, With, StateWith, HandedOut;
    forall i | 0 <= i < |r.events| ensures Orderly(r.states[i], r.events[i]) {
      assert i == 5 || (!r.events[i].Present? && !r.events[i].RevokeFamily?);
    }
  }

  /**
   The window is real: for every `exp` and every moment in [exp, exp + 30 s) there is a run, Redis up
   throughout, in which a token that was handed out and then blacklisted is accepted at that moment.
   */
  lemma WindowIsReached(exp: nat, at: Time) returns (r: Run)
    requires exp > 0 && 1000 * exp <= at < 1000 * (exp + 30)
    ensures IsRun(r) && OrderlyRun(r) && r.events == WindowEvents(exp, at)
    ensures r.states[3].now == 0 && r.states[6].now == at && Covered(r.states[4], 1, exp)
    ensures forall i :: 0 <= i <= 7 ==> r.states[i].redisUp
    ensures 1 in r.states[7].clients && r.states[7].clients[1] == Verified(Claims(1, 7, 0, exp))
  {
    r := WindowRun(exp, at);
    WindowIsRun(exp, at);
    WindowIsOrderly(exp, at);
    hide Step, Enabled, Orderly, StepAt;
  }
}
