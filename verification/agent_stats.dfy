/** Totals and the running mean of an agent, updated once per completed session. */
module AgentStats {
  type AgentId = nat
  type SessionId = nat
  type TenantId = nat

  datatype Agent = Agent(tenant: TenantId, totalTasks: nat, totalTokens: int, avgTimeMs: int)
  datatype SessionStatus = Running | Completed | Failed
  datatype AgentSession = AgentSession(status: SessionStatus, tokensUsed: int, durationMs: int, output: string)
  datatype Completion = Completion(tokens: int, durationMs: int)

  /** `Math.round(a / n)`: halves go up. */
  function RoundedQuotient(a: int, n: int): int
    requires n > 0
  {
    (2 * a + n) / (2 * n)
  }

  function Complete(agent: Agent, c: Completion): Agent {
    var n := agent.totalTasks + 1;
    agent.(totalTasks := n, totalTokens := agent.totalTokens + c.tokens,
           avgTimeMs := if agent.totalTasks == 0 then c.durationMs
                        else RoundedQuotient(agent.avgTimeMs * agent.totalTasks + c.durationMs, n))
  }

  function CompleteAll(agent: Agent, cs: seq<Completion>): Agent {
    if cs == [] then agent else Complete(CompleteAll(agent, cs[..|cs| - 1]), cs[|cs| - 1])
  }

  function SumTokens(cs: seq<Completion>): int {
    if cs == [] then 0 else SumTokens(cs[..|cs| - 1]) + cs[|cs| - 1].tokens
  }

  function SumDurations(cs: seq<Completion>): int {
    if cs == [] then 0 else SumDurations(cs[..|cs| - 1]) + cs[|cs| - 1].durationMs
  }

  function Abs(x: int): nat { if x < 0 then -x else x }

  /** Rounding moves n times the quotient by at most n / 2. */
  lemma RoundingError(a: int, n: int)
    requires n > 0
    ensures 2 * Abs(n * RoundedQuotient(a, n) - a) <= n
  {
    var q := RoundedQuotient(a, n);
    var r := (2 * a + n) % (2 * n);
    assert 2 * a + n == (2 * n) * q + r;
    assert (2 * n) * q == 2 * (n * q);
  }

  /** The nearest integer, and the greater of two when both are as near. */
  lemma HalvesGoUp(a: int, n: int, q: int)
    requires n > 0
    ensures q == RoundedQuotient(a, n) <==> n * (2 * q - 1) <= 2 * a < n * (2 * q + 1)
  {
    var r := RoundedQuotient(a, n);
    var rest := (2 * a + n) % (2 * n);
    assert 2 * a + n == (2 * n) * r + rest;
    assert (2 * n) * r == n * (2 * r + 1) - n == n * (2 * r - 1) + n;
    if q < r { OneStepApart(2 * n, q, r); assert (2 * n) * q == n * (2 * q + 1) - n; }
    if r < q { OneStepApart(2 * n, r, q); assert (2 * n) * q == n * (2 * q - 1) + n; }
  }

  predicate IsRoundedMean(mean: int, total: int, n: nat) {
    n * (2 * mean - 1) <= 2 * total < n * (2 * mean + 1)
  }

  /** Rounding examples: halves go up on both sides of zero. */
  lemma RoundingExamples()
    ensures RoundedQuotient(5, 2) == 3 && RoundedQuotient(-5, 2) == -2 && RoundedQuotient(7, 3) == 2
  {
  }

  lemma RoundedWithin(a: int, n: int, lo: int, hi: int)
    requires n > 0 && n * lo <= a <= n * hi
    ensures lo <= RoundedQuotient(a, n) <= hi
  {
    RoundingError(a, n);
    var q := RoundedQuotient(a, n);
    if q < lo { OneStepApart(n, q, lo); }
    if hi < q { OneStepApart(n, hi, q); }
  }

  lemma OneStepApart(n: int, x: int, y: int)
    requires n > 0 && x < y
    ensures n * x + n <= n * y
  {
    assert n * (x + 1) <= n * y;
  }

  /** The count and the token total are exact. */
  lemma {:induction false} TotalsExact(agent: Agent, cs: seq<Completion>)
    ensures CompleteAll(agent, cs).totalTasks == agent.totalTasks + |cs|
    ensures CompleteAll(agent, cs).totalTokens == agent.totalTokens + SumTokens(cs)
  {
    if cs != [] { TotalsExact(agent, cs[..|cs| - 1]); }
  }

  /** From zero tasks, n times the stored mean misses the sum of durations by at most (n(n+1) - 2) / 4. */
  lemma {:induction false} MeanErrorBound(agent: Agent, cs: seq<Completion>)
    requires agent.totalTasks == 0 && cs != []
    ensures var n := |cs|;
            4 * Abs(n * CompleteAll(agent, cs).avgTimeMs - SumDurations(cs)) <= n * (n + 1) - 2
  {
    var n := |cs|;
    var init, last := cs[..n - 1], cs[n - 1];
    TotalsExact(agent, init);
    if n == 1 {
      assert init == [];
    } else {
      MeanErrorBound(agent, init);
      var before := CompleteAll(agent, init).avgTimeMs;
      RoundingError(before * (n - 1) + last.durationMs, n);
      ErrorStep(n, before, SumDurations(init), last.durationMs, CompleteAll(agent, cs).avgTimeMs);
    }
  }

  lemma ErrorStep(n: int, before: int, sum: int, d: int, after: int)
    requires n >= 2
    requires 4 * Abs((n - 1) * before - sum) <= (n - 1) * n - 2
    requires 2 * Abs(n * after - (before * (n - 1) + d)) <= n
    ensures 4 * Abs(n * after - (sum + d)) <= n * (n + 1) - 2
  {
    assert n * (n + 1) == (n - 1) * n + 2 * n;
  }

  /** The stored mean never leaves the range of the durations. */
  lemma {:induction false} MeanWithinRange(agent: Agent, cs: seq<Completion>, lo: int, hi: int)
    requires agent.totalTasks == 0 && cs != []
    requires forall i :: 0 <= i < |cs| ==> lo <= cs[i].durationMs <= hi
    ensures lo <= CompleteAll(agent, cs).avgTimeMs <= hi
  {
    var n := |cs|;
    var init, last := cs[..n - 1], cs[n - 1];
    TotalsExact(agent, init);
    if n == 1 {
      assert init == [];
    } else {
      MeanWithinRange(agent, init, lo, hi);
      var before := CompleteAll(agent, init).avgTimeMs;
      WeightedWithin(before, n, last.durationMs, lo, hi);
      RoundedWithin(before * (n - 1) + last.durationMs, n, lo, hi);
    }
  }

  lemma WeightedWithin(before: int, n: int, d: int, lo: int, hi: int)
    requires n >= 1 && lo <= before <= hi && lo <= d <= hi
    ensures n * lo <= before * (n - 1) + d <= n * hi
  {
    assert lo * (n - 1) <= before * (n - 1) <= hi * (n - 1);
    assert n * lo == lo * (n - 1) + lo && n * hi == hi * (n - 1) + hi;
  }

  class AiAgentsRepository {
    var agents: map<AgentId, Agent>
    var sessions: map<SessionId, AgentSession>

    constructor ()
      ensures agents == map[] && sessions == map[]
    {
      agents, sessions := map[], map[];
    }

    /**
     One transaction. False, with nothing changed, when the session row does not exist; an agent of
     another tenant is left alone while the session is still completed.
     */
    method MarkSessionCompleted(session: SessionId, agentId: AgentId, tenant: TenantId, output: string, c: Completion)
      returns (ok: bool)
      modifies this
      ensures ok == (session in old(sessions))
      ensures !ok ==> sessions == old(sessions) && agents == old(agents)
      ensures ok ==> sessions == old(sessions)[session := AgentSession(Completed, c.tokens, c.durationMs, output)]
      ensures ok && agentId in old(agents) && old(agents)[agentId].tenant == tenant ==>
                var before := old(agents)[agentId];
                && agents.Keys == old(agents).Keys
                && agents[agentId].tenant == tenant && agents[agentId].totalTasks == before.totalTasks + 1
                && agents[agentId].totalTokens == before.totalTokens + c.tokens
                && (before.totalTasks == 0 ==> agents[agentId].avgTimeMs == c.durationMs)
                && (before.totalTasks != 0 ==>
                      IsRoundedMean(agents[agentId].avgTimeMs, before.avgTimeMs * before.totalTasks + c.durationMs,
                                    before.totalTasks + 1))
                && forall a :: a in agents && a != agentId ==> agents[a] == old(agents)[a]
      ensures ok ==> agents == if agentId in old(agents) && old(agents)[agentId].tenant == tenant
                               then old(agents)[agentId := Complete(old(agents)[agentId], c)] else old(agents)
    {
      if session !in sessions {
        return false;
      }
      sessions := sessions[session := AgentSession(Completed, c.tokens, c.durationMs, output)];
      if agentId !in agents || agents[agentId].tenant != tenant {
        return true;
      }
      var agent := agents[agentId];
      var nextTotalTasks := agent.totalTasks + 1;
      var nextAvgTimeMs := c.durationMs;
      if agent.totalTasks != 0 {
        nextAvgTimeMs := RoundedQuotient(agent.avgTimeMs * agent.totalTasks + c.durationMs, nextTotalTasks);
      }
      HalvesGoUp(agent.avgTimeMs * agent.totalTasks + c.durationMs, nextTotalTasks,
                 RoundedQuotient(agent.avgTimeMs * agent.totalTasks + c.durationMs, nextTotalTasks));
      agents := agents[agentId := agent.(totalTasks := agent.totalTasks + 1, totalTokens := agent.totalTokens + c.tokens,
                                         avgTimeMs := nextAvgTimeMs)];
      return true;
    }
  }
}
