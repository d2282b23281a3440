/** Token quotas of an agent: read and checked when a run starts, counted when it ends. */
module TokenQuota {
  import opened Options

  type RunId = nat
  type Time = int
  type AgentKey = (nat, nat)

  datatype Period = Hour | Day | Month

  datatype Config = Config(perHour: int, perDay: int, perMonth: int,
                           usedHour: int, usedDay: int, usedMonth: int,
                           resetHour: Option<Time>, resetDay: Option<Time>, resetMonth: Option<Time>)

  function Limit(c: Config, p: Period): int {
    match p case Hour => c.perHour case Day => c.perDay case Month => c.perMonth
  }

  function Used(c: Config, p: Period): int {
    match p case Hour => c.usedHour case Day => c.usedDay case Month => c.usedMonth
  }

  // ---------- the check ----------

  datatype QuotaCheck = Allowed | Exceeded(period: Period, used: int, limit: int)

  function CheckAgentQuota(c: Config): QuotaCheck {
    if c.perHour > 0 && c.usedHour >= c.perHour then Exceeded(Hour, c.usedHour, c.perHour)
    else if c.perDay > 0 && c.usedDay >= c.perDay then Exceeded(Day, c.usedDay, c.perDay)
    else if c.perMonth > 0 && c.usedMonth >= c.perMonth then Exceeded(Month, c.usedMonth, c.perMonth)
    else Allowed
  }

  predicate Over(c: Config, p: Period) { Limit(c, p) > 0 && Used(c, p) >= Limit(c, p) }

  /** Allowed exactly when no positive limit is reached; otherwise the shortest such period is reported. */
  lemma CheckMeaning(c: Config)
    ensures CheckAgentQuota(c).Allowed? <==> forall p: Period :: !Over(c, p)
    ensures CheckAgentQuota(c) == Allowed <==>
              && (c.perHour <= 0 || c.usedHour < c.perHour)
              && (c.perDay <= 0 || c.usedDay < c.perDay)
              && (c.perMonth <= 0 || c.usedMonth < c.perMonth)
    ensures CheckAgentQuota(c) == Exceeded(Hour, c.usedHour, c.perHour) <==> c.perHour > 0 && c.usedHour >= c.perHour
    ensures var r := CheckAgentQuota(c);
            r.Exceeded? ==>
              && Over(c, r.period) && r.used == Used(c, r.period) && r.limit == Limit(c, r.period)
              && (r.period.Day? ==> !Over(c, Hour)) && (r.period.Month? ==> !Over(c, Hour) && !Over(c, Day))
  {
    if CheckAgentQuota(c).Exceeded? { assert Over(c, CheckAgentQuota(c).period); }
    assert Over(c, Hour) || Over(c, Day) || Over(c, Month) || forall p: Period :: !Over(c, p);
  }

  // ---------- the two writes ----------

  function Increment(c: Config, tokens: int): Config {
    c.(usedHour := c.usedHour + tokens, usedDay := c.usedDay + tokens, usedMonth := c.usedMonth + tokens)
  }

  function Reset(c: Config, p: Period, at: Time): Config {
    match p
    case Hour => c.(usedHour := 0, resetHour := Some(at))
    case Day => c.(usedDay := 0, resetDay := Some(at))
    case Month => c.(usedMonth := 0, resetMonth := Some(at))
  }

  // ---------- runs ----------

  /** A run holds the row it read, until the check of that row lets it run. */
  datatype Phase = HasRead(seen: Config) | Running

  datatype Sys = Sys(config: Config, runs: map<RunId, Phase>)

  datatype Event =
    | Read(run: RunId)                  // the awaited lookup of the row
    | Check(run: RunId)                 // the check, on whatever that lookup returned
    | Record(run: RunId, tokens: int)   // the run ends and its tokens are counted
    | Drop(run: RunId)                  // the run fails, or its increment does (the error is swallowed)
    | ResetCounter(period: Period, at: Time)

  predicate Enabled(s: Sys, e: Event) {
    match e
    case Read(run) => run !in s.runs
    case Check(run) => run in s.runs && s.runs[run].HasRead?
    case Record(run, tokens) => run in s.runs && s.runs[run].Running? && tokens >= 0
    case Drop(run) => run in s.runs
    case ResetCounter(_, _) => true
  }

  function Step(s: Sys, e: Event): Sys {
    if !Enabled(s, e) then s else
    match e
    case Read(run) => s.(runs := s.runs[run := HasRead(s.config)])
    case Check(run) =>
      if CheckAgentQuota(s.runs[run].seen).Allowed? then s.(runs := s.runs[run := Running])
      else s.(runs := s.runs - {run})
    case Record(run, tokens) => Sys(Increment(s.config, tokens), s.runs - {run})
    case Drop(run) => s.(runs := s.runs - {run})
    case ResetCounter(p, at) => s.(config := Reset(s.config, p, at))
  }

  function RunAll(s: Sys, es: seq<Event>): Sys {
    if es == [] then s else Step(RunAll(s, es[..|es| - 1]), es[|es| - 1])
  }

  /** Every event is possible when it comes. */
  predicate Possible(s: Sys, es: seq<Event>) {
    es == [] || (Possible(s, es[..|es| - 1]) && Enabled(RunAll(s, es[..|es| - 1]), es[|es| - 1]))
  }

  /** From the read on, every run whose row will pass the check. */
  function InFlight(s: Sys): set<RunId> {
    set r | r in s.runs && (s.runs[r].Running? || CheckAgentQuota(s.runs[r].seen).Allowed?)
  }

  /** From the check on only. */
  function PastCheck(s: Sys): set<RunId> {
    set r | r in s.runs && s.runs[r].Running?
  }

  /** Throughout, at most k runs are in flight, counted from the read or from the check, and none records more than t. */
  ghost predicate Bounded(s: Sys, es: seq<Event>, k: nat, t: nat, fromRead: bool) {
    es != [] ==>
      var after, e := RunAll(s, es), es[|es| - 1];
      && Bounded(s, es[..|es| - 1], k, t, fromRead)
      && (if fromRead then |InFlight(after)| <= k else |PastCheck(after)| <= k)
      && (e.Record? ==> e.tokens <= t)
  }

  // ---------- counted from the read, the bound holds ----------

  ghost predicate Reserve(s: Sys, p: Period, k: nat, t: nat) {
    && |InFlight(s)| <= k
    && Used(s.config, p) + t * |InFlight(s)| <= Limit(s.config, p) - 1 + k * t
  }

  /** How one step moves the runs in flight. */
  lemma StepMovesFlight(s: Sys, e: Event)
    requires Enabled(s, e)
    ensures InFlight(Step(s, e)) ==
            match e
            case Read(run) => if CheckAgentQuota(s.config).Allowed? then InFlight(s) + {run} else InFlight(s)
            case Check(run) => InFlight(s)
            case Record(run, _) => InFlight(s) - {run}
            case Drop(run) => InFlight(s) - {run}
            case ResetCounter(_, _) => InFlight(s)
    ensures e.Record? ==> e.run in InFlight(s)
  {
    hide CheckAgentQuota;
  }

  lemma AllowedIsBelow(c: Config, p: Period)
    requires CheckAgentQuota(c).Allowed? && Limit(c, p) > 0
    ensures Used(c, p) < Limit(c, p)
  {
    CheckMeaning(c);
    assert !Over(c, p);
  }

  /** How one step moves a counter. */
  lemma StepMovesCounter(s: Sys, e: Event, p: Period)
    requires Enabled(s, e)
    ensures Limit(Step(s, e).config, p) == Limit(s.config, p)
    ensures Used(Step(s, e).config, p) ==
            match e
            case Record(_, tokens) => Used(s.config, p) + tokens
            case ResetCounter(q, _) => if q == p then 0 else Used(s.config, p)
            case _ => Used(s.config, p)
  {
    hide CheckAgentQuota;
  }

  /** A run is let in only below the limit; a run that records leaves; otherwise there are no more in flight than before. */
  lemma FlightSize(s: Sys, e: Event, p: Period)
    requires Enabled(s, e) && Limit(s.config, p) > 0
    ensures |InFlight(Step(s, e))| <= |InFlight(s)| || Used(s.config, p) < Limit(s.config, p)
    ensures e.Record? ==> |InFlight(Step(s, e))| == |InFlight(s)| - 1
    ensures !e.Read? ==> |InFlight(Step(s, e))| <= |InFlight(s)|
  {
    StepMovesFlight(s, e);
    hide InFlight, CheckAgentQuota, Step;
    if e.Read? && CheckAgentQuota(s.config).Allowed? {
      AllowedIsBelow(s.config, p);
    }
  }

  lemma StepKeepsReserve(s: Sys, e: Event, p: Period, k: nat, t: nat)
    requires Enabled(s, e) && Reserve(s, p, k, t) && Limit(s.config, p) > 0
    requires |InFlight(Step(s, e))| <= k && (e.Record? ==> e.tokens <= t)
    ensures Reserve(Step(s, e), p, k, t) && Limit(Step(s, e).config, p) == Limit(s.config, p)
  {
    var before, after := |InFlight(s)|, |InFlight(Step(s, e))|;
    StepMovesCounter(s, e, p);
    FlightSize(s, e, p);
    hide InFlight, CheckAgentQuota, Step, Enabled, Used, Limit;
    if e.Record? {
      assert t * before == t * after + t;
    } else {
      Scaled(t, after, k);
      if after <= before { Scaled(t, after, before); }
    }
  }

  lemma Scaled(t: nat, x: nat, k: nat)
    requires x <= k
    ensures t * x <= k * t
  {
    assert t * x <= t * k;
  }

  /**
   With at most k runs in flight, counted from the read of the row, a counter that starts below its
   limit L never exceeds L - 1 + k * t, whatever the interleaving, the stale reads and the resets.
   */
  lemma {:induction false} CounterBound(s: Sys, es: seq<Event>, p: Period, k: nat, t: nat)
    requires s.runs == map[] && 0 < Limit(s.config, p) && Used(s.config, p) < Limit(s.config, p)
    requires Possible(s, es) && Bounded(s, es, k, t, true)
    ensures Used(RunAll(s, es).config, p) <= Limit(s.config, p) - 1 + k * t
    ensures Reserve(RunAll(s, es), p, k, t) && Limit(RunAll(s, es).config, p) == Limit(s.config, p)
  {
    if es == [] {
      StartsInReserve(s, p, k, t);
    } else {
      var init := es[..|es| - 1];
      CounterBound(s, init, p, k, t);
      hide Step, Enabled, Reserve, InFlight, CheckAgentQuota;
      StepKeepsReserve(RunAll(s, init), es[|es| - 1], p, k, t);
    }
    ReserveBounds(RunAll(s, es), p, k, t);
  }

  lemma StartsInReserve(s: Sys, p: Period, k: nat, t: nat)
    requires s.runs == map[] && Used(s.config, p) < Limit(s.config, p)
    ensures Reserve(s, p, k, t)
  {
    assert InFlight(s) == {};
    Scaled(t, 0, k);
  }

  lemma ReserveBounds(s: Sys, p: Period, k: nat, t: nat)
    requires Reserve(s, p, k, t)
    ensures Used(s.config, p) <= Limit(s.config, p) - 1 + k * t
  {
    assert t * |InFlight(s)| >= 0;
  }

  // ---------- the bound is reached, and counting from the check is not enough ----------

  /** n runs read the row; then the first j of them, one after the other, are checked and record t tokens each. */
  function Queue(n: nat, j: nat, t: nat): seq<Event>
    requires j <= n
    decreases n + j
  {
    if j > 0 then Queue(n, j - 1, t) + [Check(j - 1)] + [Record(j - 1, t)]
    else if n > 0 then Queue(n - 1, 0, t) + [Read(n - 1)]
    else []
  }

  function Waiting(from: nat, to: nat, seen: Config): (w: map<RunId, Phase>)
    ensures forall r :: r in w <==> from <= r < to
    ensures forall r :: r in w ==> w[r] == HasRead(seen)
  {
    if from < to then Waiting(from, to - 1, seen)[to - 1 := HasRead(seen)] else map[]
  }

  lemma {:induction false} Between(from: nat, to: nat, rs: set<RunId>)
    requires from <= to && forall r: RunId :: r in rs <==> from <= r < to
    ensures |rs| == to - from
  {
    if from < to {
      Between(from, to - 1, rs - {to - 1});
    } else {
      assert rs == {};
    }
  }

  lemma AppendEvent(s: Sys, es: seq<Event>, e: Event, k: nat, t: nat, fromRead: bool)
    requires Possible(s, es) && Bounded(s, es, k, t, fromRead) && Enabled(RunAll(s, es), e)
    requires var after := Step(RunAll(s, es), e);
             if fromRead then |InFlight(after)| <= k else |PastCheck(after)| <= k
    requires e.Record? ==> e.tokens <= t
    ensures Possible(s, es + [e]) && RunAll(s, es + [e]) == Step(RunAll(s, es), e)
    ensures Bounded(s, es + [e], k, t, fromRead)
  {
    assert (es + [e])[..|es + [e]| - 1] == es;
  }

  /** What the queue has come to, with as many runs in flight as `fromRead` counts. */
  ghost predicate QueueAt(s: Sys, n: nat, j: nat, t: nat, k: nat, fromRead: bool)
    requires j <= n
  {
    && Possible(s, Queue(n, j, t)) && Bounded(s, Queue(n, j, t), k, t, fromRead)
    && RunAll(s, Queue(n, j, t)) == Sys(Increment(s.config, j * t), Waiting(j, n, s.config))
  }

  lemma {:induction false} QueueReads(s: Sys, n: nat, t: nat, k: nat, fromRead: bool)
    requires s.runs == map[] && (fromRead ==> n <= k)
    ensures QueueAt(s, n, 0, t, k, fromRead)
  {
    assert Increment(s.config, 0) == s.config;
    if n == 0 {
      assert Waiting(0, 0, s.config) == map[];
    } else {
      QueueReads(s, n - 1, t, k, fromRead);
      var after := Step(Sys(s.config, Waiting(0, n - 1, s.config)), Read(n - 1));
      assert after == Sys(s.config, Waiting(0, n, s.config));
      WaitingCounts(s.config, after, 0, n);
      hide CheckAgentQuota, InFlight, PastCheck;
      AppendEvent(s, Queue(n - 1, 0, t), Read(n - 1), k, t, fromRead);
    }
  }

  lemma WaitingCounts(seen: Config, s: Sys, from: nat, to: nat)
    requires from <= to && s.runs == Waiting(from, to, seen)
    ensures |InFlight(s)| <= to - from && PastCheck(s) == {}
  {
    var all := set r | r in s.runs;
    Between(from, to, all);
    SubsetSize(InFlight(s), all);
  }

  lemma {:induction false} SubsetSize(a: set<RunId>, b: set<RunId>)
    requires a <= b
    ensures |a| <= |b|
  {
    if a != {} {
      var x :| x in a;
      SubsetSize(a - {x}, b - {x});
    }
  }

  lemma {:induction false} QueueRuns(s: Sys, n: nat, j: nat, t: nat, k: nat, fromRead: bool)
    requires s.runs == map[] && CheckAgentQuota(s.config).Allowed? && j <= n
    requires if fromRead then n <= k else 1 <= k
    ensures QueueAt(s, n, j, t, k, fromRead)
    decreases j
  {
    if j == 0 {
      QueueReads(s, n, t, k, fromRead);
    } else {
      QueueRuns(s, n, j - 1, t, k, fromRead);
      hide CheckAgentQuota;
      QueueServes(s, n, j, t, k, fromRead);
    }
  }

  /** The next run of the queue is checked and records. */
  lemma QueueServes(s: Sys, n: nat, j: nat, t: nat, k: nat, fromRead: bool)
    requires 0 < j <= n && CheckAgentQuota(s.config).Allowed? && QueueAt(s, n, j - 1, t, k, fromRead)
    requires if fromRead then n <= k else 1 <= k
    ensures QueueAt(s, n, j, t, k, fromRead)
  {
    var before := RunAll(s, Queue(n, j - 1, t));
    var checked := Step(before, Check(j - 1));
    var after := Step(checked, Record(j - 1, t));
    CheckedCounts(s.config, before, n, j);
    assert Waiting(j - 1, n, s.config) - {j - 1} == Waiting(j, n, s.config);
    assert checked.runs - {j - 1} == Waiting(j, n, s.config);
    Recorded(s.config, j, t);
    WaitingCounts(s.config, after, j, n);
    hide CheckAgentQuota, InFlight, PastCheck, Bounded, RunAll, Possible, Waiting;
    AppendEvent(s, Queue(n, j - 1, t), Check(j - 1), k, t, fromRead);
    AppendEvent(s, Queue(n, j - 1, t) + [Check(j - 1)], Record(j - 1, t), k, t, fromRead);
  }

  lemma Recorded(c: Config, j: nat, t: nat)
    requires j > 0
    ensures Increment(Increment(c, (j - 1) * t), t) == Increment(c, j * t)
  {
    assert (j - 1) * t + t == j * t;
  }

  lemma CheckedCounts(seen: Config, s: Sys, n: nat, j: nat)
    requires 0 < j <= n && CheckAgentQuota(seen).Allowed? && s.runs == Waiting(j - 1, n, seen)
    ensures Enabled(s, Check(j - 1))
    ensures var after := Step(s, Check(j - 1)); |InFlight(after)| <= n && PastCheck(after) == {j - 1}
  {
    StepMovesFlight(s, Check(j - 1));
    WaitingCounts(seen, s, j - 1, n);
  }

  /** From one token below the limit, k runs at once reach the bound exactly. */
  lemma BoundIsReached(s: Sys, p: Period, k: nat, t: nat)
    requires s.runs == map[] && CheckAgentQuota(s.config).Allowed? && Used(s.config, p) == Limit(s.config, p) - 1
    ensures Possible(s, Queue(k, k, t)) && Bounded(s, Queue(k, k, t), k, t, true)
    ensures Used(RunAll(s, Queue(k, k, t)).config, p) == Limit(s.config, p) - 1 + k * t
  {
    QueueRuns(s, k, k, t, k, true);
  }

  /**
   Counted from the check, nothing is bounded: with never more than one run between check and count, n
   runs that read the same row take the counter past any number of their t tokens.
   */
  lemma CountingFromCheckIsNotEnough(s: Sys, p: Period, n: nat, t: nat)
    requires s.runs == map[] && CheckAgentQuota(s.config).Allowed?
    ensures Possible(s, Queue(n, n, t)) && Bounded(s, Queue(n, n, t), 1, t, false)
    ensures Used(RunAll(s, Queue(n, n, t)).config, p) == Used(s.config, p) + n * t
  {
    QueueRuns(s, n, n, t, 1, false);
  }

  const TEN_PER_HOUR := Config(10, 0, 0, 9, 0, 0, None, None, None)

  /** Two stale reads: limit 10, used 9, five tokens each, one run at a time past its check, and the counter ends at 19. */
  lemma StaleReadsOvershoot()
    ensures var s := Sys(TEN_PER_HOUR, map[]);
            && Possible(s, Queue(2, 2, 5)) && Bounded(s, Queue(2, 2, 5), 1, 5, false)
            && Used(RunAll(s, Queue(2, 2, 5)).config, Hour) == 19 > Limit(TEN_PER_HOUR, Hour) - 1 + 1 * 5
  {
    CountingFromCheckIsNotEnough(Sys(TEN_PER_HOUR, map[]), Hour, 2, 5);
  }

  // ---------- each counter has its own history ----------

  /** Tokens recorded since the last reset of this period; `start` if it was never reset. */
  function SinceReset(start: int, es: seq<Event>, p: Period): int {
    if es == [] then start
    else match es[|es| - 1]
         case Record(_, tokens) => SinceReset(start, es[..|es| - 1], p) + tokens
         case ResetCounter(q, _) => if q == p then 0 else SinceReset(start, es[..|es| - 1], p)
         case _ => SinceReset(start, es[..|es| - 1], p)
  }

  lemma {:induction false} CountersAreIndependent(s: Sys, es: seq<Event>, p: Period)
    requires Possible(s, es)
    ensures Used(RunAll(s, es).config, p) == SinceReset(Used(s.config, p), es, p)
  {
    if es != [] { CountersAreIndependent(s, es[..|es| - 1], p); }
  }

  // ---------- the repository ----------

  const DEFAULT_CONFIG := Config(50000, 500000, 5000000, 0, 0, 0, None, None, None)

  class AgentConfigRepository {
    var configs: map<AgentKey, Config>

    constructor ()
      ensures configs == map[]
    {
      configs := map[];
    }

    /** Upsert: a missing row is created with the default limits of 50,000, 500,000 and 5,000,000 tokens. */
    method IncrementTokenUsage(key: AgentKey, tokens: int)
      modifies this
      ensures configs == old(configs)[key := Increment(if key in old(configs) then old(configs)[key] else DEFAULT_CONFIG,
                                                       tokens)]
      ensures key in configs && forall k :: k in configs && k != key ==> k in old(configs) && configs[k] == old(configs)[k]
      ensures key in old(configs) ==>
                var c := old(configs)[key];
                configs[key] == Config(c.perHour, c.perDay, c.perMonth, c.usedHour + tokens, c.usedDay + tokens,
                                       c.usedMonth + tokens, c.resetHour, c.resetDay, c.resetMonth)
      ensures key !in old(configs) ==>
                configs[key] == Config(50000, 500000, 5000000, tokens, tokens, tokens, None, None, None)
    {
      if key in configs {
        var c := configs[key];
        configs := configs[key := c.(usedHour := c.usedHour + tokens, usedDay := c.usedDay + tokens,
                                     usedMonth := c.usedMonth + tokens)];
      } else {
        configs := configs[key := DEFAULT_CONFIG.(usedHour := tokens, usedDay := tokens, usedMonth := tokens)];
      }
    }

    /** False when the row does not exist. */
    method ResetTokenCounters(key: AgentKey, p: Period, at: Time) returns (ok: bool)
      modifies this
      ensures ok == (key in old(configs))
      ensures configs == if ok then old(configs)[key := Reset(old(configs)[key], p, at)] else old(configs)
      ensures ok ==>
                var c := old(configs)[key];
                configs[key] == match p
                                case Hour => Config(c.perHour, c.perDay, c.perMonth, 0, c.usedDay, c.usedMonth,
                                                    Some(at), c.resetDay, c.resetMonth)
                                case Day => Config(c.perHour, c.perDay, c.perMonth, c.usedHour, 0, c.usedMonth,
                                                   c.resetHour, Some(at), c.resetMonth)
                                case Month => Config(c.perHour, c.perDay, c.perMonth, c.usedHour, c.usedDay, 0,
                                                     c.resetHour, c.resetDay, Some(at))
    {
      if key !in configs {
        return false;
      }
      var c := configs[key];
      match p {
        case Hour => c := c.(usedHour := 0, resetHour := Some(at));
        case Day => c := c.(usedDay := 0, resetDay := Some(at));
        case Month => c := c.(usedMonth := 0, resetMonth := Some(at));
      }
      configs := configs[key := c];
      return true;
    }
  }
}
