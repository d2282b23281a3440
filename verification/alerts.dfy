/** Alert actions: a read, a status check, then an unconditional write; alone, in bulk, and interleaved. */
module Alerts {
  import opened Options

  type AlertId = nat
  type TenantId = nat
  type Time = int

  datatype AlertStatus = NewAlert | Acknowledged | InProgress | Resolved | Closed | FalsePositive

  datatype Alert = Alert(tenant: TenantId, status: AlertStatus, acknowledgedBy: Option<string>,
                         acknowledgedAt: Option<Time>, resolution: Option<string>, closedAt: Option<Time>,
                         closedBy: Option<string>, content: string)

  type Table = map<AlertId, Alert>

  datatype Action =
    | Acknowledge(email: string, at: Time)
    | Investigate
    | Escalate
    | Close(resolution: string, email: string, at: Time)

  datatype ActionError = NotFound | AlreadyClosed

  predicate Final(a: Alert) { a.status.Closed? || a.status.Resolved? }

  predicate Visible(t: Table, tenant: TenantId, id: AlertId) { id in t && t[id].tenant == tenant }

  /** The alert exists for this tenant and is neither closed nor resolved. */
  predicate Eligible(t: Table, tenant: TenantId, id: AlertId) { Visible(t, tenant, id) && !Final(t[id]) }

  function Written(a: Alert, action: Action): Alert {
    match action
    case Acknowledge(email, at) => a.(status := Acknowledged, acknowledgedBy := Some(email), acknowledgedAt := Some(at))
    case Investigate => a.(status := InProgress)
    case Escalate => a.(status := InProgress)
    case Close(resolution, email, at) =>
      a.(status := Closed, resolution := Some(resolution), closedAt := Some(at), closedBy := Some(email))
  }

  /** `updateByIdAndTenant`: no look at the status. */
  function Write(t: Table, tenant: TenantId, id: AlertId, action: Action): Table {
    if Visible(t, tenant, id) then t[id := Written(t[id], action)] else t
  }

  // ---------- many jobs at once ----------

  /** One alert, one action; its two steps are separate. */
  datatype Job = Job(id: AlertId, action: Action)
  datatype Phase = Waiting | Passed | Done(ok: bool)
  datatype Sys = Sys(table: Table, phases: seq<Phase>)

  function Start(t: Table, jobs: seq<Job>): Sys { Sys(t, seq(|jobs|, i => Waiting)) }

  /** The next step of job i: read and check, or write. A finished job has none. */
  function Advance(s: Sys, tenant: TenantId, jobs: seq<Job>, i: nat): Sys
    requires |s.phases| == |jobs| && i < |jobs|
  {
    match s.phases[i]
    case Waiting =>
      s.(phases := s.phases[i := if Eligible(s.table, tenant, jobs[i].id) then Passed else Done(false)])
    case Passed =>
      Sys(Write(s.table, tenant, jobs[i].id, jobs[i].action),
          s.phases[i := Done(Visible(s.table, tenant, jobs[i].id))])
    case Done(_) => s
  }

  predicate Valid(schedule: seq<nat>, jobs: seq<Job>) { forall k :: 0 <= k < |schedule| ==> schedule[k] < |jobs| }

  /** Any schedule: which job takes its next step at each moment. */
  function Continue(s: Sys, tenant: TenantId, jobs: seq<Job>, schedule: seq<nat>): (r: Sys)
    requires |s.phases| == |jobs| && Valid(schedule, jobs)
    ensures |r.phases| == |jobs| && r.table.Keys == s.table.Keys
  {
    if schedule == [] then s
    else Advance(Continue(s, tenant, jobs, schedule[..|schedule| - 1]), tenant, jobs, schedule[|schedule| - 1])
  }

  function Run(t: Table, tenant: TenantId, jobs: seq<Job>, schedule: seq<nat>): (s: Sys)
    requires Valid(schedule, jobs)
    ensures |s.phases| == |jobs| && s.table.Keys == t.Keys
  {
    Continue(Start(t, jobs), tenant, jobs, schedule)
  }

  /** No alert that can be acted on is named twice; repeated ids of other alerts do no harm. */
  predicate NoneTwice(t: Table, tenant: TenantId, jobs: seq<Job>) {
    forall i, j :: 0 <= i < j < |jobs| && jobs[i].id == jobs[j].id ==> !Eligible(t, tenant, jobs[i].id)
  }

  predicate AllDone(s: Sys) { forall i :: 0 <= i < |s.phases| ==> s.phases[i].Done? }

  /** Job i has exactly done its own part of the work on the table it started from. */
  ghost predicate JobAt(t: Table, tenant: TenantId, job: Job, table: Table, phase: Phase) {
    && (phase.Passed? ==> Eligible(t, tenant, job.id))
    && (phase.Done? ==> phase.ok == Eligible(t, tenant, job.id))
    && (job.id in t ==>
          && job.id in table
          && table[job.id] == if phase == Done(true) then Written(t[job.id], job.action) else t[job.id])
  }

  ghost predicate Progress(t: Table, tenant: TenantId, jobs: seq<Job>, s: Sys) {
    && |s.phases| == |jobs|
    && s.table.Keys == t.Keys
    && (forall i :: 0 <= i < |jobs| ==> JobAt(t, tenant, jobs[i], s.table, s.phases[i]))
    && (forall id :: id in t && (forall i :: 0 <= i < |jobs| ==> jobs[i].id != id) ==> s.table[id] == t[id])
  }

  lemma AdvanceProgress(t: Table, tenant: TenantId, jobs: seq<Job>, s: Sys, i: nat)
    requires NoneTwice(t, tenant, jobs) && Progress(t, tenant, jobs, s) && i < |jobs|
    ensures Progress(t, tenant, jobs, Advance(s, tenant, jobs, i))
  {
    var next := Advance(s, tenant, jobs, i);
    forall k | 0 <= k < |jobs| ensures JobAt(t, tenant, jobs[k], next.table, next.phases[k]) {
      assert JobAt(t, tenant, jobs[k], s.table, s.phases[k]);
      assert JobAt(t, tenant, jobs[i], s.table, s.phases[i]);
      if k != i && jobs[k].id == jobs[i].id { assert !Eligible(t, tenant, jobs[i].id); }
    }
  }

  lemma {:induction false} ScheduleProgress(t: Table, tenant: TenantId, jobs: seq<Job>, schedule: seq<nat>)
    requires NoneTwice(t, tenant, jobs) && Valid(schedule, jobs)
    ensures Progress(t, tenant, jobs, Run(t, tenant, jobs, schedule))
  {
    if schedule != [] {
      var init := schedule[..|schedule| - 1];
      ScheduleProgress(t, tenant, jobs, init);
      hide Progress;
      AdvanceProgress(t, tenant, jobs, Run(t, tenant, jobs, init), schedule[|schedule| - 1]);
    }
  }

  // ---------- the same jobs one after the other ----------

  function RunSerially(t: Table, tenant: TenantId, jobs: seq<Job>): Sys {
    if jobs == [] then Sys(t, [])
    else
      var s := RunSerially(t, tenant, jobs[..|jobs| - 1]);
      var job := jobs[|jobs| - 1];
      if Eligible(s.table, tenant, job.id)
      then Sys(Write(s.table, tenant, job.id, job.action), s.phases + [Done(true)])
      else Sys(s.table, s.phases + [Done(false)])
  }

  lemma {:induction false} SerialProgress(t: Table, tenant: TenantId, jobs: seq<Job>)
    requires NoneTwice(t, tenant, jobs)
    ensures Progress(t, tenant, jobs, RunSerially(t, tenant, jobs)) && AllDone(RunSerially(t, tenant, jobs))
  {
    if jobs != [] {
      var init, job := jobs[..|jobs| - 1], jobs[|jobs| - 1];
      SerialProgress(t, tenant, init);
      var before, after := RunSerially(t, tenant, init), RunSerially(t, tenant, jobs);
      assert forall i :: 0 <= i < |init| && init[i].id == job.id ==> !Eligible(t, tenant, job.id);
      forall i | 0 <= i < |jobs| ensures JobAt(t, tenant, jobs[i], after.table, after.phases[i]) {
        if i < |init| { assert JobAt(t, tenant, init[i], before.table, before.phases[i]); }
      }
    }
  }

  lemma ProgressIsUnique(t: Table, tenant: TenantId, jobs: seq<Job>, a: Sys, b: Sys)
    requires Progress(t, tenant, jobs, a) && Progress(t, tenant, jobs, b) && AllDone(a) && AllDone(b)
    ensures a == b
  {
    forall i | 0 <= i < |jobs| ensures a.phases[i] == b.phases[i] {
      assert JobAt(t, tenant, jobs[i], a.table, a.phases[i]) && JobAt(t, tenant, jobs[i], b.table, b.phases[i]);
    }
    forall id | id in t ensures a.table[id] == b.table[id] {
      if i :| 0 <= i < |jobs| && jobs[i].id == id {
        assert JobAt(t, tenant, jobs[i], a.table, a.phases[i]) && JobAt(t, tenant, jobs[i], b.table, b.phases[i]);
      }
    }
  }

  /** On distinct alerts, every finished interleaving ends exactly like the serial run: same table, same outcomes. */
  lemma InterleavedIsSerial(t: Table, tenant: TenantId, jobs: seq<Job>, schedule: seq<nat>)
    requires NoneTwice(t, tenant, jobs) && Valid(schedule, jobs)
    requires AllDone(Run(t, tenant, jobs, schedule))
    ensures Run(t, tenant, jobs, schedule) == RunSerially(t, tenant, jobs)
    ensures forall i :: 0 <= i < |jobs| ==>
              Run(t, tenant, jobs, schedule).phases[i] == Done(Eligible(t, tenant, jobs[i].id))
  {
    var end := Run(t, tenant, jobs, schedule);
    ScheduleProgress(t, tenant, jobs, schedule);
    SerialProgress(t, tenant, jobs);
    ProgressIsUnique(t, tenant, jobs, end, RunSerially(t, tenant, jobs));
    forall i | 0 <= i < |jobs| ensures end.phases[i] == Done(Eligible(t, tenant, jobs[i].id)) {
      assert JobAt(t, tenant, jobs[i], end.table, end.phases[i]);
    }
  }

  // ---------- final states ----------

  function Act(t: Table, tenant: TenantId, job: Job): Table {
    if Eligible(t, tenant, job.id) then Write(t, tenant, job.id, job.action) else t
  }

  /** Served one at a time, no sequence of actions ever touches a closed or resolved alert. */
  lemma {:induction false} FinalIsAbsorbingSerially(t: Table, tenant: TenantId, jobs: seq<Job>, id: AlertId)
    requires id in t && Final(t[id])
    ensures id in RunSerially(t, tenant, jobs).table && RunSerially(t, tenant, jobs).table[id] == t[id]
  {
    if jobs != [] { FinalIsAbsorbingSerially(t, tenant, jobs[..|jobs| - 1], id); }
  }

  /** Served one at a time, the close that succeeds has the last word on its alert. */
  lemma {:induction false} CloseIsLastSerially(t: Table, tenant: TenantId, jobs: seq<Job>, i: nat)
    requires i < |jobs| && jobs[i].action.Close?
    requires |RunSerially(t, tenant, jobs).phases| == |jobs|
    requires RunSerially(t, tenant, jobs).phases[i] == Done(true)
    ensures var table := RunSerially(t, tenant, jobs).table;
            var close := jobs[i].action;
            && jobs[i].id in table && table[jobs[i].id].status.Closed?
            && table[jobs[i].id].resolution == Some(close.resolution)
            && table[jobs[i].id].closedBy == Some(close.email) && table[jobs[i].id].closedAt == Some(close.at)
  {
    SerialPhases(t, tenant, jobs[..|jobs| - 1]);
    if i < |jobs| - 1 {
      CloseIsLastSerially(t, tenant, jobs[..|jobs| - 1], i);
    }
  }

  lemma {:induction false} SerialPhases(t: Table, tenant: TenantId, jobs: seq<Job>)
    ensures |RunSerially(t, tenant, jobs).phases| == |jobs|
  {
    if jobs != [] { SerialPhases(t, tenant, jobs[..|jobs| - 1]); }
  }

  // ---------- when a closed alert reopens ----------

  /** Job i checked this alert before it was final, and its write gives it another status. */
  predicate Reopens(s: Sys, tenant: TenantId, jobs: seq<Job>, i: nat, id: AlertId)
    requires |s.phases| == |jobs| && i < |jobs|
  {
    s.phases[i].Passed? && jobs[i].id == id && Visible(s.table, tenant, id) && !jobs[i].action.Close?
  }

  /** One step takes an alert out of its final status exactly when it is the write of such a job. */
  lemma StepReopensIff(s: Sys, tenant: TenantId, jobs: seq<Job>, i: nat, id: AlertId)
    requires |s.phases| == |jobs| && i < |jobs| && id in s.table && Final(s.table[id])
    ensures !Final(Advance(s, tenant, jobs, i).table[id]) <==> Reopens(s, tenant, jobs, i, id)
  {
  }

  /** Once an alert is final no further job gets past its check. */
  lemma NoneArmed(s: Sys, tenant: TenantId, jobs: seq<Job>, i: nat, id: AlertId, k: nat)
    requires |s.phases| == |jobs| && i < |jobs| && k < |jobs| && id in s.table && Final(s.table[id])
    ensures var next := Advance(s, tenant, jobs, i);
            && (Reopens(next, tenant, jobs, k, id) ==> Reopens(s, tenant, jobs, k, id))
            && (jobs[k].id == id && next.phases[k].Passed? ==> s.phases[k].Passed?)
  {
  }

  /**
   From a state where an alert is final: it stays final on every further schedule if and only if no
   job that has passed its check on it is anything but a close.
   */
  lemma {:induction false} StaysFinalIff(s: Sys, tenant: TenantId, jobs: seq<Job>, id: AlertId)
    requires |s.phases| == |jobs| && id in s.table && Final(s.table[id])
    ensures (forall schedule: seq<nat> :: Valid(schedule, jobs) ==> Final(Continue(s, tenant, jobs, schedule).table[id]))
            <==> forall i :: 0 <= i < |jobs| ==> !Reopens(s, tenant, jobs, i, id)
  {
    if i :| 0 <= i < |jobs| && Reopens(s, tenant, jobs, i, id) {
      StepReopensIff(s, tenant, jobs, i, id);
      ContinueOne(s, tenant, jobs, [], i);
      assert !Final(Continue(s, tenant, jobs, [] + [i]).table[id]);
    } else {
      forall schedule: seq<nat> | Valid(schedule, jobs)
        ensures Final(Continue(s, tenant, jobs, schedule).table[id])
      {
        StaysFinal(s, tenant, jobs, id, schedule);
      }
    }
  }

  lemma {:induction false} StaysFinal(s: Sys, tenant: TenantId, jobs: seq<Job>, id: AlertId, schedule: seq<nat>)
    requires |s.phases| == |jobs| && id in s.table && Final(s.table[id]) && Valid(schedule, jobs)
    requires forall i :: 0 <= i < |jobs| ==> !Reopens(s, tenant, jobs, i, id)
    ensures var end := Continue(s, tenant, jobs, schedule);
            Final(end.table[id]) && forall i :: 0 <= i < |jobs| ==> !Reopens(end, tenant, jobs, i, id)
  {
    if schedule != [] {
      var init, last := schedule[..|schedule| - 1], schedule[|schedule| - 1];
      StaysFinal(s, tenant, jobs, id, init);
      var before := Continue(s, tenant, jobs, init);
      StepReopensIff(before, tenant, jobs, last, id);
      forall i | 0 <= i < |jobs| ensures !Reopens(Advance(before, tenant, jobs, last), tenant, jobs, i, id) {
        NoneArmed(before, tenant, jobs, last, id, i);
      }
    }
  }

  /** With no job past its check on a final alert, no further schedule changes anything in its row. */
  lemma {:induction false} FinalUntouched(s: Sys, tenant: TenantId, jobs: seq<Job>, id: AlertId, schedule: seq<nat>)
    requires |s.phases| == |jobs| && id in s.table && Final(s.table[id]) && Valid(schedule, jobs)
    requires forall i :: 0 <= i < |jobs| && jobs[i].id == id ==> !s.phases[i].Passed?
    ensures var end := Continue(s, tenant, jobs, schedule);
            end.table[id] == s.table[id] && forall i :: 0 <= i < |jobs| && jobs[i].id == id ==> !end.phases[i].Passed?
  {
    if schedule != [] {
      var init, last := schedule[..|schedule| - 1], schedule[|schedule| - 1];
      FinalUntouched(s, tenant, jobs, id, init);
      var before := Continue(s, tenant, jobs, init);
      forall i | 0 <= i < |jobs| && jobs[i].id == id ensures !Advance(before, tenant, jobs, last).phases[i].Passed? {
        NoneArmed(before, tenant, jobs, last, id, i);
      }
    }
  }

  /** An alert that cannot be acted on at the start never changes, and no job gets past its check on it. */
  lemma {:induction false} NotEligibleUntouched(t: Table, tenant: TenantId, jobs: seq<Job>, id: AlertId, schedule: seq<nat>)
    requires id in t && !Eligible(t, tenant, id) && Valid(schedule, jobs)
    ensures var end := Run(t, tenant, jobs, schedule);
            end.table[id] == t[id] && forall i :: 0 <= i < |jobs| && jobs[i].id == id ==> !end.phases[i].Passed?
  {
    if schedule != [] {
      NotEligibleUntouched(t, tenant, jobs, id, schedule[..|schedule| - 1]);
    }
  }

  /** Without a close among its jobs an open alert never becomes final. */
  lemma {:induction false} NeverFinal(t: Table, tenant: TenantId, jobs: seq<Job>, id: AlertId, schedule: seq<nat>)
    requires id in t && !Final(t[id]) && Valid(schedule, jobs)
    requires forall i :: 0 <= i < |jobs| && jobs[i].id == id ==> !jobs[i].action.Close?
    ensures !Final(Run(t, tenant, jobs, schedule).table[id])
  {
    if schedule != [] {
      NeverFinal(t, tenant, jobs, id, schedule[..|schedule| - 1]);
    }
  }

  predicate Named(jobs: seq<Job>, id: AlertId, close: bool) {
    exists i :: 0 <= i < |jobs| && jobs[i].id == id && jobs[i].action.Close? == close
  }

  predicate CanReopen(t: Table, tenant: TenantId, jobs: seq<Job>, id: AlertId) {
    Eligible(t, tenant, id) && Named(jobs, id, true) && Named(jobs, id, false)
  }

  lemma {:induction false} OnceFinalStays(t: Table, tenant: TenantId, jobs: seq<Job>, id: AlertId, first: seq<nat>, rest: seq<nat>)
    requires id in t && !CanReopen(t, tenant, jobs, id) && Valid(first, jobs) && Valid(rest, jobs)
    requires Final(Run(t, tenant, jobs, first).table[id])
    ensures Final(Continue(Run(t, tenant, jobs, first), tenant, jobs, rest).table[id])
  {
    var s := Run(t, tenant, jobs, first);
    if !Eligible(t, tenant, id) {
      NotEligibleUntouched(t, tenant, jobs, id, first);
      FinalUntouched(s, tenant, jobs, id, rest);
    } else if !Named(jobs, id, true) {
      NeverFinal(t, tenant, jobs, id, first);
    } else {
      StaysFinal(s, tenant, jobs, id, rest);
    }
  }

  lemma {:induction false} ContinueOne(s: Sys, tenant: TenantId, jobs: seq<Job>, schedule: seq<nat>, i: nat)
    requires |s.phases| == |jobs| && i < |jobs| && Valid(schedule, jobs)
    ensures Valid(schedule + [i], jobs)
    ensures Continue(s, tenant, jobs, schedule + [i]) == Advance(Continue(s, tenant, jobs, schedule), tenant, jobs, i)
  {
    assert (schedule + [i])[..|schedule + [i]| - 1] == schedule;
  }

  lemma ContinueNothing(s: Sys, tenant: TenantId, jobs: seq<Job>)
    requires |s.phases| == |jobs|
    ensures Valid([], jobs) && Continue(s, tenant, jobs, []) == s
  {
  }

  /** Job j checks, job i checks and closes; then job j writes. */
  lemma {:induction false} ReopeningRun(t: Table, tenant: TenantId, jobs: seq<Job>, id: AlertId, i: nat, j: nat)
    requires Eligible(t, tenant, id) && i < |jobs| && j < |jobs| && jobs[i].id == id == jobs[j].id
    requires jobs[i].action.Close? && !jobs[j].action.Close?
    ensures Valid([] + [j] + [i] + [i], jobs) && Final(Run(t, tenant, jobs, [] + [j] + [i] + [i]).table[id])
    ensures Valid([] + [j], jobs)
    ensures !Final(Continue(Run(t, tenant, jobs, [] + [j] + [i] + [i]), tenant, jobs, [] + [j]).table[id])
  {
    var s0 := Start(t, jobs);
    ContinueNothing(s0, tenant, jobs);
    ContinueOne(s0, tenant, jobs, [], j);
    ContinueOne(s0, tenant, jobs, [] + [j], i);
    ContinueOne(s0, tenant, jobs, [] + [j] + [i], i);
    var closed := Run(t, tenant, jobs, [] + [j] + [i] + [i]);
    ContinueNothing(closed, tenant, jobs);
    ContinueOne(closed, tenant, jobs, [], j);
    hide Continue;
    ClosedInBetween(t, tenant, jobs, id, i, j);
    assert closed == Advance(Advance(Advance(s0, tenant, jobs, j), tenant, jobs, i), tenant, jobs, i);
    hide Start, Advance, Run;
    StepReopensIff(closed, tenant, jobs, j, id);
  }

  lemma ClosedInBetween(t: Table, tenant: TenantId, jobs: seq<Job>, id: AlertId, i: nat, j: nat)
    requires Eligible(t, tenant, id) && i < |jobs| && j < |jobs| && jobs[i].id == id == jobs[j].id
    requires jobs[i].action.Close? && !jobs[j].action.Close?
    ensures var closed := Advance(Advance(Advance(Start(t, jobs), tenant, jobs, j), tenant, jobs, i), tenant, jobs, i);
            |closed.phases| == |jobs| && id in closed.table && Final(closed.table[id]) && Reopens(closed, tenant, jobs, j, id)
  {
  }

  /**
   On the inputs alone: some interleaving makes an alert final and later takes it out again, if and
   only if the alert can be acted on at the start and the jobs hold both a close and another action on it.
   */
  lemma {:induction false} ReopensIff(t: Table, tenant: TenantId, jobs: seq<Job>, id: AlertId)
    requires id in t
    ensures (forall first: seq<nat>, rest: seq<nat> | Valid(first, jobs) && Valid(rest, jobs)
                                                      && Final(Run(t, tenant, jobs, first).table[id]) ::
               Final(Continue(Run(t, tenant, jobs, first), tenant, jobs, rest).table[id]))
            <==> !CanReopen(t, tenant, jobs, id)
  {
    hide Continue, Run, Final;
    if CanReopen(t, tenant, jobs, id) {
      var i :| 0 <= i < |jobs| && jobs[i].id == id && jobs[i].action.Close?;
      var j :| 0 <= j < |jobs| && jobs[j].id == id && !jobs[j].action.Close?;
      ReopeningRun(t, tenant, jobs, id, i, j);
    } else {
      forall first: seq<nat>, rest: seq<nat> | Valid(first, jobs) && Valid(rest, jobs)
                                               && Final(Run(t, tenant, jobs, first).table[id])
        ensures Final(Continue(Run(t, tenant, jobs, first), tenant, jobs, rest).table[id])
      {
        OnceFinalStays(t, tenant, jobs, id, first, rest);
      }
    }
  }

  const OPEN_ALERT := Alert(0, NewAlert, None, None, None, None, None, "")
  const TABLE := map[1 := OPEN_ALERT]
  const RACE := [Job(1, Close("done", "a", 5)), Job(1, Acknowledge("b", 5))]

  lemma OneMoreStep(t: Table, tenant: TenantId, jobs: seq<Job>, schedule: seq<nat>, i: nat)
    requires i < |jobs| && Valid(schedule, jobs)
    ensures Run(t, tenant, jobs, schedule + [i]) == Advance(Run(t, tenant, jobs, schedule), tenant, jobs, i)
  {
    ContinueOne(Start(t, jobs), tenant, jobs, schedule, i);
  }

  const CHECKED_BOTH: seq<nat> := [] + [0] + [1]

  /** Interleaved on one alert it is not: the check is stale by the time of the write, and a closed alert reopens. */
  lemma RaceReopensClosedAlert()
    ensures Run(TABLE, 0, RACE, CHECKED_BOTH + [0]).table[1].status.Closed?
    ensures Run(TABLE, 0, RACE, CHECKED_BOTH + [0] + [1]).table[1].status.Acknowledged?
    ensures Run(TABLE, 0, RACE, CHECKED_BOTH + [0] + [1]).phases == [Done(true), Done(true)]
    ensures RunSerially(TABLE, 0, RACE).phases == [Done(true), Done(false)]
  {
    ContinueNothing(Start(TABLE, RACE), 0, RACE);
    assert Run(TABLE, 0, RACE, []) == Sys(TABLE, [Waiting, Waiting]);
    OneMoreStep(TABLE, 0, RACE, [], 0);
    OneMoreStep(TABLE, 0, RACE, [] + [0], 1);
    hide Continue, Run, Start;
    assert Run(TABLE, 0, RACE, CHECKED_BOTH) == Sys(TABLE, [Passed, Passed]);
    OneMoreStep(TABLE, 0, RACE, CHECKED_BOTH, 0);
    OneMoreStep(TABLE, 0, RACE, CHECKED_BOTH + [0], 1);
    SerialRace();
  }

  lemma SerialRace()
    ensures RunSerially(TABLE, 0, RACE).phases == [Done(true), Done(false)]
  {
    assert RACE[..1] == [RACE[0]] && RACE[..1][..0] == [];
    assert RunSerially(TABLE, 0, RACE[..1]).phases == [Done(true)];
  }

  // ---------- the service ----------

  function CountOk(phases: seq<Phase>): nat {
    if phases == [] then 0
    else CountOk(phases[..|phases| - 1]) + if phases[|phases| - 1] == Done(true) then 1 else 0
  }

  function JobsFor(ids: seq<AlertId>, action: Action): seq<Job> { seq(|ids|, i requires 0 <= i < |ids| => Job(ids[i], action)) }

  lemma NoIds(t: Table, tenant: TenantId, ids: seq<AlertId>, action: Action)
    ensures var s := RunSerially(t, tenant, JobsFor(ids[..0], action)); s.table == t && CountOk(s.phases) == 0
  {
  }

  /** What the next id adds to a serial run. */
  lemma OneMoreId(t: Table, tenant: TenantId, ids: seq<AlertId>, action: Action, i: nat)
    requires i < |ids|
    ensures var s, next := RunSerially(t, tenant, JobsFor(ids[..i], action)),
                           RunSerially(t, tenant, JobsFor(ids[..i + 1], action));
            && next.table == Act(s.table, tenant, Job(ids[i], action))
            && CountOk(next.phases) == CountOk(s.phases) + if Eligible(s.table, tenant, ids[i]) then 1 else 0
  {
    hide Eligible, Write;
    var jobs := JobsFor(ids[..i + 1], action);
    assert jobs[..|jobs| - 1] == JobsFor(ids[..i], action);
    var phases := RunSerially(t, tenant, jobs).phases;
    assert phases[..|phases| - 1] == RunSerially(t, tenant, JobsFor(ids[..i], action)).phases;
  }

  class AlertsService {
    var alerts: Table

    constructor ()
      ensures alerts == map[]
    {
      alerts := map[];
    }

    /** One action on one alert: find it, check its status, overwrite the row. */
    method Perform(tenant: TenantId, id: AlertId, action: Action) returns (error: Option<ActionError>)
      modifies this
      ensures alerts == Act(old(alerts), tenant, Job(id, action))
      ensures error == if !Visible(old(alerts), tenant, id) then Some(NotFound)
                       else if Final(old(alerts)[id]) then Some(AlreadyClosed) else None
      ensures error == Some(NotFound) <==> !(id in old(alerts) && old(alerts)[id].tenant == tenant)
      ensures error == Some(AlreadyClosed) <==>
                && id in old(alerts) && old(alerts)[id].tenant == tenant
                && (old(alerts)[id].status == Closed || old(alerts)[id].status == Resolved)
      ensures error.Some? ==> alerts == old(alerts)
      ensures error == None ==>
                var before := old(alerts)[id];
                alerts == old(alerts)[id :=
                  match action
                  case Acknowledge(email, at) =>
                    Alert(tenant, Acknowledged, Some(email), Some(at), before.resolution, before.closedAt, before.closedBy,
                          before.content)
                  case Investigate =>
                    Alert(tenant, InProgress, before.acknowledgedBy, before.acknowledgedAt, before.resolution, before.closedAt,
                          before.closedBy, before.content)
                  case Escalate =>
                    Alert(tenant, InProgress, before.acknowledgedBy, before.acknowledgedAt, before.resolution, before.closedAt,
                          before.closedBy, before.content)
                  case Close(resolution, email, at) =>
                    Alert(tenant, Closed, before.acknowledgedBy, before.acknowledgedAt, Some(resolution), Some(at),
                          Some(email), before.content)]
    {
      if id !in alerts || alerts[id].tenant != tenant {
        return Some(NotFound);
      }
      var alert := alerts[id];
      if alert.status == Closed || alert.status == Resolved {
        return Some(AlreadyClosed);
      }
      match action {
        case Acknowledge(email, at) =>
          alert := alert.(status := Acknowledged, acknowledgedBy := Some(email), acknowledgedAt := Some(at));
        case Investigate => alert := alert.(status := InProgress);
        case Escalate => alert := alert.(status := InProgress);
        case Close(resolution, email, at) =>
          alert := alert.(status := Closed, resolution := Some(resolution), closedAt := Some(at), closedBy := Some(email));
      }
      alerts := alerts[id := alert];
      return None;
    }

    /** `bulkClose` and `bulkAcknowledge`, one id after the other. */
    method Bulk(tenant: TenantId, ids: seq<AlertId>, action: Action) returns (succeeded: nat, failed: nat)
      modifies this
      ensures alerts == RunSerially(old(alerts), tenant, JobsFor(ids, action)).table
      ensures succeeded == CountOk(RunSerially(old(alerts), tenant, JobsFor(ids, action)).phases)
      ensures succeeded + failed == |ids|
    {
      hide RunSerially, CountOk, JobsFor;
      succeeded := 0;
      NoIds(old(alerts), tenant, ids, action);
      for i := 0 to |ids|
        invariant alerts == RunSerially(old(alerts), tenant, JobsFor(ids[..i], action)).table
        invariant succeeded == CountOk(RunSerially(old(alerts), tenant, JobsFor(ids[..i], action)).phases)
        invariant succeeded <= i
      {
        var error := Perform(tenant, ids[i], action);
        if error.None? {
          succeeded := succeeded + 1;
        }
        OneMoreId(old(alerts), tenant, ids, action, i);
      }
      assert ids[..|ids|] == ids;
      failed := |ids| - succeeded;
    }
  }

  function EligibleIds(t: Table, tenant: TenantId, ids: seq<AlertId>): set<AlertId> {
    set id | id in ids && Eligible(t, tenant, id)
  }

  /** How many entries of the list name an alert that can be acted on, repeated ids counted each time. */
  function EligibleEntries(t: Table, tenant: TenantId, ids: seq<AlertId>): nat {
    if ids == [] then 0
    else EligibleEntries(t, tenant, ids[..|ids| - 1]) + if Eligible(t, tenant, ids[|ids| - 1]) then 1 else 0
  }

  predicate NoIdTwice(t: Table, tenant: TenantId, ids: seq<AlertId>) {
    forall i, j :: 0 <= i < j < |ids| && ids[i] == ids[j] ==> !Eligible(t, tenant, ids[i])
  }

  /** The entries outnumber the alerts they name exactly when such an alert is named twice. */
  lemma {:induction false} EntriesAndIds(t: Table, tenant: TenantId, ids: seq<AlertId>)
    ensures EligibleEntries(t, tenant, ids) >= |EligibleIds(t, tenant, ids)|
    ensures EligibleEntries(t, tenant, ids) == |EligibleIds(t, tenant, ids)| <==> NoIdTwice(t, tenant, ids)
  {
    hide Eligible;
    if ids == [] {
      assert EligibleIds(t, tenant, ids) == {};
    } else {
      var init := ids[..|ids| - 1];
      EntriesAndIds(t, tenant, init);
      IdsGrow(t, tenant, ids);
      OneMoreEntry(t, tenant, ids);
      hide EligibleIds, NoIdTwice;
    }
  }

  lemma AddOne(ids: set<AlertId>, id: AlertId)
    ensures |ids + {id}| == |ids| + if id in ids then 0 else 1
  {
    if id in ids { assert ids + {id} == ids; }
  }

  lemma IdsGrow(t: Table, tenant: TenantId, ids: seq<AlertId>)
    requires ids != []
    ensures var init, last := ids[..|ids| - 1], ids[|ids| - 1];
            |EligibleIds(t, tenant, ids)| == |EligibleIds(t, tenant, init)|
              + if Eligible(t, tenant, last) && last !in EligibleIds(t, tenant, init) then 1 else 0
  {
    hide Eligible;
    var init, last := ids[..|ids| - 1], ids[|ids| - 1];
    assert ids == init + [last];
    if Eligible(t, tenant, last) {
      assert EligibleIds(t, tenant, ids) == EligibleIds(t, tenant, init) + {last};
      AddOne(EligibleIds(t, tenant, init), last);
      hide EligibleIds;
    } else {
      assert EligibleIds(t, tenant, ids) == EligibleIds(t, tenant, init);
    }
  }

  lemma OneMoreEntry(t: Table, tenant: TenantId, ids: seq<AlertId>)
    requires ids != []
    ensures var n := |ids| - 1;
            NoIdTwice(t, tenant, ids) <==>
            NoIdTwice(t, tenant, ids[..n]) && !(Eligible(t, tenant, ids[n]) && ids[n] in EligibleIds(t, tenant, ids[..n]))
  {
    hide Eligible;
    var init, last := ids[..|ids| - 1], ids[|ids| - 1];
    if last in init {
      var k :| 0 <= k < |init| && init[k] == last;
      assert ids[k] == ids[|ids| - 1];
    }
    if NoIdTwice(t, tenant, ids) {
      forall i, j | 0 <= i < j < |init| && init[i] == init[j] ensures !Eligible(t, tenant, init[i]) {
        assert ids[i] == ids[j];
      }
    } else {
      var i, j :| 0 <= i < j < |ids| && ids[i] == ids[j] && Eligible(t, tenant, ids[i]);
      if j < |init| {
        assert init[i] == init[j];
      } else {
        assert init[i] == last;
      }
    }
  }

  lemma {:induction false} CountOfEntries(t: Table, tenant: TenantId, ids: seq<AlertId>, phases: seq<Phase>)
    requires |phases| == |ids| && forall i :: 0 <= i < |ids| ==> phases[i] == Done(Eligible(t, tenant, ids[i]))
    ensures CountOk(phases) == EligibleEntries(t, tenant, ids)
  {
    if ids != [] { CountOfEntries(t, tenant, ids[..|ids| - 1], phases[..|phases| - 1]); }
  }

  /** For distinct ids, or any list that names no alert twice that can be acted on, the serial count is the number of such alerts. */
  lemma {:induction false} SuccessesAreEligible(t: Table, tenant: TenantId, ids: seq<AlertId>, action: Action)
    requires NoIdTwice(t, tenant, ids)
    ensures CountOk(RunSerially(t, tenant, JobsFor(ids, action)).phases) == |EligibleIds(t, tenant, ids)|
  {
    var jobs := JobsFor(ids, action);
    var end := RunSerially(t, tenant, jobs);
    SerialProgress(t, tenant, jobs);
    forall i | 0 <= i < |ids| ensures end.phases[i] == Done(Eligible(t, tenant, ids[i])) {
      assert JobAt(t, tenant, jobs[i], end.table, end.phases[i]);
    }
    CountOfEntries(t, tenant, ids, end.phases);
    EntriesAndIds(t, tenant, ids);
  }

  // ---------- lists with repeated ids ----------

  /** All n jobs take one step, in order. */
  function Round(n: nat): (r: seq<nat>)
    ensures forall k :: 0 <= k < |r| ==> r[k] < n
  {
    if n == 0 then [] else Round(n - 1) + [n - 1]
  }

  lemma {:induction false} AllCheck(t: Table, tenant: TenantId, jobs: seq<Job>, n: nat)
    requires n <= |jobs|
    ensures Valid(Round(n), jobs)
    ensures var s := Run(t, tenant, jobs, Round(n));
            s.table == t && forall i :: 0 <= i < |jobs| ==>
              s.phases[i] == if i >= n then Waiting else if Eligible(t, tenant, jobs[i].id) then Passed else Done(false)
  {
    if n > 0 {
      AllCheck(t, tenant, jobs, n - 1);
      assert Round(n)[..|Round(n)| - 1] == Round(n - 1);
    }
  }

  /** All have checked, and the first n that passed have written. */
  ghost predicate HaveWritten(t: Table, tenant: TenantId, jobs: seq<Job>, s: Sys, n: nat) {
    && |s.phases| == |jobs|
    && (forall id :: id in t ==> id in s.table && s.table[id].tenant == t[id].tenant)
    && forall i :: 0 <= i < |jobs| ==>
         s.phases[i] == if i < n || !Eligible(t, tenant, jobs[i].id) then Done(Eligible(t, tenant, jobs[i].id)) else Passed
  }

  lemma {:induction false} AllHaveChecked(t: Table, tenant: TenantId, jobs: seq<Job>)
    ensures Valid(Round(|jobs|), jobs) && HaveWritten(t, tenant, jobs, Run(t, tenant, jobs, Round(|jobs|)), 0)
  {
    AllCheck(t, tenant, jobs, |jobs|);
    hide Run, Eligible;
  }

  /** After all have checked, all that passed write, and succeed. */
  lemma {:induction false} AllWrite(t: Table, tenant: TenantId, jobs: seq<Job>, s: Sys, n: nat)
    requires n <= |jobs| && HaveWritten(t, tenant, jobs, s, 0)
    ensures Valid(Round(n), jobs) && HaveWritten(t, tenant, jobs, Continue(s, tenant, jobs, Round(n)), n)
  {
    assert |s.phases| == |jobs|;
    hide HaveWritten, Continue, Advance;
    if n == 0 {
      ContinueNothing(s, tenant, jobs);
    } else {
      AllWrite(t, tenant, jobs, s, n - 1);
      ContinueOne(s, tenant, jobs, Round(n - 1), n - 1);
      WriteOne(t, tenant, jobs, n, Continue(s, tenant, jobs, Round(n - 1)));
    }
  }

  lemma {:induction false} WriteOne(t: Table, tenant: TenantId, jobs: seq<Job>, n: nat, before: Sys)
    requires 0 < n <= |jobs| && HaveWritten(t, tenant, jobs, before, n - 1)
    ensures HaveWritten(t, tenant, jobs, Advance(before, tenant, jobs, n - 1), n)
  {
  }

  lemma {:induction false} RunAppend(s: Sys, tenant: TenantId, jobs: seq<Job>, a: seq<nat>, b: seq<nat>)
    requires |s.phases| == |jobs| && Valid(a, jobs) && Valid(b, jobs)
    ensures Valid(a + b, jobs) && Continue(s, tenant, jobs, a + b) == Continue(Continue(s, tenant, jobs, a), tenant, jobs, b)
  {
    if b == [] {
      assert a + b == a;
    } else {
      RunAppend(s, tenant, jobs, a, b[..|b| - 1]);
      assert (a + b)[..|a + b| - 1] == a + b[..|b| - 1];
    }
  }

  /**
   The count a bulk action reports is the number of alerts that can be acted on, on every finished
   interleaving, if and only if the list names none of them twice.
   */
  lemma {:induction false} CountIsExactIff(t: Table, tenant: TenantId, ids: seq<AlertId>, action: Action)
    ensures (forall schedule: seq<nat> | Valid(schedule, JobsFor(ids, action))
                                         && AllDone(Run(t, tenant, JobsFor(ids, action), schedule)) ::
               CountOk(Run(t, tenant, JobsFor(ids, action), schedule).phases) == |EligibleIds(t, tenant, ids)|)
            <==> NoIdTwice(t, tenant, ids)
  {
    var jobs := JobsFor(ids, action);
    EntriesAndIds(t, tenant, ids);
    hide Eligible, EligibleIds, CountOk, EligibleEntries, Run;
    if NoIdTwice(t, tenant, ids) {
      forall schedule: seq<nat> | Valid(schedule, jobs) && AllDone(Run(t, tenant, jobs, schedule))
        ensures CountOk(Run(t, tenant, jobs, schedule).phases) == |EligibleIds(t, tenant, ids)|
      {
        InterleavedIsSerial(t, tenant, jobs, schedule);
        CountOfEntries(t, tenant, ids, Run(t, tenant, jobs, schedule).phases);
      }
    } else {
      CheckAllThenWriteAll(t, tenant, jobs);
      CountOfEntries(t, tenant, ids, Run(t, tenant, jobs, Round(|jobs|) + Round(|jobs|)).phases);
    }
  }

  /** Every entry that names an alert that can be acted on succeeds, repeated or not. */
  lemma {:induction false} CheckAllThenWriteAll(t: Table, tenant: TenantId, jobs: seq<Job>)
    ensures Valid(Round(|jobs|) + Round(|jobs|), jobs)
    ensures var s := Run(t, tenant, jobs, Round(|jobs|) + Round(|jobs|));
            |s.phases| == |jobs| && AllDone(s)
            && forall i :: 0 <= i < |jobs| ==> s.phases[i] == Done(Eligible(t, tenant, jobs[i].id))
  {
    AllHaveChecked(t, tenant, jobs);
    AllWrite(t, tenant, jobs, Run(t, tenant, jobs, Round(|jobs|)), |jobs|);
    RunAppend(Start(t, jobs), tenant, jobs, Round(|jobs|), Round(|jobs|));
  }
}
