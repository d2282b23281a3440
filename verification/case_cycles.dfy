/** The interval schedule of a tenant's case cycles: guards, writes, and what they keep. */
module CaseCycles {
  import opened Options

  type CycleId = nat
  type CaseId = nat
  type TenantId = nat
  type Date = int

  datatype CycleStatus = CycleActive | CycleClosed
  datatype CaseStatus = CaseOpen | CaseInProgress | CaseClosed

  datatype Cycle = Cycle(tenant: TenantId, status: CycleStatus, start: Date, end: Option<Date>,
                         closedBy: Option<string>, closedAt: Option<Date>)
  datatype Case = Case(tenant: TenantId, status: CaseStatus, cycle: Option<CycleId>)
  datatype State = State(cycles: map<CycleId, Cycle>, cases: map<CaseId, Case>)

  /** The clock: the current moment, and the start of the current day in the server's time zone. */
  datatype Clock = Clock(now: Date, today: Date)

  // ---------- date predicates ----------

  predicate DatesOverlap(start1: Date, end1: Option<Date>, start2: Date, end2: Option<Date>) {
    if end2.Some? && start1 >= end2.value then false
    else if end1.Some? && start2 >= end1.value then false
    else true
  }

  predicate IsTodayInRange(start: Date, end: Option<Date>, today: Date) {
    start <= today && (end.None? || end.value >= today)
  }

  predicate IsFutureStart(start: Date, today: Date) { start > today }

  predicate IsPastEnd(end: Option<Date>, today: Date) { end.Some? && end.value < today }

  predicate Within(t: Date, start: Date, end: Option<Date>) {
    start <= t && (end.None? || t < end.value)
  }

  predicate Proper(start: Date, end: Option<Date>) { end.Some? ==> start < end.value }

  lemma OverlapSymmetric(start1: Date, end1: Option<Date>, start2: Date, end2: Option<Date>)
    ensures DatesOverlap(start1, end1, start2, end2) == DatesOverlap(start2, end2, start1, end1)
  {
  }

  /** On proper intervals the test is exactly: the two half-open intervals share a moment. */
  lemma OverlapIsIntersection(start1: Date, end1: Option<Date>, start2: Date, end2: Option<Date>)
    requires Proper(start1, end1) && Proper(start2, end2)
    ensures DatesOverlap(start1, end1, start2, end2) <==>
            exists t :: Within(t, start1, end1) && Within(t, start2, end2)
  {
    var later := if start1 < start2 then start2 else start1;
    if DatesOverlap(start1, end1, start2, end2) {
      assert Within(later, start1, end1) && Within(later, start2, end2);
    }
  }

  /** The two activation guards let through exactly the cycles that contain today. */
  lemma ActivationGuardsMeanToday(start: Date, end: Option<Date>, today: Date)
    ensures !IsFutureStart(start, today) && !IsPastEnd(end, today) <==> IsTodayInRange(start, end, today)
  {
  }

  // ---------- requests, guards and writes ----------

  datatype Change = Keep | Clear | To(date: Date)

  datatype Op =
    | Create(id: CycleId, tenant: TenantId, start: Date, end: Option<Date>)
    | Update(id: CycleId, tenant: TenantId, newStart: Option<Date>, newEnd: Change)
    | Activate(id: CycleId, tenant: TenantId)
    | Close(id: CycleId, tenant: TenantId, closeEnd: Option<Date>)
    | Delete(id: CycleId, tenant: TenantId)

  datatype CycleError =
    | NotFound | StartAfterEnd | DateOverlap | AlreadyActive | OutsideRange | AlreadyClosed | DeleteActive

  /** One atomic write of the repository. */
  datatype Write =
    | Insert(id: CycleId, tenant: TenantId, start: Date, end: Option<Date>)
    | Patch(id: CycleId, tenant: TenantId, newStart: Option<Date>, newEnd: Change, deactivate: bool, at: Date, actor: string)
    | ActivateRow(id: CycleId, tenant: TenantId, at: Date, actor: string)
    | CloseRow(id: CycleId, tenant: TenantId, closeEnd: Date, at: Date, actor: string)
    | DeleteRow(id: CycleId, tenant: TenantId)

  datatype Decision = Do(write: Write) | Refuse(error: CycleError)

  predicate Owned(st: State, id: CycleId, tenant: TenantId) {
    id in st.cycles && st.cycles[id].tenant == tenant
  }

  /** `checkDateOverlap`: some other cycle of the tenant overlaps the range. */
  predicate Clashes(st: State, tenant: TenantId, start: Date, end: Option<Date>, exclude: Option<CycleId>) {
    exists c :: c in st.cycles && st.cycles[c].tenant == tenant && exclude != Some(c)
                && DatesOverlap(start, end, st.cycles[c].start, st.cycles[c].end)
  }

  /** What `dto.endDate ?? existing.endDate` yields: clearing counts as "not given". */
  function EffectiveEnd(change: Change, existing: Option<Date>): Option<Date> {
    if change.To? then Some(change.date) else existing
  }

  function Decide(st: State, op: Op, clock: Clock, actor: string): Decision {
    match op
    case Create(id, tenant, start, end) =>
      if !Proper(start, end) then Refuse(StartAfterEnd)
      else if Clashes(st, tenant, start, end, None) then Refuse(DateOverlap)
      else Do(Insert(id, tenant, start, end))
    case Update(id, tenant, newStart, newEnd) =>
      if !Owned(st, id, tenant) then Refuse(NotFound)
      else
        var existing := st.cycles[id];
        var start := if newStart.Some? then newStart.value else existing.start;
        var end := EffectiveEnd(newEnd, existing.end);
        var changed := newStart.Some? || !newEnd.Keep?;
        if !Proper(start, end) then Refuse(StartAfterEnd)
        else if changed && Clashes(st, tenant, start, end, Some(id)) then Refuse(DateOverlap)
        else Do(Patch(id, tenant, newStart, newEnd,
                      existing.status.CycleActive? && changed && !IsTodayInRange(start, end, clock.today),
                      clock.now, actor))
    case Activate(id, tenant) =>
      if !Owned(st, id, tenant) then Refuse(NotFound)
      else if st.cycles[id].status.CycleActive? then Refuse(AlreadyActive)
      else if IsFutureStart(st.cycles[id].start, clock.today) || IsPastEnd(st.cycles[id].end, clock.today) then
        Refuse(OutsideRange)
      else Do(ActivateRow(id, tenant, clock.now, actor))
    case Close(id, tenant, end) =>
      if !Owned(st, id, tenant) then Refuse(NotFound)
      else if st.cycles[id].status.CycleClosed? then Refuse(AlreadyClosed)
      else Do(CloseRow(id, tenant, if end.Some? then end.value else clock.now, clock.now, actor))
    case Delete(id, tenant) =>
      if !Owned(st, id, tenant) then Refuse(NotFound)
      else if st.cycles[id].status.CycleActive? then Refuse(DeleteActive)
      else Do(DeleteRow(id, tenant))
  }

  function Deactivated(c: Cycle, at: Date, actor: string): Cycle {
    c.(status := CycleClosed, closedBy := Some(actor), closedAt := Some(at))
  }

  function Patched(c: Cycle, w: Write): Cycle
    requires w.Patch?
  {
    var moved := c.(start := if w.newStart.Some? then w.newStart.value else c.start,
                    end := match w.newEnd case Keep => c.end case Clear => None case To(d) => Some(d));
    if w.deactivate then Deactivated(moved, w.at, w.actor) else moved
  }

  function Unlinked(k: Case, id: CycleId): Case {
    if k.cycle == Some(id) then k.(cycle := None) else k
  }

  /** The write as the database performs it, guards long since passed (or stale). */
  function Perform(st: State, w: Write): State {
    match w
    case Insert(id, tenant, start, end) =>
      if id in st.cycles then st
      else st.(cycles := st.cycles[id := Cycle(tenant, CycleClosed, start, end, None, None)])
    case Patch(id, tenant, _, _, _, _, _) =>
      if !Owned(st, id, tenant) then st else st.(cycles := st.cycles[id := Patched(st.cycles[id], w)])
    case ActivateRow(id, tenant, at, actor) =>
      var others := map c | c in st.cycles ::
                      if st.cycles[c].tenant == tenant && st.cycles[c].status.CycleActive? && c != id
                      then Deactivated(st.cycles[c], at, actor) else st.cycles[c];
      if !Owned(st, id, tenant) then st.(cycles := others)
      else st.(cycles := others[id := others[id].(status := CycleActive, closedBy := None, closedAt := None)])
    case CloseRow(id, tenant, end, at, actor) =>
      if !Owned(st, id, tenant) then st
      else st.(cycles := st.cycles[id := Deactivated(st.cycles[id], at, actor).(end := Some(end))])
    case DeleteRow(id, tenant) =>
      if !Owned(st, id, tenant) then st
      else State(map c | c in st.cycles && c != id :: st.cycles[c],
                 map k | k in st.cases :: Unlinked(st.cases[k], id))
  }

  function Serve(st: State, op: Op, clock: Clock, actor: string): State {
    match Decide(st, op, clock, actor)
    case Do(w) => Perform(st, w)
    case Refuse(_) => st
  }

  // ---------- at most one active cycle, whatever the guards saw ----------

  ghost predicate OneActive(st: State) {
    forall a, b | a in st.cycles && b in st.cycles :: BothActive(st.cycles[a], st.cycles[b]) ==> a == b
  }

  predicate BothActive(a: Cycle, b: Cycle) {
    a.tenant == b.tenant && a.status.CycleActive? && b.status.CycleActive?
  }

  lemma WriteKeepsOneActive(st: State, w: Write)
    requires OneActive(st)
    ensures OneActive(Perform(st, w))
  {
    var after := Perform(st, w);
    forall a, b | a in after.cycles && b in after.cycles && BothActive(after.cycles[a], after.cycles[b])
      ensures a == b
    {
      if !w.ActivateRow? && a in st.cycles && b in st.cycles {
        assert BothActive(st.cycles[a], st.cycles[b]);
      }
    }
  }

  /** Any interleaving of writes, however stale the reads behind them. */
  lemma {:induction false} InterleavedWritesKeepOneActive(st: State, ws: seq<Write>)
    requires OneActive(st)
    ensures OneActive(PerformAll(st, ws))
  {
    if ws != [] {
      InterleavedWritesKeepOneActive(st, ws[..|ws| - 1]);
      WriteKeepsOneActive(PerformAll(st, ws[..|ws| - 1]), ws[|ws| - 1]);
    }
  }

  function PerformAll(st: State, ws: seq<Write>): State {
    if ws == [] then st else Perform(PerformAll(st, ws[..|ws| - 1]), ws[|ws| - 1])
  }

  // ---------- serial runs under a clock that never goes back ----------

  datatype Request = Request(op: Op, clock: Clock, actor: string)

  function ServeAll(st: State, rs: seq<Request>): State {
    if rs == [] then st
    else Serve(ServeAll(st, rs[..|rs| - 1]), rs[|rs| - 1].op, rs[|rs| - 1].clock, rs[|rs| - 1].actor)
  }

  predicate ClocksForward(rs: seq<Request>) {
    forall i, j :: 0 <= i < j < |rs| ==> rs[i].clock.today <= rs[j].clock.today
  }

  ghost predicate ActiveStarted(st: State, today: Date) {
    forall c :: c in st.cycles && st.cycles[c].status.CycleActive? ==> st.cycles[c].start <= today
  }

  lemma ServeKeepsStarted(st: State, op: Op, clock: Clock, actor: string, before: Date)
    requires ActiveStarted(st, before) && before <= clock.today
    ensures ActiveStarted(Serve(st, op, clock, actor), clock.today)
  {
  }

  /** An active cycle never starts after today. */
  lemma {:induction false} ActiveNeverInFuture(st: State, rs: seq<Request>, before: Date)
    requires ActiveStarted(st, before) && ClocksForward(rs)
    requires rs != [] ==> before <= rs[0].clock.today
    ensures ActiveStarted(ServeAll(st, rs), if rs == [] then before else rs[|rs| - 1].clock.today)
  {
    if rs != [] {
      var init := rs[..|rs| - 1];
      ActiveNeverInFuture(st, init, before);
      var last := rs[|rs| - 1];
      ServeKeepsStarted(ServeAll(st, init), last.op, last.clock, last.actor,
                        if init == [] then before else init[|init| - 1].clock.today);
    }
  }

  /** A write removes an active cycle exactly when it is a delete that names it: the write looks at no status. */
  lemma WriteRemovesIff(st: State, w: Write, c: CycleId)
    requires c in st.cycles
    ensures c !in Perform(st, w).cycles <==> w.DeleteRow? && w.id == c && w.tenant == st.cycles[c].tenant
  {
  }

  const CLOSED_CYCLE := State(map[1 := Cycle(0, CycleClosed, 10, None, None, None)], map[])

  /** A delete checked before an activation and written after it removes an active cycle. */
  lemma StaleDeleteRemovesActive()
    ensures var delete := Decide(CLOSED_CYCLE, Delete(1, 0), Clock(15, 14), "a");
            var activate := Decide(CLOSED_CYCLE, Activate(1, 0), Clock(15, 14), "b");
            && delete.Do? && activate.Do?
            && var activated := Perform(CLOSED_CYCLE, activate.write);
            && activated.cycles[1].status.CycleActive? && 1 !in Perform(activated, delete.write).cycles
  {
  }

  /** Served alone, a request never deletes an active cycle. */
  lemma ActiveNeverDeleted(st: State, op: Op, clock: Clock, actor: string, c: CycleId)
    requires c in st.cycles && st.cycles[c].status.CycleActive?
    ensures c in Serve(st, op, clock, actor).cycles
  {
  }

  // ---------- no two cycles of a tenant overlap ----------

  predicate Disjoint(a: Cycle, b: Cycle) {
    a.tenant == b.tenant ==> !DatesOverlap(a.start, a.end, b.start, b.end)
  }

  ghost predicate NoOverlap(st: State) {
    forall a, b | a in st.cycles && b in st.cycles && a != b :: Disjoint(st.cycles[a], st.cycles[b])
  }

  /** A later cycle of the tenant starts in [from, before) and is not wholly before `start`. */
  predicate FollowerStartsIn(st: State, id: CycleId, start: Date, from: Date, before: Option<Date>)
    requires id in st.cycles
  {
    exists c :: c in st.cycles && c != id && st.cycles[c].tenant == st.cycles[id].tenant
                && from <= st.cycles[c].start && (before.Some? ==> st.cycles[c].start < before.value)
                && (st.cycles[c].end.Some? ==> start < st.cycles[c].end.value)
  }

  /**
   When a request is safe for the schedule: a close must not reach a following cycle, and clearing
   an end needs that no cycle follows. Everything else is checked by the service itself.
   */
  predicate SafeFor(st: State, op: Op, clock: Clock) {
    match op
    case Close(id, tenant, end) =>
      Owned(st, id, tenant) && st.cycles[id].status.CycleActive? && st.cycles[id].end.Some? ==>
        var newEnd := if end.Some? then end.value else clock.now;
        newEnd <= st.cycles[id].end.value
        || !FollowerStartsIn(st, id, st.cycles[id].start, st.cycles[id].end.value, Some(newEnd))
    case Update(id, tenant, newStart, Clear) =>
      Owned(st, id, tenant) && st.cycles[id].end.Some? ==>
        !FollowerStartsIn(st, id, if newStart.Some? then newStart.value else st.cycles[id].start,
                          st.cycles[id].end.value, None)
    case _ => true
  }

  /** An insert keeps the schedule exactly when the check would still pass at the moment of the write. */
  lemma InsertKeepsIff(st: State, id: CycleId, tenant: TenantId, start: Date, end: Option<Date>)
    requires NoOverlap(st) && id !in st.cycles
    ensures NoOverlap(Perform(st, Insert(id, tenant, start, end))) <==> !Clashes(st, tenant, start, end, None)
  {
    var after := Perform(st, Insert(id, tenant, start, end));
    if !Clashes(st, tenant, start, end, None) {
      forall a, b | a in after.cycles && b in after.cycles && a != b
        ensures Disjoint(after.cycles[a], after.cycles[b])
      {
        if a in st.cycles && b in st.cycles { assert Disjoint(st.cycles[a], st.cycles[b]); }
      }
    } else {
      var c :| c in st.cycles && st.cycles[c].tenant == tenant
               && DatesOverlap(start, end, st.cycles[c].start, st.cycles[c].end);
      assert !Disjoint(after.cycles[id], after.cycles[c]);
    }
  }

  /** Two creates that both check before either writes are both let through, and overlap. */
  lemma StaleCheckOverlaps()
    ensures var st := State(map[], map[]);
            var first := Decide(st, Create(1, 0, 10, Some(20)), Clock(5, 5), "a");
            var second := Decide(st, Create(2, 0, 15, Some(25)), Clock(5, 5), "b");
            && NoOverlap(st) && first.Do? && second.Do?
            && !NoOverlap(Perform(Perform(st, first.write), second.write))
  {
    var st := State(map[], map[]);
    var after := Perform(st, Insert(1, 0, 10, Some(20)));
    assert NoOverlap(after);
    assert DatesOverlap(15, Some(25), after.cycles[1].start, after.cycles[1].end);
    InsertKeepsIff(after, 2, 0, 15, Some(25));
  }

  lemma CreateKeepsNoOverlap(st: State, op: Op, clock: Clock, actor: string)
    requires NoOverlap(st) && op.Create?
    ensures NoOverlap(Serve(st, op, clock, actor))
  {
    hide NoOverlap, Clashes;
    if op.id !in st.cycles {
      InsertKeepsIff(st, op.id, op.tenant, op.start, op.end);
    }
  }

  /** Replacing one row keeps the schedule exactly when the new row is disjoint from all others. */
  lemma ReplaceKeepsIff(st: State, id: CycleId, c: Cycle)
    requires NoOverlap(st) && id in st.cycles && c.tenant == st.cycles[id].tenant
    ensures NoOverlap(st.(cycles := st.cycles[id := c])) <==>
            forall b :: b in st.cycles && b != id ==> Disjoint(c, st.cycles[b])
  {
    var after := st.(cycles := st.cycles[id := c]);
    if forall b :: b in st.cycles && b != id ==> Disjoint(c, st.cycles[b]) {
      forall a, b | a in after.cycles && b in after.cycles && a != b
        ensures Disjoint(after.cycles[a], after.cycles[b])
      {
        if a == id {
          assert Disjoint(c, st.cycles[b]);
        } else if b == id {
          assert Disjoint(c, st.cycles[a]);
        } else {
          assert Disjoint(st.cycles[a], st.cycles[b]);
        }
      }
    }
    if NoOverlap(after) {
      forall b | b in st.cycles && b != id ensures Disjoint(c, st.cycles[b]) {
        assert Disjoint(after.cycles[id], after.cycles[b]);
      }
    }
  }

  lemma CloseKeepsIff(st: State, op: Op, clock: Clock, actor: string)
    requires NoOverlap(st) && op.Close?
    ensures NoOverlap(Serve(st, op, clock, actor)) <==> SafeFor(st, op, clock)
  {
    if Decide(st, op, clock, actor).Do? {
      var row := Serve(st, op, clock, actor).cycles[op.id];
      ReplaceKeepsIff(st, op.id, row);
      forall b | b in st.cycles && b != op.id ensures Disjoint(st.cycles[op.id], st.cycles[b]) {}
      hide NoOverlap;
    }
  }

  lemma UpdateKeepsIff(st: State, op: Op, clock: Clock, actor: string)
    requires NoOverlap(st) && op.Update? && Decide(st, op, clock, actor).Do?
    ensures NoOverlap(Serve(st, op, clock, actor)) <==> SafeFor(st, op, clock)
  {
    var row := Serve(st, op, clock, actor).cycles[op.id];
    ReplaceKeepsIff(st, op.id, row);
    forall b | b in st.cycles && b != op.id ensures Disjoint(st.cycles[op.id], st.cycles[b]) {}
    hide NoOverlap;
  }

  lemma ActivateKeepsNoOverlap(st: State, op: Op, clock: Clock, actor: string)
    requires NoOverlap(st) && (op.Activate? || op.Delete?)
    ensures NoOverlap(Serve(st, op, clock, actor))
  {
    var after := Serve(st, op, clock, actor);
    forall a, b | a in after.cycles && b in after.cycles && a != b
      ensures Disjoint(after.cycles[a], after.cycles[b])
    {
      assert Disjoint(st.cycles[a], st.cycles[b]);
    }
  }

  /** A served request keeps the schedule free of overlaps if and only if it was safe. */
  lemma ServedKeepsIff(st: State, op: Op, clock: Clock, actor: string)
    requires NoOverlap(st) && Decide(st, op, clock, actor).Do?
    ensures NoOverlap(Serve(st, op, clock, actor)) <==> SafeFor(st, op, clock)
  {
    match op
    case Create(_, _, _, _) => CreateKeepsNoOverlap(st, op, clock, actor);
    case Update(_, _, _, _) => UpdateKeepsIff(st, op, clock, actor);
    case Close(_, _, _) => CloseKeepsIff(st, op, clock, actor);
    case Activate(_, _) => ActivateKeepsNoOverlap(st, op, clock, actor);
    case Delete(_, _) => ActivateKeepsNoOverlap(st, op, clock, actor);
  }

  ghost predicate AllSafe(st: State, rs: seq<Request>) {
    forall i :: 0 <= i < |rs| ==> SafeFor(ServeAll(st, rs[..i]), rs[i].op, rs[i].clock)
  }

  lemma {:induction false} SafeRunsKeepNoOverlap(st: State, rs: seq<Request>)
    requires NoOverlap(st) && AllSafe(st, rs)
    ensures NoOverlap(ServeAll(st, rs))
  {
    if rs != [] {
      var init, last := rs[..|rs| - 1], rs[|rs| - 1];
      assert forall i :: 0 <= i < |init| ==> init[i] == rs[i] && init[..i] == rs[..i];
      SafeRunsKeepNoOverlap(st, init);
      if Decide(ServeAll(st, init), last.op, last.clock, last.actor).Do? {
        ServedKeepsIff(ServeAll(st, init), last.op, last.clock, last.actor);
      }
    }
  }

  /** Simple habits that are always safe: never clear an end, never close later than planned. */
  lemma HabitsAreSafe(st: State, op: Op, clock: Clock)
    requires op.Update? ==> !op.newEnd.Clear?
    requires op.Close? && Owned(st, op.id, op.tenant) && st.cycles[op.id].end.Some? ==>
               (if op.closeEnd.Some? then op.closeEnd.value else clock.now) <= st.cycles[op.id].end.value
    ensures SafeFor(st, op, clock)
  {
  }

  const TWO_CYCLES := State(map[1 := Cycle(0, CycleActive, 10, Some(20), None, None),
                                2 := Cycle(0, CycleClosed, 20, Some(30), None, None)], map[])

  /** Closing late, or clearing the end, makes a cycle run into the next one. */
  lemma LateCloseAndClearedEndOverlap()
    ensures NoOverlap(TWO_CYCLES)
    ensures !NoOverlap(Serve(TWO_CYCLES, Close(1, 0, None), Clock(25, 24), "a"))
    ensures !NoOverlap(Serve(TWO_CYCLES, Update(1, 0, None, Clear), Clock(15, 14), "a"))
  {
    var late := Serve(TWO_CYCLES, Close(1, 0, None), Clock(25, 24), "a");
    assert !Disjoint(late.cycles[1], late.cycles[2]);
    assert !Clashes(TWO_CYCLES, 0, 10, Some(20), Some(1));
    var cleared := Serve(TWO_CYCLES, Update(1, 0, None, Clear), Clock(15, 14), "a");
    assert !Disjoint(cleared.cycles[1], cleared.cycles[2]);
  }
}
