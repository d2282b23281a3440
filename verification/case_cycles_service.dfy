/** The service over the cycle and case tables, which it updates in place. */
module CaseCyclesServiceModule {
  import opened Options
  import opened CaseCycles

  class CaseCyclesService {
    var cycles: map<CycleId, Cycle>
    var cases: map<CaseId, Case>

    constructor ()
      ensures Rows() == State(map[], map[])
    {
      cycles, cases := map[], map[];
    }

    ghost function Rows(): State
      reads this
    {
      State(cycles, cases)
    }

    /** Outcome of a request against the decision the guards should take. */
    static ghost predicate Follows(before: State, after: State, error: Option<CycleError>, decision: Decision) {
      match decision
      case Do(w) => error == None && after == Perform(before, w)
      case Refuse(e) => error == Some(e) && after == before
    }

    /** Every other cycle of the tenant is over before this one starts, or starts when it is over. */
    static ghost predicate ApartFromAll(cycles: map<CycleId, Cycle>, tenant: TenantId, start: Date, end: Option<Date>,
                                        exclude: Option<CycleId>)
    {
      forall c :: c in cycles && cycles[c].tenant == tenant && exclude != Some(c) ==>
        (cycles[c].end.Some? && cycles[c].end.value <= start) || (end.Some? && end.value <= cycles[c].start)
    }

    /** Walks over the tenant's cycles and stops at the first one that overlaps. */
    method CheckDateOverlap(tenant: TenantId, start: Date, end: Option<Date>, exclude: Option<CycleId>)
      returns (clash: bool)
      ensures clash == Clashes(Rows(), tenant, start, end, exclude)
      ensures !clash <==> ApartFromAll(cycles, tenant, start, end, exclude)
    {
      var rest: set<CycleId> := set c | c in cycles && cycles[c].tenant == tenant && exclude != Some(c);
      while |rest| > 0
        invariant forall c :: c in rest ==> c in cycles && cycles[c].tenant == tenant && exclude != Some(c)
        invariant forall c :: c in cycles && cycles[c].tenant == tenant && exclude != Some(c) && c !in rest ==>
                    !DatesOverlap(start, end, cycles[c].start, cycles[c].end)
        decreases |rest|
      {
        var c: CycleId :| c in rest;
        if DatesOverlap(start, end, cycles[c].start, cycles[c].end) {
          return true;
        }
        rest := rest - {c};
      }
      return false;
    }

    method CreateCycle(id: CycleId, tenant: TenantId, start: Date, end: Option<Date>, clock: Clock, actor: string)
      returns (error: Option<CycleError>)
      requires id !in cycles
      modifies this
      ensures Follows(old(Rows()), Rows(), error, Decide(old(Rows()), Create(id, tenant, start, end), clock, actor))
      ensures error == Some(StartAfterEnd) <==> end.Some? && end.value <= start
      ensures error == None <==>
                (end.Some? ==> start < end.value) && ApartFromAll(old(cycles), tenant, start, end, None)
      ensures error.Some? ==> (error.value == StartAfterEnd || error.value == DateOverlap) && cycles == old(cycles)
      ensures error == None ==> cycles == old(cycles)[id := Cycle(tenant, CycleClosed, start, end, None, None)]
      ensures cases == old(cases)
    {
      if end.Some? && start >= end.value {
        return Some(StartAfterEnd);
      }
      var clash := CheckDateOverlap(tenant, start, end, None);
      if clash {
        return Some(DateOverlap);
      }
      cycles := cycles[id := Cycle(tenant, CycleClosed, start, end, None, None)];
      return None;
    }

    method UpdateCycle(id: CycleId, tenant: TenantId, newStart: Option<Date>, newEnd: Change, clock: Clock,
                       actor: string) returns (error: Option<CycleError>)
      modifies this
      ensures Follows(old(Rows()), Rows(), error, Decide(old(Rows()), Update(id, tenant, newStart, newEnd), clock, actor))
      ensures error == Some(NotFound) <==> !(id in old(cycles) && old(cycles)[id].tenant == tenant)
      ensures error != Some(NotFound) ==>
                var row := old(cycles)[id];
                var start := if newStart == None then row.start else newStart.value;
                // a cleared end is checked as if it had not been given
                var end := match newEnd case To(date) => Some(date) case _ => row.end;
                var changed := newStart != None || newEnd != Keep;
                && (error == Some(StartAfterEnd) <==> end.Some? && end.value <= start)
                && (error == None <==> (end.Some? ==> start < end.value)
                                       && (changed ==> ApartFromAll(old(cycles), tenant, start, end, Some(id))))
                && (error.Some? ==> error.value == StartAfterEnd || error.value == DateOverlap)
                && (error == None ==>
                      var today := start <= clock.today && (end == None || clock.today <= end.value);
                      var newRowEnd := match newEnd case Keep => row.end case Clear => None case To(date) => Some(date);
                      && cycles.Keys == old(cycles).Keys
                      && (forall c :: c in cycles && c != id ==> cycles[c] == old(cycles)[c])
                      && cycles[id] == if row.status == CycleActive && changed && !today
                                       then Cycle(tenant, CycleClosed, start, newRowEnd, Some(actor), Some(clock.now))
                                       else Cycle(tenant, row.status, start, newRowEnd, row.closedBy, row.closedAt))
      ensures error.Some? ==> cycles == old(cycles)
      ensures cases == old(cases)
    {
      if id !in cycles || cycles[id].tenant != tenant {
        return Some(NotFound);
      }
      var row := cycles[id];
      var start := if newStart.Some? then newStart.value else row.start;
      var end := if newEnd.To? then Some(newEnd.date) else row.end;
      if end.Some? && start >= end.value {
        return Some(StartAfterEnd);
      }
      var datesChanged := newStart.Some? || !newEnd.Keep?;
      if datesChanged {
        var clash := CheckDateOverlap(tenant, start, end, Some(id));
        if clash {
          return Some(DateOverlap);
        }
      }
      if newStart.Some? { row := row.(start := newStart.value); }
      if newEnd.Clear? { row := row.(end := None); }
      if newEnd.To? { row := row.(end := Some(newEnd.date)); }
      if row.status.CycleActive? && datesChanged && !IsTodayInRange(start, end, clock.today) {
        row := row.(status := CycleClosed, closedAt := Some(clock.now), closedBy := Some(actor));
      }
      cycles := cycles[id := row];
      return None;
    }

    method ActivateCycle(id: CycleId, tenant: TenantId, clock: Clock, actor: string) returns (error: Option<CycleError>)
      modifies this
      ensures Follows(old(Rows()), Rows(), error, Decide(old(Rows()), Activate(id, tenant), clock, actor))
      ensures error == None <==>
                && id in old(cycles) && old(cycles)[id].tenant == tenant && old(cycles)[id].status == CycleClosed
                && old(cycles)[id].start <= clock.today
                && (old(cycles)[id].end == None || clock.today <= old(cycles)[id].end.value)
      ensures error == Some(NotFound) <==> !(id in old(cycles) && old(cycles)[id].tenant == tenant)
      ensures error == Some(AlreadyActive) <==>
                id in old(cycles) && old(cycles)[id].tenant == tenant && old(cycles)[id].status == CycleActive
      ensures error.Some? ==> cycles == old(cycles) && error.value in {NotFound, AlreadyActive, OutsideRange}
      ensures error == None ==>
                && cycles.Keys == old(cycles).Keys
                && cycles[id] == Cycle(tenant, CycleActive, old(cycles)[id].start, old(cycles)[id].end, None, None)
                && forall c :: c in cycles && c != id ==>
                     var row := old(cycles)[c];
                     cycles[c] == if row.tenant == tenant && row.status == CycleActive
                                  then Cycle(tenant, CycleClosed, row.start, row.end, Some(actor), Some(clock.now))
                                  else row
      ensures error == None ==>
                forall c :: c in cycles && cycles[c].tenant == tenant && cycles[c].status == CycleActive ==> c == id
      ensures cases == old(cases)
    {
      if id !in cycles || cycles[id].tenant != tenant {
        return Some(NotFound);
      }
      if cycles[id].status.CycleActive? {
        return Some(AlreadyActive);
      }
      if IsFutureStart(cycles[id].start, clock.today) {
        return Some(OutsideRange);
      }
      if IsPastEnd(cycles[id].end, clock.today) {
        return Some(OutsideRange);
      }
      cycles := map c | c in cycles ::
                  if cycles[c].tenant == tenant && cycles[c].status.CycleActive? && c != id
                  then Deactivated(cycles[c], clock.now, actor) else cycles[c];
      cycles := cycles[id := cycles[id].(status := CycleActive, closedBy := None, closedAt := None)];
      return None;
    }

    method CloseCycle(id: CycleId, tenant: TenantId, end: Option<Date>, clock: Clock, actor: string)
      returns (error: Option<CycleError>)
      modifies this
      ensures Follows(old(Rows()), Rows(), error, Decide(old(Rows()), Close(id, tenant, end), clock, actor))
      ensures error == None <==>
                id in old(cycles) && old(cycles)[id].tenant == tenant && old(cycles)[id].status == CycleActive
      ensures error == Some(NotFound) <==> !(id in old(cycles) && old(cycles)[id].tenant == tenant)
      ensures error.Some? ==> cycles == old(cycles) && error.value in {NotFound, AlreadyClosed}
      ensures error == None ==>
                cycles == old(cycles)[id := Cycle(tenant, CycleClosed, old(cycles)[id].start,
                                                  Some(if end == None then clock.now else end.value), Some(actor),
                                                  Some(clock.now))]
      ensures cases == old(cases)
    {
      if id !in cycles || cycles[id].tenant != tenant {
        return Some(NotFound);
      }
      if cycles[id].status.CycleClosed? {
        return Some(AlreadyClosed);
      }
      cycles := cycles[id := cycles[id].(status := CycleClosed, closedBy := Some(actor), closedAt := Some(clock.now),
                                         end := if end.Some? then end else Some(clock.now))];
      return None;
    }

    /** Cases of the cycle are unlinked first; the foreign key unlinks whatever is left. */
    method DeleteCycle(id: CycleId, tenant: TenantId, clock: Clock, actor: string) returns (error: Option<CycleError>)
      modifies this
      ensures Follows(old(Rows()), Rows(), error, Decide(old(Rows()), Delete(id, tenant), clock, actor))
      ensures error == None <==>
                id in old(cycles) && old(cycles)[id].tenant == tenant && old(cycles)[id].status == CycleClosed
      ensures error == Some(NotFound) <==> !(id in old(cycles) && old(cycles)[id].tenant == tenant)
      ensures error.Some? ==>
                cycles == old(cycles) && cases == old(cases) && error.value in {NotFound, DeleteActive}
      ensures error == None ==>
                && cycles == old(cycles) - {id} && cases.Keys == old(cases).Keys
                && forall k :: k in cases ==>
                     cases[k] == Case(old(cases)[k].tenant, old(cases)[k].status,
                                      if old(cases)[k].cycle == Some(id) then None else old(cases)[k].cycle)
    {
      if id !in cycles || cycles[id].tenant != tenant {
        return Some(NotFound);
      }
      if cycles[id].status.CycleActive? {
        return Some(DeleteActive);
      }
      cases := map k | k in cases ::
                 if cases[k].tenant == tenant && cases[k].cycle == Some(id) then cases[k].(cycle := None) else cases[k];
      cycles := map c | c in cycles && c != id :: cycles[c];
      cases := map k | k in cases :: Unlinked(cases[k], id);
      return None;
    }
  }
}
