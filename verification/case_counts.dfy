/** Cases and the cycles they belong to: no case is lost, and the counts add up. */
module CaseCounts {
  import opened Options
  import opened CaseCycles

  /** Every link of a case leads to an existing cycle of the same tenant. */
  ghost predicate LinksOk(st: State) {
    forall k :: k in st.cases && st.cases[k].cycle.Some? ==>
      st.cases[k].cycle.value in st.cycles && st.cycles[st.cases[k].cycle.value].tenant == st.cases[k].tenant
  }

  lemma ServeKeepsCases(st: State, op: Op, clock: Clock, actor: string)
    requires LinksOk(st)
    ensures LinksOk(Serve(st, op, clock, actor))
    ensures Serve(st, op, clock, actor).cases.Keys == st.cases.Keys
    ensures forall k :: k in st.cases ==>
      var after := Serve(st, op, clock, actor);
      && after.cases[k].tenant == st.cases[k].tenant && after.cases[k].status == st.cases[k].status
      && after.cases[k].cycle ==
           if st.cases[k].cycle.Some? && st.cases[k].cycle.value !in after.cycles then None else st.cases[k].cycle
  {
  }

  /** Over any run: no case disappears, changes hands or changes status, and no link dangles. */
  lemma {:induction false} RunsKeepCases(st: State, rs: seq<Request>)
    requires LinksOk(st)
    ensures LinksOk(ServeAll(st, rs))
    ensures ServeAll(st, rs).cases.Keys == st.cases.Keys
    ensures forall k :: k in st.cases ==>
      var after := ServeAll(st, rs);
      && after.cases[k].tenant == st.cases[k].tenant && after.cases[k].status == st.cases[k].status
      && (after.cases[k].cycle == st.cases[k].cycle || after.cases[k].cycle == None)
  {
    if rs != [] {
      var init, last := rs[..|rs| - 1], rs[|rs| - 1];
      RunsKeepCases(st, init);
      ServeKeepsCases(ServeAll(st, init), last.op, last.clock, last.actor);
    }
  }

  // ---------- the counts a reader is shown ----------

  function CasesIn(st: State, c: CycleId): set<CaseId> {
    set k | k in st.cases && st.cases[k].cycle == Some(c)
  }

  function Orphans(st: State, tenant: TenantId): set<CaseId> {
    set k | k in st.cases && st.cases[k].tenant == tenant && st.cases[k].cycle == None
  }

  function TenantCases(st: State, tenant: TenantId): set<CaseId> {
    set k | k in st.cases && st.cases[k].tenant == tenant
  }

  function ClosedAmong(st: State, ks: set<CaseId>): set<CaseId> {
    set k | k in ks && k in st.cases && st.cases[k].status.CaseClosed?
  }

  function OpenAmong(st: State, ks: set<CaseId>): set<CaseId> {
    set k | k in ks && k in st.cases && !st.cases[k].status.CaseClosed?
  }

  /** Every count splits exactly into its open and its closed part. */
  lemma OpenPlusClosed(st: State, ks: set<CaseId>)
    requires ks <= st.cases.Keys
    ensures |OpenAmong(st, ks)| + |ClosedAmong(st, ks)| == |ks|
    ensures forall k :: k in ks ==> (k in ClosedAmong(st, ks) <==> st.cases[k].status == CaseClosed)
  {
    assert ks == OpenAmong(st, ks) + ClosedAmong(st, ks);
  }

  /** `countOrphanedCases`: total, not closed, closed. */
  function CountOrphaned(st: State, tenant: TenantId): (r: (nat, nat, nat))
    ensures r.0 == r.1 + r.2
    ensures r.0 == |set k | k in st.cases && st.cases[k].tenant == tenant && st.cases[k].cycle == None|
    ensures r.2 == |set k | k in st.cases && st.cases[k].tenant == tenant && st.cases[k].cycle == None
                            && st.cases[k].status == CaseClosed|
  {
    var orphans := Orphans(st, tenant);
    OpenPlusClosed(st, orphans);
    assert orphans == set k | k in st.cases && st.cases[k].tenant == tenant && st.cases[k].cycle == None;
    assert ClosedAmong(st, orphans) == set k | k in st.cases && st.cases[k].tenant == tenant && st.cases[k].cycle == None
                                               && st.cases[k].status == CaseClosed;
    (|orphans|, |OpenAmong(st, orphans)|, |ClosedAmong(st, orphans)|)
  }

  function SumOfCounts(st: State, ids: seq<CycleId>): nat {
    if ids == [] then 0 else SumOfCounts(st, ids[..|ids| - 1]) + |CasesIn(st, ids[|ids| - 1])|
  }

  function CasesInAny(st: State, ids: seq<CycleId>): set<CaseId> {
    set k | k in st.cases && st.cases[k].cycle.Some? && st.cases[k].cycle.value in ids
  }

  predicate Distinct(ids: seq<CycleId>) {
    forall i, j :: 0 <= i < j < |ids| ==> ids[i] != ids[j]
  }

  lemma {:induction false} CountsAreDisjoint(st: State, ids: seq<CycleId>)
    requires Distinct(ids)
    ensures SumOfCounts(st, ids) == |CasesInAny(st, ids)|
  {
    if ids == [] {
      assert CasesInAny(st, ids) == {};
    } else {
      var init, last := ids[..|ids| - 1], ids[|ids| - 1];
      CountsAreDisjoint(st, init);
      assert ids == init + [last] && last !in init;
      assert CasesInAny(st, ids) == CasesInAny(st, init) + CasesIn(st, last);
      assert CasesInAny(st, init) !! CasesIn(st, last);
    }
  }

  /** For any listing of a tenant's cycles: their case counts and the orphan count make up all its cases. */
  lemma CountsAddUp(st: State, tenant: TenantId, ids: seq<CycleId>)
    requires LinksOk(st) && Distinct(ids)
    requires forall c :: c in ids <==> c in st.cycles && st.cycles[c].tenant == tenant
    ensures SumOfCounts(st, ids) + CountOrphaned(st, tenant).0 == |TenantCases(st, tenant)|
  {
    CountsAreDisjoint(st, ids);
    assert TenantCases(st, tenant) == CasesInAny(st, ids) + Orphans(st, tenant);
    assert CasesInAny(st, ids) !! Orphans(st, tenant);
  }

  /** The same after any run of requests, and the tenant's total never changes. */
  lemma CountsAddUpAfterRun(st: State, rs: seq<Request>, tenant: TenantId, ids: seq<CycleId>)
    requires LinksOk(st) && Distinct(ids)
    requires forall c :: c in ids <==> c in ServeAll(st, rs).cycles && ServeAll(st, rs).cycles[c].tenant == tenant
    ensures SumOfCounts(ServeAll(st, rs), ids) + CountOrphaned(ServeAll(st, rs), tenant).0 == |TenantCases(st, tenant)|
  {
    RunsKeepCases(st, rs);
    CountsAddUp(ServeAll(st, rs), tenant, ids);
    assert TenantCases(ServeAll(st, rs), tenant) == TenantCases(st, tenant);
  }

  /** The loop behind the open and closed numbers of a cycle. */
  method CountOpenAndClosed(statuses: seq<CaseStatus>) returns (openCount: nat, closedCount: nat)
    ensures closedCount == multiset(statuses)[CaseClosed]
    ensures openCount == multiset(statuses)[CaseOpen] + multiset(statuses)[CaseInProgress]
    ensures openCount + closedCount == |statuses|
  {
    openCount, closedCount := 0, 0;
    for i := 0 to |statuses|
      invariant closedCount == multiset(statuses[..i])[CaseClosed]
      invariant openCount == multiset(statuses[..i])[CaseOpen] + multiset(statuses[..i])[CaseInProgress]
      invariant openCount + closedCount == i
    {
      assert statuses[..i + 1] == statuses[..i] + [statuses[i]];
      if statuses[i] == CaseClosed {
        closedCount := closedCount + 1;
      } else {
        openCount := openCount + 1;
      }
    }
    assert statuses[..|statuses|] == statuses;
  }

  // ---------- the detail view counts at most 500 cases ----------

  const DETAIL_LIMIT := 500

  /** The cases that come along with one cycle: `take: 500`. */
  function Taken(statuses: seq<CaseStatus>): seq<CaseStatus> {
    if |statuses| <= DETAIL_LIMIT then statuses else statuses[..DETAIL_LIMIT]
  }

  /** `getCycleById`: the total is counted by the database, the two parts over the cases that came along. */
  method CountsInDetail(statuses: seq<CaseStatus>) returns (caseCount: nat, openCount: nat, closedCount: nat)
    ensures caseCount == |statuses|
    ensures closedCount == multiset(Taken(statuses))[CaseClosed]
    ensures openCount + closedCount == |Taken(statuses)|
    ensures openCount + closedCount == caseCount <==> |statuses| <= DETAIL_LIMIT
    ensures openCount <= multiset(statuses)[CaseOpen] + multiset(statuses)[CaseInProgress]
    ensures closedCount <= multiset(statuses)[CaseClosed]
  {
    caseCount := |statuses|;
    TakenIsPart(statuses);
    openCount, closedCount := CountOpenAndClosed(Taken(statuses));
  }

  lemma TakenIsPart(statuses: seq<CaseStatus>)
    ensures forall c: CaseStatus :: multiset(Taken(statuses))[c] <= multiset(statuses)[c]
  {
    var n := |Taken(statuses)|;
    assert statuses == Taken(statuses) + statuses[n..];
  }

  /** A cycle of 501 open cases is shown as 501 cases, 500 of them open and none closed. */
  method FiveHundredAndOneCases() returns (caseCount: nat, openCount: nat, closedCount: nat)
    ensures caseCount == 501 && openCount == 500 && closedCount == 0
  {
    var statuses := seq(501, i => CaseOpen);
    assert CaseClosed !in statuses;
    caseCount, openCount, closedCount := CountsInDetail(statuses);
  }
}
