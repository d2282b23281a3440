/** Ingesting Wazuh hits: one upsert per hit, in batches, in whatever order a batch happens to finish. */
module AlertIngestion {
  import opened Options
  import opened Batches

  type ExternalId = string

  datatype Severity = Critical | High | Medium | Low | Info

  /** What an alert row keeps from ingestion: the raw event, and the fields written only at creation. */
  datatype Fields = Fields(title: string, severity: Severity, timestamp: int)
  datatype Row = Row(status: string, fields: Fields, rawEvent: string)

  /** One hit, prepared: its document and the fields a new row would get. */
  datatype UpsertOp = UpsertOp(externalId: ExternalId, source: string, fields: Fields)

  /** The alerts of one tenant by external id, which is unique within the tenant. */
  type Table = map<ExternalId, Row>

  function MapWazuhLevel(level: Option<int>): Severity {
    if level.None? || level.value == 0 then Info
    else if level.value >= 12 then Critical
    else if level.value >= 8 then High
    else if level.value >= 5 then Medium
    else if level.value >= 3 then Low
    else Info
  }

  /** A document as the index returns it; missing values are None. */
  datatype Hit = Hit(documentId: Option<ExternalId>, sourceId: ExternalId, source: string, level: Option<int>,
                     title: string, timestamp: Option<int>)

  function MapHit(hit: Hit, fallback: int): UpsertOp {
    UpsertOp(if hit.documentId.Some? then hit.documentId.value else hit.sourceId, hit.source,
             Fields(hit.title, MapWazuhLevel(hit.level), if hit.timestamp.Some? then hit.timestamp.value else fallback))
  }

  function BuildUpsertOps(hits: seq<Hit>, fallback: int): seq<UpsertOp> {
    seq(|hits|, i requires 0 <= i < |hits| => MapHit(hits[i], fallback))
  }

  /** The bounds of the levels, one by one; no level and level 0 are information. */
  lemma LevelBounds(level: int)
    ensures MapWazuhLevel(Some(level)) == Critical <==> 12 <= level
    ensures MapWazuhLevel(Some(level)) == High <==> 8 <= level < 12
    ensures MapWazuhLevel(Some(level)) == Medium <==> 5 <= level < 8
    ensures MapWazuhLevel(Some(level)) == Low <==> 3 <= level < 5
    ensures MapWazuhLevel(Some(level)) == Info <==> level < 3
    ensures MapWazuhLevel(None) == Info
  {
  }

  /** The document id if there is one, else the id inside the document. */
  ghost predicate StoredUnder(hit: Hit, id: ExternalId) {
    (exists d :: hit.documentId == Some(d) && id == d) || (hit.documentId == None && id == hit.sourceId)
  }

  /** No two hits go to the same alert. */
  ghost predicate DifferentAlerts(hits: seq<Hit>) {
    forall i, j, id, other :: 0 <= i < j < |hits| && StoredUnder(hits[i], id) && StoredUnder(hits[j], other) ==> id != other
  }

  /** What one hit leaves behind: a new alert with its fields, or a known alert with nothing but another raw event. */
  ghost predicate HitIngested(before: Table, after: Table, hit: Hit, fallback: int) {
    forall id :: StoredUnder(hit, id) ==>
      && id in after
      && (id in before ==> after[id] == Row(before[id].status, before[id].fields, hit.source))
      && (id !in before ==>
            && after[id].status == "new_alert" && after[id].rawEvent == hit.source
            && after[id].fields.title == hit.title && after[id].fields.severity == MapWazuhLevel(hit.level)
            && after[id].fields.timestamp == match hit.timestamp case Some(t) => t case None => fallback)
  }

  /** Alerts that no hit goes to stay as they were, and none appear from nowhere. */
  ghost predicate OthersKept(before: Table, after: Table, hits: seq<Hit>) {
    forall id :: (forall i :: 0 <= i < |hits| ==> !StoredUnder(hits[i], id)) ==>
      (id in after <==> id in before) && (id in before ==> after[id] == before[id])
  }

  /** An existing row changes its raw event only; a new one starts as `new_alert`. */
  function Upsert(t: Table, op: UpsertOp): Table {
    t[op.externalId := if op.externalId in t then t[op.externalId].(rawEvent := op.source)
                       else Row("new_alert", op.fields, op.source)]
  }

  function UpsertAll(t: Table, ops: seq<UpsertOp>): Table {
    if ops == [] then t else Upsert(UpsertAll(t, ops[..|ops| - 1]), ops[|ops| - 1])
  }

  predicate DistinctHits(ops: seq<UpsertOp>) {
    forall i, j :: 0 <= i < j < |ops| ==> ops[i].externalId != ops[j].externalId
  }

  ghost predicate Names(ops: seq<UpsertOp>, id: ExternalId) {
    exists i :: 0 <= i < |ops| && ops[i].externalId == id
  }

  /** The table that ingesting these hits must leave behind. */
  ghost predicate Ingested(t: Table, ops: seq<UpsertOp>, after: Table) {
    && (forall id :: id in after <==> id in t || Names(ops, id))
    && (forall id :: id in t && !Names(ops, id) ==> id in after && after[id] == t[id])
    && (forall i :: 0 <= i < |ops| ==>
          && ops[i].externalId in after
          && after[ops[i].externalId] == if ops[i].externalId in t then t[ops[i].externalId].(rawEvent := ops[i].source)
                                         else Row("new_alert", ops[i].fields, ops[i].source))
  }

  /** Exactly the unseen ids are added, and on existing rows only the raw event changes. */
  lemma {:induction false} UpsertAllIngests(t: Table, ops: seq<UpsertOp>)
    requires DistinctHits(ops)
    ensures Ingested(t, ops, UpsertAll(t, ops))
  {
    if ops != [] {
      var init, last := ops[..|ops| - 1], ops[|ops| - 1];
      UpsertAllIngests(t, init);
      forall id ensures Names(ops, id) <==> Names(init, id) || id == last.externalId {
        if Names(init, id) {
          var i :| 0 <= i < |init| && init[i].externalId == id;
          assert ops[i].externalId == id;
        }
        assert ops[|ops| - 1] == last;
      }
      assert !Names(init, last.externalId);
      IngestOneMore(t, ops, UpsertAll(t, init));
    }
  }

  lemma IngestOneMore(t: Table, ops: seq<UpsertOp>, before: Table)
    requires ops != [] && DistinctHits(ops) && Ingested(t, ops[..|ops| - 1], before)
    requires !Names(ops[..|ops| - 1], ops[|ops| - 1].externalId)
    requires forall id :: Names(ops, id) <==> Names(ops[..|ops| - 1], id) || id == ops[|ops| - 1].externalId
    ensures Ingested(t, ops, Upsert(before, ops[|ops| - 1]))
  {
    var init := ops[..|ops| - 1];
    assert forall i :: 0 <= i < |init| ==> ops[i] == init[i];
  }

  lemma IngestedUnique(t: Table, ops: seq<UpsertOp>, a: Table, b: Table)
    requires Ingested(t, ops, a) && Ingested(t, ops, b)
    ensures a == b
  {
    forall id | id in a ensures id in b && a[id] == b[id] {
      if Names(ops, id) {
        var i :| 0 <= i < |ops| && ops[i].externalId == id;
      }
    }
    forall id | id in b ensures id in a {}
  }

  /** The order in which the upserts finish makes no difference. */
  lemma AnyOrderSameTable(t: Table, ops: seq<UpsertOp>, order: seq<UpsertOp>)
    requires DistinctHits(ops) && DistinctHits(order)
    requires forall op :: op in order <==> op in ops
    ensures UpsertAll(t, order) == UpsertAll(t, ops)
  {
    UpsertAllIngests(t, ops);
    UpsertAllIngests(t, order);
    var after := UpsertAll(t, order);
    forall id ensures Names(ops, id) <==> Names(order, id) {
      if i :| 0 <= i < |ops| && ops[i].externalId == id { assert ops[i] in order; }
      if i :| 0 <= i < |order| && order[i].externalId == id { assert order[i] in ops; }
    }
    hide UpsertAll;
    forall i | 0 <= i < |ops|
      ensures ops[i].externalId in after
      ensures after[ops[i].externalId] == if ops[i].externalId in t then t[ops[i].externalId].(rawEvent := ops[i].source)
                                          else Row("new_alert", ops[i].fields, ops[i].source)
    {
      assert ops[i] in order;
      var k :| 0 <= k < |order| && order[k] == ops[i];
    }
    IngestedUnique(t, ops, after, UpsertAll(t, ops));
  }

  /** Running the same hits again, even prepared at a later time, changes nothing. */
  lemma IngestTwiceIsOnce(t: Table, ops: seq<UpsertOp>, again: seq<UpsertOp>)
    requires DistinctHits(ops) && |again| == |ops|
    requires forall i :: 0 <= i < |ops| ==> again[i].externalId == ops[i].externalId && again[i].source == ops[i].source
    ensures UpsertAll(UpsertAll(t, ops), again) == UpsertAll(t, ops)
  {
    var once := UpsertAll(t, ops);
    UpsertAllIngests(t, ops);
    assert DistinctHits(again);
    UpsertAllIngests(once, again);
    hide UpsertAll;
    forall id ensures Names(again, id) ==> id in once {
      if i :| 0 <= i < |again| && again[i].externalId == id {
        assert ops[i].externalId in once;
      }
    }
    forall i | 0 <= i < |again|
      ensures again[i].externalId in once && once[again[i].externalId].rawEvent == again[i].source
    {
      assert ops[i].externalId in once;
    }
    assert Ingested(once, again, once);
    IngestedUnique(once, again, UpsertAll(once, again), once);
  }

  /** Ingesting the same hits at a later moment leaves the table of the first time. */
  lemma IngestHitsTwice(t: Table, hits: seq<Hit>, first: int, later: int)
    requires DistinctHits(BuildUpsertOps(hits, first))
    ensures UpsertAll(UpsertAll(t, BuildUpsertOps(hits, first)), BuildUpsertOps(hits, later))
            == UpsertAll(t, BuildUpsertOps(hits, first))
  {
    IngestTwiceIsOnce(t, BuildUpsertOps(hits, first), BuildUpsertOps(hits, later));
  }

  lemma OpId(hit: Hit, fallback: int)
    ensures forall id :: StoredUnder(hit, id) <==> id == MapHit(hit, fallback).externalId
  {
  }

  lemma DifferentAlertsAreDistinct(hits: seq<Hit>, fallback: int)
    requires DifferentAlerts(hits)
    ensures DistinctHits(BuildUpsertOps(hits, fallback))
  {
    var ops := BuildUpsertOps(hits, fallback);
    forall i, j | 0 <= i < j < |ops| ensures ops[i].externalId != ops[j].externalId {
      OpId(hits[i], fallback);
      OpId(hits[j], fallback);
      assert StoredUnder(hits[i], ops[i].externalId) && StoredUnder(hits[j], ops[j].externalId);
    }
  }

  lemma HitsIngested(before: Table, hits: seq<Hit>, fallback: int, after: Table)
    requires Ingested(before, BuildUpsertOps(hits, fallback), after)
    ensures OthersKept(before, after, hits)
    ensures forall i :: 0 <= i < |hits| ==> HitIngested(before, after, hits[i], fallback)
  {
    var ops := BuildUpsertOps(hits, fallback);
    forall i | 0 <= i < |hits| ensures HitIngested(before, after, hits[i], fallback) {
      OpId(hits[i], fallback);
      assert ops[i] == MapHit(hits[i], fallback);
    }
    forall id | forall i :: 0 <= i < |hits| ==> !StoredUnder(hits[i], id)
      ensures !Names(ops, id)
    {
      if i :| 0 <= i < |ops| && ops[i].externalId == id {
        OpId(hits[i], fallback);
      }
    }
  }

  class AlertsRepository {
    var alerts: Table

    constructor ()
      ensures alerts == map[]
    {
      alerts := map[];
    }

    method UpsertByExternalId(op: UpsertOp)
      modifies this
      ensures alerts == Upsert(old(alerts), op)
      ensures op.externalId in old(alerts) ==>
                var before := old(alerts)[op.externalId];
                alerts == old(alerts)[op.externalId := Row(before.status, before.fields, op.source)]
      ensures op.externalId !in old(alerts) ==>
                alerts == old(alerts)[op.externalId := Row("new_alert", op.fields, op.source)]
    {
      if op.externalId in alerts {
        alerts := alerts[op.externalId := alerts[op.externalId].(rawEvent := op.source)];
      } else {
        alerts := alerts[op.externalId := Row("new_alert", op.fields, op.source)];
      }
    }

    /** One batch; `up` says which upserts the database accepts. */
    method UpsertBatch(batch: seq<UpsertOp>, up: UpsertOp -> bool) returns (results: seq<Settled<ExternalId>>)
      modifies this
      ensures results == Outcomes(batch, up)
      ensures alerts == UpsertAll(old(alerts), Accepted(batch, up))
    {
      results := [];
      for i := 0 to |batch|
        invariant results == Outcomes(batch[..i], up)
        invariant alerts == UpsertAll(old(alerts), Accepted(batch[..i], up))
      {
        assert batch[..i + 1][..i] == batch[..i];
        ghost var done := Accepted(batch[..i], up);
        assert Accepted(batch[..i + 1], up) == done + if up(batch[i]) then [batch[i]] else [];
        if up(batch[i]) {
          assert (done + [batch[i]])[..|done + [batch[i]]| - 1] == done;
          UpsertByExternalId(batch[i]);
          results := results + [Fulfilled(batch[i].externalId)];
        } else {
          assert done + [] == done;
          results := results + [Rejected("upsert failed")];
        }
      }
      assert batch[..|batch|] == batch;
    }

    /** Batch after batch: one result for every op, in order, and exactly the accepted ones are applied. */
    method UpsertInBatches(ops: seq<UpsertOp>, batchSize: nat, up: UpsertOp -> bool)
      returns (results: seq<Settled<ExternalId>>)
      requires batchSize >= 1
      modifies this
      ensures results == Outcomes(ops, up)
      ensures alerts == UpsertAll(old(alerts), Accepted(ops, up))
      decreases |ops|
    {
      if ops == [] {
        return [];
      }
      var batch, remaining := FirstBatch(ops, batchSize), Remaining(ops, batchSize);
      ghost var before := alerts;
      var batchResults := UpsertBatch(batch, up);
      var remainingResults := UpsertInBatches(remaining, batchSize, up);
      results := batchResults + remainingResults;
      assert ops == batch + remaining;
      AcceptedAppend(batch, remaining, up);
      UpsertAllAppend(before, Accepted(batch, up), Accepted(remaining, up));
    }

    /** The whole ingestion: when every upsert succeeds and the hits are distinct, the table is the ingested one. */
    method Ingest(hits: seq<Hit>, fallback: int, up: UpsertOp -> bool) returns (ingested: nat, failures: seq<string>)
      modifies this
      ensures var ops := BuildUpsertOps(hits, fallback);
              && alerts == UpsertAll(old(alerts), Accepted(ops, up))
              && ingested == |Accepted(ops, up)| && |failures| == |hits| - ingested
              && ((forall i :: 0 <= i < |ops| ==> up(ops[i])) && DistinctHits(ops) ==>
                    ingested == |hits| && Ingested(old(alerts), ops, alerts))
      ensures (forall op: UpsertOp :: up(op)) && DifferentAlerts(hits) ==>
                && ingested == |hits| && failures == [] && OthersKept(old(alerts), alerts, hits)
                && forall i :: 0 <= i < |hits| ==> HitIngested(old(alerts), alerts, hits[i], fallback)
    {
      ghost var before := alerts;
      var ops := BuildUpsertOps(hits, fallback);
      AcceptedIsAll(ops, up);
      var results := UpsertInBatches(ops, 50, up);
      ingested, failures := CountIngestedResults(results);
      ReasonsAreTheRest(ops, up);
      if Accepted(ops, up) == ops && DistinctHits(ops) {
        UpsertAllIngests(before, ops);
        HitsIngested(before, hits, fallback, alerts);
      }
      if DifferentAlerts(hits) { DifferentAlertsAreDistinct(hits, fallback); }
      hide Ingested, HitIngested, OthersKept;
    }
  }

  function Outcomes(ops: seq<UpsertOp>, up: UpsertOp -> bool): (r: seq<Settled<ExternalId>>)
    ensures |r| == |ops|
  {
    if ops == [] then []
    else Outcomes(ops[..|ops| - 1], up)
         + [if up(ops[|ops| - 1]) then Fulfilled(ops[|ops| - 1].externalId) else Rejected("upsert failed")]
  }

  function Accepted(ops: seq<UpsertOp>, up: UpsertOp -> bool): seq<UpsertOp> {
    if ops == [] then []
    else Accepted(ops[..|ops| - 1], up) + if up(ops[|ops| - 1]) then [ops[|ops| - 1]] else []
  }

  /** Nothing is left out exactly when every upsert succeeds. */
  lemma {:induction false} AcceptedIsAll(ops: seq<UpsertOp>, up: UpsertOp -> bool)
    ensures |Accepted(ops, up)| <= |ops|
    ensures Accepted(ops, up) == ops <==> forall i :: 0 <= i < |ops| ==> up(ops[i])
  {
    if ops != [] {
      var init, last := ops[..|ops| - 1], ops[|ops| - 1];
      AcceptedIsAll(init, up);
      assert ops == init + [last];
      assert forall i :: 0 <= i < |init| ==> init[i] == ops[i];
    }
  }

  lemma {:induction false} AcceptedAppend(a: seq<UpsertOp>, b: seq<UpsertOp>, up: UpsertOp -> bool)
    ensures Accepted(a + b, up) == Accepted(a, up) + Accepted(b, up)
    ensures Outcomes(a + b, up) == Outcomes(a, up) + Outcomes(b, up)
  {
    if b == [] {
      assert a + b == a;
    } else {
      AcceptedAppend(a, b[..|b| - 1], up);
      assert (a + b)[..|a + b| - 1] == a + b[..|b| - 1];
    }
  }

  lemma {:induction false} ReasonsAreTheRest(ops: seq<UpsertOp>, up: UpsertOp -> bool)
    ensures |Reasons(Outcomes(ops, up))| + |Accepted(ops, up)| == |ops|
  {
    if ops != [] {
      ReasonsAreTheRest(ops[..|ops| - 1], up);
      assert Outcomes(ops, up)[..|ops| - 1] == Outcomes(ops[..|ops| - 1], up);
    }
  }

  lemma {:induction false} UpsertAllAppend(t: Table, a: seq<UpsertOp>, b: seq<UpsertOp>)
    ensures UpsertAll(t, a + b) == UpsertAll(UpsertAll(t, a), b)
  {
    if b == [] {
      assert a + b == a;
    } else {
      UpsertAllAppend(t, a, b[..|b| - 1]);
      assert (a + b)[..|a + b| - 1] == a + b[..|b| - 1];
    }
  }

  /** Fulfilled results are counted, the messages of the others collected in order. */
  method CountIngestedResults<R>(results: seq<Settled<R>>) returns (ingested: nat, failures: seq<string>)
    ensures failures == Reasons(results) && ingested + |failures| == |results|
    ensures forall reason :: reason in failures <==> Rejected(reason) in results
    ensures ingested == |set i | 0 <= i < |results| && results[i].Fulfilled?|
  {
    ReasonsAreRejections(results);
    ingested, failures := 0, [];
    for i := 0 to |results|
      invariant failures == Reasons(results[..i]) && ingested + |failures| == i
      invariant ingested == |set k | 0 <= k < i && results[k].Fulfilled?|
    {
      assert results[..i + 1][..i] == results[..i];
      match results[i] {
        case Fulfilled(_) =>
          assert (set k | 0 <= k < i + 1 && results[k].Fulfilled?) == (set k | 0 <= k < i && results[k].Fulfilled?) + {i};
          ingested := ingested + 1;
        case Rejected(reason) =>
          assert (set k | 0 <= k < i + 1 && results[k].Fulfilled?) == (set k | 0 <= k < i && results[k].Fulfilled?);
          failures := failures + [reason];
      }
    }
    assert results[..|results|] == results;
  }

  lemma {:induction false} ReasonsAreRejections<R>(results: seq<Settled<R>>)
    ensures forall reason :: reason in Reasons(results) <==> Rejected(reason) in results
  {
    if results != [] {
      ReasonsAreRejections(results[..|results| - 1]);
      assert results == results[..|results| - 1] + [results[|results| - 1]];
    }
  }

  function Reasons<R>(results: seq<Settled<R>>): seq<string> {
    if results == [] then []
    else Reasons(results[..|results| - 1])
         + match results[|results| - 1] case Fulfilled(_) => [] case Rejected(reason) => [reason]
  }
}
