/** The dispatcher as the source writes it: claim in one statement, then deliver row by row. */
module OutboxService {
  import opened Outbox
  import opened OutboxLiveness

  datatype ClaimedDelivery = ClaimedDelivery(id: DeliveryId, attempts: nat)

  /** What configuration, provider and database do with the n-th attempt of a row. */
  type Provider = (DeliveryId, nat) -> Outcome

  /** The oldest rows of a set, in any order among equals. */
  lemma {:induction false} BatchExists(t: Table, locked: set<DeliveryId>, limit: nat) returns (batch: set<DeliveryId>)
    ensures batch <= t.Keys && IsBatch(t, locked, limit, batch)
  {
    batch := OldestOf(t, Claimable(t, locked), limit);
  }

  lemma {:induction false} OldestOf(t: Table, rows: set<DeliveryId>, limit: nat) returns (batch: set<DeliveryId>)
    requires rows <= t.Keys
    ensures batch <= rows && |batch| == (if |rows| < limit then |rows| else limit)
    ensures forall b, p :: b in batch && p in rows - batch ==> t[b].createdAt <= t[p].createdAt
    decreases limit
  {
    if limit == 0 || rows == {} {
      batch := {};
    } else {
      var oldest := Oldest(t, rows);
      var rest := OldestOf(t, rows - {oldest}, limit - 1);
      batch := {oldest} + rest;
    }
  }

  lemma {:induction false} Oldest(t: Table, rows: set<DeliveryId>) returns (oldest: DeliveryId)
    requires rows <= t.Keys && rows != {}
    ensures oldest in rows && forall p :: p in rows ==> t[oldest].createdAt <= t[p].createdAt
    decreases |rows|
  {
    var any :| any in rows;
    if rows == {any} {
      oldest := any;
    } else {
      assert rows == {any} + (rows - {any});
      var rest := Oldest(t, rows - {any});
      oldest := if t[any].createdAt <= t[rest].createdAt then any else rest;
    }
  }

  /** Without locks a batch is as many pending rows as the limit allows, the oldest ones. */
  lemma BatchIsOldest(t: Table, limit: nat, batch: set<DeliveryId>)
    requires IsBatch(t, {}, limit, batch)
    ensures var pending := set id | id in t && t[id].status.Pending?;
            && batch <= pending && |batch| == (if |pending| < limit then |pending| else limit)
            && forall b, p :: b in batch && p in pending && p !in batch ==> t[b].createdAt <= t[p].createdAt
  {
    assert Claimable(t, {}) == set id | id in t && t[id].status.Pending?;
  }

  function IdsOf(rows: seq<ClaimedDelivery>): set<DeliveryId> {
    set k | 0 <= k < |rows| :: rows[k].id
  }

  lemma OneMoreRow(rows: seq<ClaimedDelivery>, row: ClaimedDelivery)
    ensures IdsOf(rows + [row]) == IdsOf(rows) + {row.id}
    ensures row.id !in IdsOf(rows) ==> forall k :: 0 <= k < |rows| ==> rows[k].id != row.id
  {
    var next := rows + [row];
    assert next[|rows|].id == row.id;
    assert forall k :: 0 <= k < |rows| ==> next[k].id == rows[k].id && rows[k].id in IdsOf(rows);
  }

  /** RETURNING: each row of the batch once, in any order. */
  method Returning(t: Table, batch: set<DeliveryId>) returns (rows: seq<ClaimedDelivery>)
    requires batch <= t.Keys
    ensures IdsOf(rows) == batch
    ensures forall j, k :: 0 <= j < k < |rows| ==> rows[j].id != rows[k].id
    ensures forall k :: 0 <= k < |rows| ==> rows[k].id in t && rows[k].attempts == t[rows[k].id].attempts
  {
    rows := [];
    var remaining := batch;
    while remaining != {}
      invariant remaining <= batch && IdsOf(rows) == batch - remaining
      invariant forall j, k :: 0 <= j < k < |rows| ==> rows[j].id != rows[k].id
      invariant forall k :: 0 <= k < |rows| ==> rows[k].id in t && rows[k].attempts == t[rows[k].id].attempts
      decreases remaining
    {
      var id :| id in remaining;
      OneMoreRow(rows, ClaimedDelivery(id, t[id].attempts));
      rows := rows + [ClaimedDelivery(id, t[id].attempts)];
      remaining := remaining - {id};
    }
  }

  class Dispatcher {
    var table: Table

    constructor ()
      ensures table == map[]
    {
      table := map[];
    }

    /** One PENDING row per consented channel; the number of rows added. */
    method EnqueueNotificationDeliveries(notificationId: string, recipient: Recipient, now: int) returns (count: nat)
      modifies this
      ensures table == Enqueue(old(table), notificationId, recipient, now)
      ensures count == |table| - |old(table)|
    {
      count := 0;
      var channels := SelectChannels(recipient);
      if |channels| == 0 || recipient.phone.None? {
        return;
      }
      for i := 0 to |channels|
        invariant InsertMissing(table, notificationId, channels[i..], recipient.phone.value, now)
                  == InsertMissing(old(table), notificationId, channels, recipient.phone.value, now)
        invariant count == |table| - |old(table)|
      {
        var id := DeliveryId(notificationId, channels[i]);
        assert channels[i..][0] == channels[i] && channels[i..][1..] == channels[i + 1..];
        if id !in table {
          table := table[id := Delivery(recipient.phone.value, Pending, 0, now, 0)];
          count := count + 1;
        }
      }
      assert channels[|channels|..] == [];
    }

    /** The claiming UPDATE: some oldest batch of pending rows, each moved to PROCESSING and returned once. */
    method ClaimPending(limit: nat) returns (rows: seq<ClaimedDelivery>, ghost batch: set<DeliveryId>)
      modifies this
      ensures IsBatch(old(table), {}, limit, batch)
      ensures var pending := set id | id in old(table) && old(table)[id].status.Pending?;
              && batch <= pending && |batch| == (if |pending| < limit then |pending| else limit)
              && forall b, p :: b in batch && p in pending && p !in batch ==>
                   old(table)[b].createdAt <= old(table)[p].createdAt
      ensures table == ClaimAll(old(table), batch)
      ensures IdsOf(rows) == batch
      ensures forall j, k :: 0 <= j < k < |rows| ==> rows[j].id != rows[k].id
      ensures forall k :: 0 <= k < |rows| ==> rows[k].id in table && rows[k].attempts == table[rows[k].id].attempts
    {
      hide IsBatch;
      ghost var witness' := BatchExists(table, {}, limit);
      var claimed :| claimed <= table.Keys && IsBatch(table, {}, limit, claimed);
      batch := claimed;
      BatchIsOldest(table, limit, batch);
      table := ClaimAll(table, claimed);
      rows := Returning(table, claimed);
    }

    /** Counts a call of the provider; what the provider answers is an input of Deliver. */
    method CallProvider(id: DeliveryId)
      requires id in table
      modifies this
      ensures table == old(table)[id := Called(old(table)[id])]
    {
      table := table[id := table[id].(calls := table[id].calls + 1)];
    }

    /** Sends one claimed row and records the outcome: a refusal is final at the third attempt and retried before. */
    method Deliver(row: ClaimedDelivery, provider: Provider) returns (sent: bool)
      requires row.id in table
      modifies this
      ensures table == old(table)[row.id := Settle(old(table)[row.id], row.attempts, provider(row.id, row.attempts))]
      ensures sent <==> provider(row.id, row.attempts).Accepted?
      ensures table[row.id].status
              == match provider(row.id, row.attempts)
                 case NotConfigured => Skipped
                 case Accepted => Sent
                 case _ => if row.attempts >= 3 then Failed else Pending
    {
      var d := table[row.id];
      match provider(row.id, row.attempts) {
        case NotConfigured =>
          table := table[row.id := d.(status := Skipped)];
          return false;
        case Accepted =>
          CallProvider(row.id);
          table := table[row.id := table[row.id].(status := Sent)];
          return true;
        case _ =>
          CallProvider(row.id);
          var terminal := row.attempts >= MAX_ATTEMPTS;
          table := table[row.id := table[row.id].(status := if terminal then Failed else Pending)];
          return false;
      }
    }

    /** One drain is one step of the liveness argument, and returns how many rows of its batch it sent. */
    method DrainPendingDeliveries(limit: nat, provider: Provider) returns (sent: nat, ghost batch: set<DeliveryId>)
      modifies this
      ensures Drained(old(table), table, limit, batch)
      ensures sent == |set id | id in batch && id in table && table[id].status.Sent?|
      ensures sent == |set id | id in batch && id in old(table) && provider(id, old(table)[id].attempts + 1).Accepted?|
    {
      hide IsBatch, Halfway, ClaimAll, Settle, Delivered;
      var before := table;
      var rows: seq<ClaimedDelivery>;
      rows, batch := ClaimPending(limit);
      ghost var sentIds: set<DeliveryId> := {};
      HalfwayStart(before, table, limit, rows, batch);
      sent := 0;
      for i := 0 to |rows|
        invariant Halfway(before, table, rows, batch, i, sentIds)
        invariant forall k :: 0 <= k < i ==>
                    (rows[k].id in sentIds <==> provider(rows[k].id, rows[k].attempts).Accepted?)
        invariant sent == |sentIds|
      {
        HalfwayStep(before, table, rows, batch, i, sentIds, provider(rows[i].id, rows[i].attempts));
        var ok := Deliver(rows[i], provider);
        if ok {
          sent := sent + 1;
          sentIds := sentIds + {rows[i].id};
        }
      }
      HalfwayEnd(before, table, rows, batch, sentIds);
      AcceptedRows(before, table, rows, batch, sentIds, provider);
    }
  }

  /** The first i rows of the batch are delivered, those sent are in `sentIds`, and the others are only claimed. */
  ghost predicate Halfway(before: Table, t: Table, rows: seq<ClaimedDelivery>, batch: set<DeliveryId>, i: nat,
                          sentIds: set<DeliveryId>)
  {
    && i <= |rows|
    && batch <= before.Keys && t.Keys == before.Keys && IdsOf(rows) == batch
    && (forall j, k :: 0 <= j < k < |rows| ==> rows[j].id != rows[k].id)
    && (forall k :: 0 <= k < |rows| ==> rows[k].id in batch && rows[k].attempts == before[rows[k].id].attempts + 1)
    && (forall id :: id in t && id !in batch ==> t[id] == before[id])
    && (forall k :: 0 <= k < i ==> Delivered(before[rows[k].id], t[rows[k].id]))
    && (forall k :: i <= k < |rows| ==> t[rows[k].id] == Claim(before[rows[k].id]) && rows[k].id !in sentIds)
    && sentIds <= batch
    && (forall k :: 0 <= k < i ==> (rows[k].id in sentIds <==> t[rows[k].id].status.Sent?))
  }

  lemma HalfwayStart(before: Table, t: Table, limit: nat, rows: seq<ClaimedDelivery>, batch: set<DeliveryId>)
    requires IsBatch(before, {}, limit, batch) && t == ClaimAll(before, batch) && IdsOf(rows) == batch
    requires forall j, k :: 0 <= j < k < |rows| ==> rows[j].id != rows[k].id
    requires forall k :: 0 <= k < |rows| ==> rows[k].id in t && rows[k].attempts == t[rows[k].id].attempts
    ensures Halfway(before, t, rows, batch, 0, {})
  {
    BatchKnown(before, limit, batch);
    RowsOfBatch(rows, batch);
  }

  lemma HalfwayStep(before: Table, t: Table, rows: seq<ClaimedDelivery>, batch: set<DeliveryId>, i: nat,
                    sentIds: set<DeliveryId>, outcome: Outcome)
    requires Halfway(before, t, rows, batch, i, sentIds) && i < |rows|
    ensures rows[i].id in t && rows[i].id !in sentIds
    ensures var d := Settle(t[rows[i].id], rows[i].attempts, outcome);
            Halfway(before, t[rows[i].id := d], rows, batch, i + 1,
                    if d.status.Sent? then sentIds + {rows[i].id} else sentIds)
  {
    hide Delivered;
    var id := rows[i].id;
    DeliveredNow(before[id], Settle(t[id], rows[i].attempts, outcome), rows[i].attempts, outcome);
    assert forall k :: 0 <= k < |rows| && k != i ==> rows[k].id != rows[i].id;
  }

  lemma HalfwayEnd(before: Table, t: Table, rows: seq<ClaimedDelivery>, batch: set<DeliveryId>,
                   sentIds: set<DeliveryId>)
    requires Halfway(before, t, rows, batch, |rows|, sentIds)
    ensures t.Keys == before.Keys
    ensures forall id :: id in before ==> if id in batch then Delivered(before[id], t[id]) else t[id] == before[id]
    ensures sentIds == set id | id in batch && id in t && t[id].status.Sent?
  {
    hide Delivered;
    RowsOfBatch(rows, batch);
  }

  lemma AcceptedRows(before: Table, t: Table, rows: seq<ClaimedDelivery>, batch: set<DeliveryId>,
                     sentIds: set<DeliveryId>, provider: Provider)
    requires Halfway(before, t, rows, batch, |rows|, sentIds)
    requires forall k :: 0 <= k < |rows| ==>
               (rows[k].id in sentIds <==> provider(rows[k].id, rows[k].attempts).Accepted?)
    ensures sentIds == set id | id in batch && id in before && provider(id, before[id].attempts + 1).Accepted?
  {
    hide Delivered;
    RowsOfBatch(rows, batch);
  }

  lemma RowsOfBatch(rows: seq<ClaimedDelivery>, batch: set<DeliveryId>)
    requires IdsOf(rows) == batch
    ensures forall k :: 0 <= k < |rows| ==> rows[k].id in batch
    ensures forall id :: id in batch ==> exists k :: 0 <= k < |rows| && rows[k].id == id
  {
    forall k | 0 <= k < |rows|
      ensures rows[k].id in batch
    {
      assert rows[k].id in IdsOf(rows);
    }
  }

  lemma DeliveredNow(before: Delivery, after: Delivery, attempts: nat, outcome: Outcome)
    requires attempts == before.attempts + 1 && after == Settle(Claim(before), attempts, outcome)
    ensures Delivered(before, after)
  {
    assert after == DeliverOnce(before, outcome);
  }

  lemma BatchKnown(t: Table, limit: nat, batch: set<DeliveryId>)
    requires IsBatch(t, {}, limit, batch)
    ensures batch <= t.Keys
  {
  }
}
