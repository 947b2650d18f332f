/** No starvation: what drains that run one after another, with successful status updates, achieve. */
module OutboxLiveness {
  import opened Outbox
  import opened Sums

  /** The same row after a claim and a delivery. */
  predicate Delivered(before: Delivery, after: Delivery) {
    exists outcome: Outcome :: after == DeliverOnce(before, outcome)
  }

  function DeliverOnce(d: Delivery, outcome: Outcome): Delivery {
    Settle(Claim(d), d.attempts + 1, outcome)
  }

  /** One whole drain: a batch is claimed, and each of its rows is delivered with some outcome. */
  ghost predicate Drained(t: Table, u: Table, limit: nat, batch: set<DeliveryId>) {
    && IsBatch(t, {}, limit, batch)
    && u.Keys == t.Keys
    && forall id :: id in t ==> if id in batch then Delivered(t[id], u[id]) else u[id] == t[id]
  }

  lemma RunNothing(s: State)
    ensures Run(s, []) == s
  {
  }

  lemma OneDeliveryIsRun(before: Delivery, after: Delivery, x: Table, held: map<DeliveryId, Claimed>, id: DeliveryId)
    returns (steps: seq<Step>)
    requires id in held && id in x && x[id] == Claim(before) && held[id] == Claimed(before.attempts + 1, Waiting)
    requires Delivered(before, after)
    ensures Run(State(x, map[0 := held]), steps) == State(x[id := after], map[0 := held - {id}])
  {
    hide Run, DeliverySteps, Claim, Settle;
    var outcome: Outcome :| after == DeliverOnce(before, outcome);
    var s := State(x, map[0 := held]);
    DeliveryIsRun(s, 0, id, outcome);
    assert Finish(s, 0, id, after) == State(x[id := after], map[0 := held - {id}]);
    steps := DeliverySteps(0, id, outcome);
  }

  lemma {:induction false} DeliveriesAreRun(t: Table, u: Table, x: Table, held: map<DeliveryId, Claimed>)
    returns (steps: seq<Step>)
    requires held.Keys <= t.Keys == x.Keys == u.Keys
    requires forall id :: id in held ==>
               x[id] == Claim(t[id]) && held[id] == Claimed(t[id].attempts + 1, Waiting) && Delivered(t[id], u[id])
    requires forall id :: id in t && id !in held ==> x[id] == u[id]
    ensures Run(State(x, map[0 := held]), steps) == State(u, map[0 := map[]])
    decreases held.Keys
  {
    hide Run, Claim, Delivered;
    if held == map[] {
      assert x == u;
      steps := [];
      RunNothing(State(x, map[0 := held]));
    } else {
      var id :| id in held;
      var first := OneDeliveryIsRun(t[id], u[id], x, held, id);
      var rest := DeliveriesAreRun(t, u, x[id := u[id]], held - {id});
      RunConcat(State(x, map[0 := held]), first, rest);
      steps := first + rest;
    }
  }

  /** Every whole drain is a run of the transition system, by one worker that is alone. */
  lemma DrainIsRun(t: Table, u: Table, limit: nat, batch: set<DeliveryId>) returns (steps: seq<Step>)
    requires Drained(t, u, limit, batch)
    ensures Run(State(t, map[]), steps) == State(u, map[])
  {
    var claim, stop := ClaimStep(0, limit, {}, batch), StopStep(0);
    var s := State(t, map[]);
    forall id | id in batch
      ensures id in t
    {
      BatchPending(t, limit, batch, id);
    }
    assert Do(s, claim) == State(ClaimAll(t, batch), map[0 := Attempts(t, batch)]);
    hide IsBatch, Delivered;
    var deliveries := DeliveriesAreRun(t, u, ClaimAll(t, batch), Attempts(t, batch));
    assert Do(State(u, map[0 := map[]]), stop) == State(u, map[]);
    hide Do;
    OneStep(s, claim);
    OneStep(State(u, map[0 := map[]]), stop);
    RunConcat(s, [claim], deliveries);
    RunConcat(s, [claim] + deliveries, [stop]);
    steps := [claim] + deliveries + [stop];
  }

  datatype Action =
    | Drain(limit: nat)
    | Arrive(notificationId: string, recipient: Recipient, now: int)

  ghost predicate Follows(t: Table, action: Action, u: Table) {
    match action
    case Drain(limit) => exists batch :: Drained(t, u, limit, batch)
    case Arrive(notificationId, recipient, now) => u == Enqueue(t, notificationId, recipient, now)
  }

  /** A run of one worker: tables[i + 1] follows from tables[i] by actions[i]. */
  ghost predicate IsRun(tables: seq<Table>, actions: seq<Action>) {
    && |tables| == |actions| + 1
    && forall i :: 0 <= i < |actions| ==> Follows(tables[i], actions[i], tables[i + 1])
  }

  function Drains(actions: seq<Action>): nat {
    if actions == [] then 0 else (if actions[0].Drain? then 1 else 0) + Drains(actions[1..])
  }

  /** Every drain may claim at least one row, and every row that arrives is newer than `at`. */
  predicate FairFor(actions: seq<Action>, at: int) {
    forall i :: 0 <= i < |actions| ==>
      match actions[i]
      case Drain(limit) => limit >= 1
      case Arrive(_, _, now) => now > at
  }

  /** Between drains no row is being processed. */
  predicate Quiet(t: Table) {
    TableOk(t) && forall id :: id in t ==> !t[id].status.Processing?
  }

  /** The attempts left to a pending row that is not newer than `at`. */
  function Credit(t: Table, at: int): DeliveryId -> nat {
    id => if id in t && t[id].status.Pending? && t[id].createdAt <= at && t[id].attempts <= MAX_ATTEMPTS
          then MAX_ATTEMPTS - t[id].attempts else 0
  }

  ghost function TotalCredit(t: Table, at: int): nat {
    Sum(t.Keys, Credit(t, at))
  }

  /** A delivery settles the row or uses up one of its attempts. */
  lemma DeliverySpends(d: Delivery, outcome: Outcome)
    requires RowOk(d) && d.status.Pending?
    ensures var e := DeliverOnce(d, outcome);
            && RowOk(e) && !e.status.Processing? && e.createdAt == d.createdAt
            && (e.status.Terminal() || (e.status.Pending? && e.attempts == d.attempts + 1))
  {
  }

  lemma DrainRow(t: Table, u: Table, limit: nat, batch: set<DeliveryId>, at: int, id: DeliveryId)
    requires Quiet(t) && Drained(t, u, limit, batch) && id in t
    ensures RowOk(u[id]) && !u[id].status.Processing? && u[id].createdAt == t[id].createdAt
    ensures t[id].status.Terminal() ==> u[id] == t[id]
    ensures Credit(u, at)(id) <= Credit(t, at)(id)
    ensures id in batch && t[id].createdAt <= at ==> Credit(u, at)(id) < Credit(t, at)(id)
  {
    hide IsBatch, DeliverOnce;
    if id in batch {
      assert t[id].status.Pending? by { BatchPending(t, limit, batch, id); }
      assert Delivered(t[id], u[id]);
      var outcome :| u[id] == DeliverOnce(t[id], outcome);
      DeliverySpends(t[id], outcome);
    }
  }

  lemma BatchPending(t: Table, limit: nat, batch: set<DeliveryId>, id: DeliveryId)
    requires IsBatch(t, {}, limit, batch) && id in batch
    ensures id in t && t[id].status.Pending?
  {
    assert id in Claimable(t, {});
  }

  /** If a row not newer than `at` is pending, a drain claims some row not newer than `at`. */
  lemma BatchReachesBack(t: Table, limit: nat, batch: set<DeliveryId>, p: DeliveryId) returns (b: DeliveryId)
    requires IsBatch(t, {}, limit, batch) && limit >= 1
    requires p in t && t[p].status.Pending?
    ensures b in batch && b in t && t[b].createdAt <= t[p].createdAt
  {
    assert p in Claimable(t, {});
    if p in batch {
      b := p;
    } else {
      assert |Claimable(t, {})| >= 1;
      assert batch != {};
      b :| b in batch;
    }
  }

  /** Every drain spends credit as long as p is pending. */
  lemma DrainSpends(t: Table, u: Table, limit: nat, batch: set<DeliveryId>, p: DeliveryId)
    requires Quiet(t) && Drained(t, u, limit, batch) && limit >= 1 && p in t
    ensures Quiet(u)
    ensures p in u && u[p].createdAt == t[p].createdAt && (t[p].status.Terminal() ==> u[p] == t[p])
    ensures t[p].status.Pending? ==> TotalCredit(u, t[p].createdAt) < TotalCredit(t, t[p].createdAt)
  {
    hide IsBatch, RowOk, Delivered, Credit;
    var at := t[p].createdAt;
    forall id | id in t
      ensures RowOk(u[id]) && !u[id].status.Processing? && u[id].createdAt == t[id].createdAt
      ensures t[id].status.Terminal() ==> u[id] == t[id]
      ensures Credit(u, at)(id) <= Credit(t, at)(id)
    {
      DrainRow(t, u, limit, batch, at, id);
    }
    if t[p].status.Pending? {
      var b := BatchReachesBack(t, limit, batch, p);
      DrainRow(t, u, limit, batch, at, b);
      SumStrict(t.Keys, Credit(u, at), Credit(t, at), b);
    }
  }

  lemma ArrivalKeepsRows(t: Table, notificationId: string, r: Recipient, now: int)
    requires Quiet(t)
    ensures var u := Enqueue(t, notificationId, r, now);
            && Quiet(u)
            && (forall id :: id in t ==> id in u && u[id] == t[id])
            && (forall id :: id in u && id !in t ==> u[id].createdAt == now)
  {
    if r.phone.Some? {
      InsertKeepsRows(t, notificationId, SelectChannels(r), r.phone.value, now);
    }
  }

  /** Newer rows add no credit. */
  lemma ArrivalKeepsCredit(t: Table, notificationId: string, r: Recipient, now: int, at: int)
    requires Quiet(t) && now > at
    ensures var u := Enqueue(t, notificationId, r, now);
            && Quiet(u)
            && (forall id :: id in t ==> id in u && u[id] == t[id])
            && TotalCredit(u, at) == TotalCredit(t, at)
  {
    var u := Enqueue(t, notificationId, r, now);
    ArrivalKeepsRows(t, notificationId, r, now);
    hide Enqueue;
    SumCongruent(t.Keys, Credit(t, at), Credit(u, at));
    AddZeros(t.Keys, u.Keys, Credit(u, at));
  }

  lemma {:induction false} AddZeros<K>(a: set<K>, b: set<K>, f: K -> nat)
    requires a <= b && forall k :: k in b - a ==> f(k) == 0
    ensures Sum(b, f) == Sum(a, f)
    decreases |b - a|
  {
    if b - a != {} {
      var k :| k in b - a;
      SumRemove(b, f, k);
      AddZeros(a, b - {k}, f);
    } else {
      assert a == b;
    }
  }

  lemma RunTail(tables: seq<Table>, actions: seq<Action>)
    requires IsRun(tables, actions) && actions != []
    ensures IsRun(tables[1..], actions[1..])
    ensures forall at :: FairFor(actions, at) ==> FairFor(actions[1..], at)
  {
    var restTables, rest := tables[1..], actions[1..];
    forall i | 0 <= i < |rest|
      ensures Follows(restTables[i], rest[i], restTables[i + 1])
    {
      var j := i + 1;
      assert Follows(tables[j], actions[j], tables[j + 1]);
    }
    forall at | FairFor(actions, at)
      ensures FairFor(rest, at)
    {
      assert forall i :: 0 <= i < |rest| ==> rest[i] == actions[i + 1];
    }
  }

  /** p becomes terminal within as many drains as there is credit, whatever arrives in between. */
  lemma {:induction false} CreditDrains(tables: seq<Table>, actions: seq<Action>, p: DeliveryId)
    requires IsRun(tables, actions) && Quiet(tables[0]) && p in tables[0]
    requires FairFor(actions, tables[0][p].createdAt)
    requires Drains(actions) >= TotalCredit(tables[0], tables[0][p].createdAt)
    ensures var last := tables[|tables| - 1]; p in last && last[p].status.Terminal()
    decreases |actions|
  {
    hide Drained, Quiet, TotalCredit;
    var t := tables[0];
    if actions == [] {
      NoCredit(t, p);
    } else {
      var u := tables[1];
      assert Follows(t, actions[0], u);
      var restTables, rest := tables[1..], actions[1..];
      RunTail(tables, actions);
      match actions[0]
      case Drain(limit) =>
        var batch :| Drained(t, u, limit, batch);
        DrainSpends(t, u, limit, batch, p);
        if t[p].status.Terminal() {
          TerminalStays(restTables, rest, p);
        } else {
          NotProcessing(t, p);
          CreditDrains(restTables, rest, p);
        }
      case Arrive(notificationId, r, now) =>
        ArrivalKeepsCredit(t, notificationId, r, now, t[p].createdAt);
        CreditDrains(restTables, rest, p);
    }
  }

  lemma NotProcessing(t: Table, p: DeliveryId)
    requires Quiet(t) && p in t
    ensures t[p].status.Terminal() || t[p].status.Pending?
  {
  }

  lemma NoCredit(t: Table, p: DeliveryId)
    requires Quiet(t) && p in t && TotalCredit(t, t[p].createdAt) == 0
    ensures t[p].status.Terminal()
  {
    SumPart(t.Keys, Credit(t, t[p].createdAt), p);
    assert RowOk(t[p]);
  }

  lemma {:induction false} TerminalStays(tables: seq<Table>, actions: seq<Action>, p: DeliveryId)
    requires IsRun(tables, actions) && Quiet(tables[0]) && p in tables[0] && tables[0][p].status.Terminal()
    requires FairFor(actions, tables[0][p].createdAt)
    ensures var last := tables[|tables| - 1]; p in last && last[p] == tables[0][p]
    decreases |actions|
  {
    hide Drained, Quiet;
    if actions == [] {
    } else {
      var t, u := tables[0], tables[1];
      assert Follows(t, actions[0], u);
      match actions[0] {
        case Drain(limit) =>
          var batch :| Drained(t, u, limit, batch);
          DrainSpends(t, u, limit, batch, p);
        case Arrive(notificationId, r, now) =>
          ArrivalKeepsCredit(t, notificationId, r, now, t[p].createdAt);
      }
      var restTables, rest := tables[1..], actions[1..];
      RunTail(tables, actions);
      TerminalStays(restTables, rest, p);
    }
  }

  /** The other rows that are pending and not newer than p. */
  ghost function Ahead(t: Table, p: DeliveryId): set<DeliveryId>
    requires p in t
  {
    set id | id in t && id != p && t[id].status.Pending? && t[id].createdAt <= t[p].createdAt
  }

  lemma CreditBound(t: Table, p: DeliveryId)
    requires Quiet(t) && p in t
    ensures TotalCredit(t, t[p].createdAt) <= 3 * (|Ahead(t, p)| + 1)
  {
    var at := t[p].createdAt;
    var counted := Ahead(t, p) + {p};
    AddZeros(counted, t.Keys, Credit(t, at));
    SumBound(counted, Credit(t, at), 3);
  }

  /**
   A row with k other live rows not newer than it is terminal after 3(k + 1) drains, however many newer rows are
   enqueued in between.
   */
  lemma NoStarvation(tables: seq<Table>, actions: seq<Action>, p: DeliveryId)
    requires IsRun(tables, actions) && Quiet(tables[0]) && p in tables[0]
    requires FairFor(actions, tables[0][p].createdAt)
    requires Drains(actions) >= 3 * (|Ahead(tables[0], p)| + 1)
    ensures var last := tables[|tables| - 1]; p in last && last[p].status.Terminal()
  {
    CreditBound(tables[0], p);
    CreditDrains(tables, actions, p);
  }

  /** With no new rows, 3n drains settle all n rows. */
  lemma AllSettle(tables: seq<Table>, actions: seq<Action>)
    requires IsRun(tables, actions) && Quiet(tables[0])
    requires forall i :: 0 <= i < |actions| ==> actions[i].Drain? && actions[i].limit >= 1
    requires |actions| >= 3 * |tables[0]|
    ensures forall p :: p in tables[0] ==>
              p in tables[|tables| - 1] && tables[|tables| - 1][p].status.Terminal()
  {
    forall p | p in tables[0]
      ensures p in tables[|tables| - 1] && tables[|tables| - 1][p].status.Terminal()
    {
      var ahead := Ahead(tables[0], p);
      SubsetSize(ahead + {p}, tables[0].Keys);
      assert |ahead + {p}| == |ahead| + 1;
      OnlyDrains(actions);
      NoStarvation(tables, actions, p);
    }
  }

  lemma {:induction false} OnlyDrains(actions: seq<Action>)
    requires forall i :: 0 <= i < |actions| ==> actions[i].Drain?
    ensures Drains(actions) == |actions|
    decreases |actions|
  {
    if actions == [] {
    } else {
      OnlyDrains(actions[1..]);
    }
  }
}
