/**
 The notification outbox (notification-dispatch.service.ts) as a transition system: drains of several instances claim
 rows with SKIP LOCKED and deliver them, in any interleaving.
 */
module Outbox {
  import opened Wrappers

  datatype Channel = Sms | WhatsApp

  /** The unique index on notification and channel. */
  datatype DeliveryId = DeliveryId(notificationId: string, channel: Channel)

  datatype Status = Pending | Processing | Sent | Failed | Skipped {
    predicate Terminal() {
      Sent? || Failed? || Skipped?
    }
  }

  /** `calls` is history, not a column: how often the provider was called for the row. */
  datatype Delivery = Delivery(recipient: string, status: Status, attempts: nat, createdAt: int, calls: nat)

  type Table = map<DeliveryId, Delivery>

  const MAX_ATTEMPTS: nat := 3

  /* ---------------------------------------------------------------------- */
  /* Enqueue                                                                */
  /* ---------------------------------------------------------------------- */

  datatype Recipient = Recipient(phone: Option<string>, smsOptIn: bool, whatsappOptIn: bool)

  /** Only channels the user consented to, and only with a usable phone number. */
  function SelectChannels(r: Recipient): seq<Channel> {
    if r.phone.None? then []
    else (if r.whatsappOptIn then [WhatsApp] else []) + (if r.smsOptIn then [Sms] else [])
  }

  /** createMany with skipDuplicates: rows that exist stay as they are. */
  function InsertMissing(t: Table, notificationId: string, channels: seq<Channel>, phone: string, now: int): Table
    decreases |channels|
  {
    if channels == [] then t
    else
      var id := DeliveryId(notificationId, channels[0]);
      InsertMissing(if id in t then t else t[id := Delivery(phone, Pending, 0, now, 0)],
                    notificationId, channels[1..], phone, now)
  }

  function Enqueue(t: Table, notificationId: string, r: Recipient, now: int): Table {
    if r.phone.None? then t else InsertMissing(t, notificationId, SelectChannels(r), r.phone.value, now)
  }

  lemma {:induction false} InsertKeepsRows(t: Table, notificationId: string, channels: seq<Channel>, phone: string,
                                           now: int)
    ensures var u := InsertMissing(t, notificationId, channels, phone, now);
            && (forall id :: id in t ==> id in u && u[id] == t[id])
            && (forall id :: id in u && id !in t ==>
                  u[id] == Delivery(phone, Pending, 0, now, 0) && id.notificationId == notificationId
                    && id.channel in channels)
            && (forall c :: c in channels ==> DeliveryId(notificationId, c) in u)
    decreases |channels|
  {
    if channels == [] {
    } else {
      var id := DeliveryId(notificationId, channels[0]);
      InsertKeepsRows(if id in t then t else t[id := Delivery(phone, Pending, 0, now, 0)],
                      notificationId, channels[1..], phone, now);
      assert forall c :: c in channels ==> c == channels[0] || c in channels[1..];
    }
  }

  lemma {:induction false} InsertNothing(t: Table, notificationId: string, channels: seq<Channel>, phone: string,
                                         now: int)
    requires forall c :: c in channels ==> DeliveryId(notificationId, c) in t
    ensures InsertMissing(t, notificationId, channels, phone, now) == t
    decreases |channels|
  {
    if channels == [] {
    } else {
      InsertNothing(t, notificationId, channels[1..], phone, now);
    }
  }

  predicate Consented(r: Recipient, c: Channel) {
    match c
    case WhatsApp => r.whatsappOptIn
    case Sms => r.smsOptIn
  }

  /** Exactly the consented channels of a reachable recipient get a row, and rows that exist are never touched. */
  lemma EnqueueRespectsConsent(t: Table, notificationId: string, r: Recipient, now: int, id: DeliveryId)
    ensures var u := Enqueue(t, notificationId, r, now);
            && (id in t ==> id in u && u[id] == t[id])
            && (id !in t ==>
                  (id in u <==> id.notificationId == notificationId && r.phone.Some? && Consented(r, id.channel)))
            && (id !in t && id in u ==> u[id] == Delivery(r.phone.value, Pending, 0, now, 0))
  {
    if r.phone.Some? {
      InsertKeepsRows(t, notificationId, SelectChannels(r), r.phone.value, now);
      assert id.channel in SelectChannels(r) <==> Consented(r, id.channel);
      assert id.notificationId == notificationId ==> id == DeliveryId(notificationId, id.channel);
    }
  }

  /** Enqueuing a notification again, at any later time, adds and changes nothing. */
  lemma EnqueueIdempotent(t: Table, notificationId: string, r: Recipient, now: int, later: int)
    ensures Enqueue(Enqueue(t, notificationId, r, now), notificationId, r, later) == Enqueue(t, notificationId, r, now)
  {
    if r.phone.Some? {
      InsertKeepsRows(t, notificationId, SelectChannels(r), r.phone.value, now);
      InsertNothing(Enqueue(t, notificationId, r, now), notificationId, SelectChannels(r), r.phone.value, later);
    }
  }

  /* ---------------------------------------------------------------------- */
  /* Claim and deliver                                                      */
  /* ---------------------------------------------------------------------- */

  /** Pending rows that no concurrent claim has locked. */
  function Claimable(t: Table, locked: set<DeliveryId>): set<DeliveryId> {
    set id | id in t && t[id].status.Pending? && id !in locked
  }

  /** ORDER BY created_at LIMIT: as many claimable rows as allowed, none of them newer than a row left behind. */
  predicate IsBatch(t: Table, locked: set<DeliveryId>, limit: nat, batch: set<DeliveryId>) {
    var claimable := Claimable(t, locked);
    && batch <= claimable
    && |batch| == (if |claimable| < limit then |claimable| else limit)
    && forall b, p :: b in batch && p in claimable - batch ==> t[b].createdAt <= t[p].createdAt
  }

  function Claim(d: Delivery): Delivery {
    d.(status := Processing, attempts := d.attempts + 1)
  }

  function ClaimAll(t: Table, batch: set<DeliveryId>): Table {
    map id | id in t :: if id in batch then Claim(t[id]) else t[id]
  }

  /** A message was given to the provider. */
  function Called(d: Delivery): Delivery {
    d.(calls := d.calls + 1)
  }

  /**
   The update after a call: sent, or else retried as long as attempts are left. `attempts` is what the claim returned.
   */
  function Recorded(d: Delivery, attempts: nat, sent: bool): Delivery {
    d.(status := if sent then Sent else if attempts >= MAX_ATTEMPTS then Failed else Pending)
  }

  type WorkerId = nat

  /** Whether the provider was called since the claim, and if so whether it took the message. */
  datatype Phase = Waiting | Answered(accepted: bool)

  datatype Claimed = Claimed(attempts: nat, phase: Phase)

  /** A worker is one drain: the rows it claimed and has not finished yet. */
  datatype State = State(table: Table, held: map<WorkerId, map<DeliveryId, Claimed>>)

  /**
   Calling the provider and recording its answer are separate steps, and a worker may stop between them. The update to
   FAILED or PENDING follows a refusal, and also an accepted message whose update to SENT failed.
   */
  datatype Step =
    | EnqueueStep(notificationId: string, recipient: Recipient, now: int)
    | ClaimStep(worker: WorkerId, limit: nat, locked: set<DeliveryId>, batch: set<DeliveryId>)
    | SkipStep(worker: WorkerId, id: DeliveryId)
    | CallStep(worker: WorkerId, id: DeliveryId, accepted: bool)
    | RecordSentStep(worker: WorkerId, id: DeliveryId)
    | RecordFailureStep(worker: WorkerId, id: DeliveryId)
    /** The worker stops, finished or not, and whichever update failed; its rows stay as they are. */
    | StopStep(worker: WorkerId)

  predicate Holds(s: State, worker: WorkerId, id: DeliveryId) {
    worker in s.held && id in s.held[worker] && id in s.table
  }

  predicate Enabled(s: State, step: Step) {
    match step
    case ClaimStep(worker, limit, locked, batch) => worker !in s.held && IsBatch(s.table, locked, limit, batch)
    case SkipStep(worker, id) => Holds(s, worker, id) && s.held[worker][id].phase.Waiting?
    case CallStep(worker, id, _) => Holds(s, worker, id) && s.held[worker][id].phase.Waiting?
    case RecordSentStep(worker, id) => Holds(s, worker, id) && s.held[worker][id].phase == Answered(true)
    case RecordFailureStep(worker, id) => Holds(s, worker, id) && s.held[worker][id].phase.Answered?
    case _ => true
  }

  /** What RETURNING gives for each claimed row: its attempts, this one included. */
  function Attempts(t: Table, batch: set<DeliveryId>): map<DeliveryId, Claimed> {
    map id | id in batch && id in t :: Claimed(t[id].attempts + 1, Waiting)
  }

  /** The row is finished for this worker. */
  function Finish(s: State, worker: WorkerId, id: DeliveryId, d: Delivery): State
    requires worker in s.held
  {
    State(s.table[id := d], s.held[worker := s.held[worker] - {id}])
  }

  /** A step that is not possible in a state leaves it as it is. */
  function Do(s: State, step: Step): State {
    if !Enabled(s, step) then s
    else
      match step
      case EnqueueStep(notificationId, recipient, now) =>
        s.(table := Enqueue(s.table, notificationId, recipient, now))
      case ClaimStep(worker, _, _, batch) =>
        s.(table := ClaimAll(s.table, batch),
           held := s.held[worker := Attempts(s.table, batch)])
      case SkipStep(worker, id) => Finish(s, worker, id, s.table[id].(status := Skipped))
      case CallStep(worker, id, accepted) =>
        State(s.table[id := Called(s.table[id])],
              s.held[worker := s.held[worker][id := s.held[worker][id].(phase := Answered(accepted))]])
      case RecordSentStep(worker, id) =>
        Finish(s, worker, id, Recorded(s.table[id], s.held[worker][id].attempts, true))
      case RecordFailureStep(worker, id) =>
        Finish(s, worker, id, Recorded(s.table[id], s.held[worker][id].attempts, false))
      case StopStep(worker) => s.(held := s.held - {worker})
  }

  function Run(s: State, steps: seq<Step>): State
    decreases |steps|
  {
    if steps == [] then s else Run(Do(s, steps[0]), steps[1..])
  }

  lemma {:induction false} RunConcat(s: State, a: seq<Step>, b: seq<Step>)
    ensures Run(s, a + b) == Run(Run(s, a), b)
    decreases |a|
  {
    hide Do;
    if a == [] {
      assert a + b == b;
    } else {
      assert (a + b)[1..] == a[1..] + b;
      RunConcat(Do(s, a[0]), a[1..], b);
    }
  }

  lemma OneStep(s: State, a: Step)
    ensures Run(s, [a]) == Do(s, a)
  {
    hide Do;
    assert [a][1..] == [];
  }

  lemma TwoSteps(s: State, a: Step, b: Step)
    ensures Run(s, [a, b]) == Do(Do(s, a), b)
  {
    hide Do;
    assert [a, b][1..] == [b];
    OneStep(Do(s, a), b);
  }

  /* ---------------------------------------------------------------------- */
  /* Safety                                                                 */
  /* ---------------------------------------------------------------------- */

  predicate RowOk(d: Delivery) {
    && d.calls <= d.attempts <= MAX_ATTEMPTS
    && (d.status.Pending? ==> d.attempts < MAX_ATTEMPTS)
    && (d.status.Failed? ==> d.attempts == MAX_ATTEMPTS)
    && (d.status.Sent? ==> d.calls >= 1)
  }

  predicate TableOk(t: Table) {
    forall id :: id in t ==> RowOk(t[id])
  }

  /** A worker that has not called yet has a call left, and one that has called was counted. */
  predicate ClaimOk(d: Delivery, c: Claimed) {
    && d.status.Processing? && c.attempts == d.attempts
    && (if c.phase.Waiting? then d.calls < d.attempts else d.calls >= 1)
  }

  /** A held row is being processed, and the worker knows its attempts. */
  predicate HeldOk(s: State) {
    forall w, id | w in s.held && id in s.held[w] :: id in s.table && ClaimOk(s.table[id], s.held[w][id])
  }

  /** No row is held by two workers. */
  predicate HeldOnce(s: State) {
    forall w, v, id | w in s.held && v in s.held && id in s.held[w] && id in s.held[v] :: w == v
  }

  predicate Inv(s: State) {
    TableOk(s.table) && HeldOk(s) && HeldOnce(s)
  }

  const START: State := State(map[], map[])

  lemma EnqueueKeepsInv(s: State, notificationId: string, r: Recipient, now: int)
    requires Inv(s)
    ensures Inv(s.(table := Enqueue(s.table, notificationId, r, now)))
  {
    hide ClaimOk;
    if r.phone.Some? {
      InsertKeepsRows(s.table, notificationId, SelectChannels(r), r.phone.value, now);
    }
  }

  lemma ClaimKeepsInv(s: State, worker: WorkerId, limit: nat, locked: set<DeliveryId>, batch: set<DeliveryId>)
    requires Inv(s) && worker !in s.held && IsBatch(s.table, locked, limit, batch)
    ensures Inv(State(ClaimAll(s.table, batch), s.held[worker := Attempts(s.table, batch)]))
  {
    forall id | id in batch
      ensures id in s.table && s.table[id].status.Pending?
    {
      assert id in Claimable(s.table, locked);
    }
    hide IsBatch;
  }

  /** Writing the row of a claim, and finishing it, keeps the invariant if the row is as it should be. */
  lemma FinishKeepsInv(s: State, worker: WorkerId, id: DeliveryId, d: Delivery)
    requires Inv(s) && Holds(s, worker, id) && RowOk(d)
    ensures Inv(Finish(s, worker, id, d))
  {
    hide RowOk, ClaimOk;
  }

  lemma CallKeepsInv(s: State, worker: WorkerId, id: DeliveryId, accepted: bool)
    requires Inv(s) && Enabled(s, CallStep(worker, id, accepted))
    ensures Inv(Do(s, CallStep(worker, id, accepted)))
  {
    var t := Do(s, CallStep(worker, id, accepted));
    assert ClaimOk(s.table[id], s.held[worker][id]);
    assert RowOk(t.table[id]) && ClaimOk(t.table[id], t.held[worker][id]);
    hide RowOk, ClaimOk;
  }

  lemma DoKeepsInv(s: State, step: Step)
    requires Inv(s)
    ensures Inv(Do(s, step))
  {
    if Enabled(s, step) {
      match step
      case EnqueueStep(notificationId, recipient, now) => EnqueueKeepsInv(s, notificationId, recipient, now);
      case ClaimStep(worker, limit, locked, batch) => ClaimKeepsInv(s, worker, limit, locked, batch);
      case CallStep(worker, id, accepted) => CallKeepsInv(s, worker, id, accepted);
      case StopStep(_) =>
      case _ =>
        assert ClaimOk(s.table[step.id], s.held[step.worker][step.id]);
        FinishKeepsInv(s, step.worker, step.id, Do(s, step).table[step.id]);
    }
  }

  /**
   Under any interleaving: attempts and calls are bounded, a row has one holder, and PENDING rows have attempts left.
   */
  lemma {:induction false} RunKeepsInv(s: State, steps: seq<Step>)
    requires Inv(s)
    ensures Inv(Run(s, steps))
    decreases |steps|
  {
    hide Inv, Do;
    if steps == [] {
    } else {
      DoKeepsInv(s, steps[0]);
      RunKeepsInv(Do(s, steps[0]), steps[1..]);
    }
  }

  /** Nobody will write the row again: it is finished, or it was abandoned while being processed. */
  predicate OutOfReach(s: State, id: DeliveryId) {
    && id in s.table && !s.table[id].status.Pending?
    && forall w :: w in s.held ==> id !in s.held[w]
  }

  lemma OutOfReachStep(s: State, step: Step, id: DeliveryId)
    requires Inv(s) && OutOfReach(s, id)
    ensures OutOfReach(Do(s, step), id) && Do(s, step).table[id] == s.table[id]
  {
    hide Inv;
    if step.EnqueueStep? && step.recipient.phone.Some? {
      InsertKeepsRows(s.table, step.notificationId, SelectChannels(step.recipient), step.recipient.phone.value,
                      step.now);
    } else if step.ClaimStep? && Enabled(s, step) {
      assert id !in Claimable(s.table, step.locked);
    }
  }

  /**
   A row that is sent, skipped or failed never changes again. Neither does one whose worker stopped before recording:
   no later step writes it or calls the provider for it.
   */
  lemma {:induction false} OutOfReachFrozen(s: State, steps: seq<Step>, id: DeliveryId)
    requires Inv(s) && OutOfReach(s, id)
    ensures id in Run(s, steps).table && Run(s, steps).table[id] == s.table[id]
    decreases |steps|
  {
    hide Inv, Do, OutOfReach;
    if steps == [] {
      assert id in s.table by { TableHas(s, id); }
    } else {
      DoKeepsInv(s, steps[0]);
      OutOfReachStep(s, steps[0], id);
      OutOfReachFrozen(Do(s, steps[0]), steps[1..], id);
    }
  }

  lemma TableHas(s: State, id: DeliveryId)
    requires OutOfReach(s, id)
    ensures id in s.table
  {
  }

  lemma TerminalRowsFrozen(s: State, steps: seq<Step>, id: DeliveryId)
    requires Inv(s) && id in s.table && s.table[id].status.Terminal()
    ensures id in Run(s, steps).table && Run(s, steps).table[id] == s.table[id]
  {
    hide Run;
    assert OutOfReach(s, id) by {
      forall w | w in s.held
        ensures id !in s.held[w]
      {
        assert id in s.held[w] ==> ClaimOk(s.table[id], s.held[w][id]);
      }
    }
    OutOfReachFrozen(s, steps, id);
  }

  /**
   In every reachable state the provider was called at most three times for any row, never more often than it was
   claimed.
   */
  lemma CallsBounded(steps: seq<Step>, id: DeliveryId)
    ensures var t := Run(START, steps).table;
            id in t ==> t[id].calls <= t[id].attempts <= 3
                        && (t[id].status.Pending? ==> t[id].attempts <= 2) && (t[id].status.Failed?
                          ==> t[id].attempts == 3)
  {
    hide Run;
    RunKeepsInv(START, steps);
  }

  /** A worker claims the only row, calls the provider for it and stops. */
  function AbandoningSteps(id: DeliveryId, phone: string, now: int, accepted: bool): seq<Step> {
    [EnqueueStep(id.notificationId, Recipient(Some(phone), id.channel.Sms?, id.channel.WhatsApp?), now),
     ClaimStep(0, 1, {}, {id})]
    + [CallStep(0, id, accepted), StopStep(0)]
  }

  lemma EnqueuedOne(id: DeliveryId, phone: string, now: int)
    ensures Enqueue(map[], id.notificationId, Recipient(Some(phone), id.channel.Sms?, id.channel.WhatsApp?), now)
            == map[id := Delivery(phone, Pending, 0, now, 0)]
  {
    var r := Recipient(Some(phone), id.channel.Sms?, id.channel.WhatsApp?);
    forall other: DeliveryId
      ensures other in Enqueue(map[], id.notificationId, r, now) <==> other == id
      ensures other == id ==> Enqueue(map[], id.notificationId, r, now)[id] == Delivery(phone, Pending, 0, now, 0)
    {
      EnqueueRespectsConsent(map[], id.notificationId, r, now, other);
    }
  }

  lemma AbandonedRun(id: DeliveryId, phone: string, now: int, accepted: bool)
    ensures Run(START, AbandoningSteps(id, phone, now, accepted))
            == State(map[id := Delivery(phone, Processing, 1, now, 1)], map[])
  {
    var steps := AbandoningSteps(id, phone, now, accepted);
    EnqueuedOne(id, phone, now);
    hide Enqueue;
    var s1 := Do(START, steps[0]);
    assert Claimable(s1.table, {}) == {id};
    assert Attempts(s1.table, {id}) == map[id := Claimed(1, Waiting)];
    var s2 := Do(s1, steps[1]);
    assert s2.table == map[id := Delivery(phone, Processing, 1, now, 0)];
    assert s2.held == map[0 := map[id := Claimed(1, Waiting)]];
    var s4 := Do(Do(s2, steps[2]), steps[3]);
    assert s4.table == map[id := Delivery(phone, Processing, 1, now, 1)] && s4.held == map[];
    hide Do;
    RunConcat(START, steps[..2], steps[2..]);
    TwoSteps(START, steps[0], steps[1]);
    TwoSteps(s2, steps[2], steps[3]);
  }

  /** A worker that stops between call and update leaves a row that was called for, is held by nobody, and stays so. */
  lemma AbandonedRow(id: DeliveryId, phone: string, now: int, accepted: bool, later: seq<Step>)
    ensures var final := Run(START, AbandoningSteps(id, phone, now, accepted) + later).table;
            id in final && final[id] == Delivery(phone, Processing, 1, now, 1)
  {
    hide Run, Do, AbandoningSteps;
    var steps := AbandoningSteps(id, phone, now, accepted);
    AbandonedRun(id, phone, now, accepted);
    RunKeepsInv(START, steps);
    RunConcat(START, steps, later);
    OutOfReachFrozen(Run(START, steps), later, id);
  }

  /* ---------------------------------------------------------------------- */
  /* One undisturbed delivery                                               */
  /* ---------------------------------------------------------------------- */

  /** How a delivery ends: the last case is a message that the provider took but that could not be recorded as sent. */
  datatype Outcome = NotConfigured | Accepted | Refused | AcceptedUnrecorded

  function Settle(d: Delivery, attempts: nat, outcome: Outcome): Delivery {
    match outcome
    case NotConfigured => d.(status := Skipped)
    case Accepted => Recorded(Called(d), attempts, true)
    case _ => Recorded(Called(d), attempts, false)
  }

  function DeliverySteps(worker: WorkerId, id: DeliveryId, outcome: Outcome): seq<Step> {
    match outcome
    case NotConfigured => [SkipStep(worker, id)]
    case Accepted => [CallStep(worker, id, true), RecordSentStep(worker, id)]
    case Refused => [CallStep(worker, id, false), RecordFailureStep(worker, id)]
    case AcceptedUnrecorded => [CallStep(worker, id, true), RecordFailureStep(worker, id)]
  }

  lemma CallThenRecord(s: State, worker: WorkerId, id: DeliveryId, accepted: bool, sent: bool)
    requires Holds(s, worker, id) && s.held[worker][id].phase.Waiting? && (sent ==> accepted)
    ensures Run(s, [CallStep(worker, id, accepted),
                    if sent then RecordSentStep(worker, id) else RecordFailureStep(worker, id)])
            == Finish(s, worker, id, Recorded(Called(s.table[id]), s.held[worker][id].attempts, sent))
  {
    var call, record := CallStep(worker, id, accepted),
                        if sent then RecordSentStep(worker, id) else RecordFailureStep(worker, id);
    TwoSteps(s, call, record);
    hide Run, Recorded, Called;
    var s1 := Do(s, call);
    var s2 := Do(s1, record);
    var target := Finish(s, worker, id, Recorded(Called(s.table[id]), s.held[worker][id].attempts, sent));
    assert s2.table == target.table;
    assert s2.held[worker] == target.held[worker];
    assert s2.held == target.held;
  }

  /** A delivery that is not cut short is these steps of the transition system. */
  lemma DeliveryIsRun(s: State, worker: WorkerId, id: DeliveryId, outcome: Outcome)
    requires Holds(s, worker, id) && s.held[worker][id].phase.Waiting?
    ensures Run(s, DeliverySteps(worker, id, outcome))
            == Finish(s, worker, id, Settle(s.table[id], s.held[worker][id].attempts, outcome))
  {
    hide Run, Recorded, Called;
    match outcome
    case NotConfigured => OneStep(s, SkipStep(worker, id));
    case Accepted => CallThenRecord(s, worker, id, true, true);
    case Refused => CallThenRecord(s, worker, id, false, false);
    case AcceptedUnrecorded => CallThenRecord(s, worker, id, true, false);
  }

  /* ---------------------------------------------------------------------- */
  /* Which rows can still be settled                                        */
  /* ---------------------------------------------------------------------- */

  /** Some continuation settles the row. */
  ghost predicate CanSettle(s: State, id: DeliveryId) {
    exists steps :: SettledBy(s, steps, id)
  }

  predicate SettledBy(s: State, steps: seq<Step>, id: DeliveryId) {
    id in Run(s, steps).table && Run(s, steps).table[id].status.Terminal()
  }

  lemma {:induction false} WorkerAbove(workers: set<WorkerId>) returns (w: WorkerId)
    ensures forall v :: v in workers ==> v < w
    decreases |workers|
  {
    if workers == {} {
      w := 0;
    } else {
      var v :| v in workers;
      var rest := WorkerAbove(workers - {v});
      assert forall u :: u in workers ==> u == v || u in workers - {v};
      w := if v < rest then rest else v + 1;
    }
  }

  /** A held row that was not called for is sent if the provider takes the message. */
  lemma WaitingSettles(s: State, worker: WorkerId, id: DeliveryId) returns (steps: seq<Step>)
    requires Holds(s, worker, id) && s.held[worker][id].phase.Waiting?
    ensures SettledBy(s, steps, id)
  {
    hide Run, DeliverySteps;
    steps := DeliverySteps(worker, id, Accepted);
    DeliveryIsRun(s, worker, id, Accepted);
  }

  /** A worker that starts while the rows before it are locked claims exactly this pending row. */
  lemma PendingSettles(s: State, id: DeliveryId) returns (steps: seq<Step>)
    requires id in s.table && s.table[id].status.Pending?
    ensures SettledBy(s, steps, id)
  {
    var w := WorkerAbove(s.held.Keys);
    var claim := ClaimStep(w, 1, s.table.Keys - {id}, {id});
    assert Claimable(s.table, s.table.Keys - {id}) == {id};
    assert Enabled(s, claim);
    var t := Do(s, claim);
    assert Holds(t, w, id) && t.held[w][id].phase.Waiting?;
    hide Run, Do;
    var rest := WaitingSettles(t, w, id);
    OneStep(s, claim);
    RunConcat(s, [claim], rest);
    steps := [claim] + rest;
  }

  /** A held row that was called for is recorded, and taken up again if that leaves it pending. */
  lemma AnsweredSettles(s: State, worker: WorkerId, id: DeliveryId) returns (steps: seq<Step>)
    requires Holds(s, worker, id) && s.held[worker][id].phase.Answered?
    ensures SettledBy(s, steps, id)
  {
    var record := RecordFailureStep(worker, id);
    var t := Do(s, record);
    assert id in t.table && (t.table[id].status.Failed? || t.table[id].status.Pending?);
    OneStep(s, record);
    hide Run, Do;
    if t.table[id].status.Failed? {
      steps := [record];
    } else {
      var rest := PendingSettles(t, id);
      RunConcat(s, [record], rest);
      steps := [record] + rest;
    }
  }

  lemma WithinReachSettles(s: State, id: DeliveryId) returns (steps: seq<Step>)
    requires id in s.table && !OutOfReach(s, id)
    ensures SettledBy(s, steps, id)
  {
    hide Run;
    if s.table[id].status.Pending? {
      steps := PendingSettles(s, id);
    } else {
      var w :| w in s.held && id in s.held[w];
      if s.held[w][id].phase.Waiting? {
        steps := WaitingSettles(s, w, id);
      } else {
        steps := AnsweredSettles(s, w, id);
      }
    }
  }

  /**
   Which rows can still be settled, exactly: those that are settled, and those that are pending or that a worker holds.
   A row in processing that nobody holds never is.
   */
  lemma CanSettleIff(s: State, id: DeliveryId)
    requires Inv(s) && id in s.table
    ensures CanSettle(s, id) <==> s.table[id].status.Terminal() || !OutOfReach(s, id)
  {
    hide Run, Inv, OutOfReach;
    if s.table[id].status.Terminal() {
      assert SettledBy(s, [], id) by { NoSteps(s); }
    } else if OutOfReach(s, id) {
      forall steps: seq<Step>
        ensures !SettledBy(s, steps, id)
      {
        OutOfReachFrozen(s, steps, id);
      }
    } else {
      var steps := WithinReachSettles(s, id);
    }
  }

  lemma NoSteps(s: State)
    ensures Run(s, []) == s
  {
  }

  /** In every reachable state: a row is lost to the outbox exactly when it is in processing and no worker holds it. */
  lemma LostIff(steps: seq<Step>, id: DeliveryId)
    requires id in Run(START, steps).table
    ensures var s := Run(START, steps);
            !CanSettle(s, id) <==> s.table[id].status.Processing? && forall w :: w in s.held ==> id !in s.held[w]
  {
    var s := Run(START, steps);
    RunKeepsInv(START, steps);
    hide Run, CanSettle;
    CanSettleIff(s, id);
    var status := s.table[id].status;
    assert status.Terminal() || status.Pending? || status.Processing?;
  }
}
