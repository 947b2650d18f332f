/** What status, attempts and calls of a row say about the steps that came before, over every run. */
module OutboxHistory {
  import opened Wrappers
  import opened Outbox

  predicate Claims(s: State, step: Step, id: DeliveryId) {
    step.ClaimStep? && Enabled(s, step) && id in step.batch
  }

  predicate Calls(s: State, step: Step, id: DeliveryId) {
    step.CallStep? && step.id == id && Enabled(s, step)
  }

  /** The update to FAILED or PENDING. */
  predicate Fails(s: State, step: Step, id: DeliveryId) {
    step.RecordFailureStep? && step.id == id && Enabled(s, step)
  }

  predicate Skips(s: State, step: Step, id: DeliveryId) {
    step.SkipStep? && step.id == id && Enabled(s, step)
  }

  /** The update to SENT, which only a worker whose message was accepted makes. */
  predicate Sends(s: State, step: Step, id: DeliveryId) {
    && step.RecordSentStep? && step.id == id
    && step.worker in s.held && id in s.held[step.worker] && s.held[step.worker][id].phase == Answered(true)
  }

  /** The life of a row: every change of its status, and what is counted with it. */
  lemma RowStep(s: State, step: Step, id: DeliveryId)
    requires Inv(s) && id in s.table
    ensures id in Do(s, step).table
    ensures var d, e := s.table[id], Do(s, step).table[id];
            && e.recipient == d.recipient && e.createdAt == d.createdAt
            && e.attempts == d.attempts + (if Claims(s, step, id) then 1 else 0)
            && e.calls == d.calls + (if Calls(s, step, id) then 1 else 0)
            && e.status == (if Claims(s, step, id) then Processing
                            else if Skips(s, step, id) then Skipped
                            else if Sends(s, step, id) then Sent
                            else if Fails(s, step, id) then (if d.attempts == 3 then Failed else Pending)
                            else d.status)
            && (Claims(s, step, id) ==> d.status.Pending?)
            && (Skips(s, step, id) || Sends(s, step, id) || Fails(s, step, id) ==> d.status.Processing?)
  {
    if step.EnqueueStep? {
      hide Inv;
      if step.recipient.phone.Some? {
        InsertKeepsRows(s.table, step.notificationId, SelectChannels(step.recipient), step.recipient.phone.value,
                        step.now);
      }
    } else if step.ClaimStep? {
      hide Inv;
      assert id in Claimable(s.table, step.locked) ==> s.table[id].status.Pending?;
    } else {
      assert RowOk(s.table[id]);
      HolderFacts(s, step, id);
      hide Inv, RowOk, IsBatch, Enqueue;
    }
  }

  lemma HolderFacts(s: State, step: Step, id: DeliveryId)
    requires Inv(s) && id in s.table
    ensures !step.EnqueueStep? && !step.ClaimStep? && step.worker in s.held && id in s.held[step.worker] ==>
              s.table[id].status.Processing? && s.held[step.worker][id].attempts == s.table[id].attempts <= 3
  {
    assert RowOk(s.table[id]);
    if !step.EnqueueStep? && !step.ClaimStep? && step.worker in s.held && id in s.held[step.worker] {
      assert ClaimOk(s.table[id], s.held[step.worker][id]);
    }
  }

  /** A row that a step adds is pending, without attempts, and the step does nothing else to it. */
  lemma NewRow(s: State, step: Step, id: DeliveryId)
    requires Inv(s) && id !in s.table
    ensures !Claims(s, step, id) && !Calls(s, step, id) && !Fails(s, step, id) && !Sends(s, step, id)
    ensures id in Do(s, step).table ==>
              var e := Do(s, step).table[id]; step.EnqueueStep? && e.status.Pending? && e.attempts == 0 && e.calls == 0
  {
    if step.EnqueueStep? && step.recipient.phone.Some? {
      hide Inv;
      InsertKeepsRows(s.table, step.notificationId, SelectChannels(step.recipient), step.recipient.phone.value,
                      step.now);
    } else if step.ClaimStep? {
      assert id !in Claimable(s.table, step.locked);
    } else {
      assert forall w :: w in s.held ==> id !in s.held[w];
    }
  }

  /* ---------------------------------------------------------------------- */
  /* Counting                                                               */
  /* ---------------------------------------------------------------------- */

  /** How many steps of a run satisfy a predicate of the state they are taken in. */
  function CountSteps(s: State, steps: seq<Step>, p: (State, Step) -> bool): nat
    decreases |steps|
  {
    if steps == [] then 0 else (if p(s, steps[0]) then 1 else 0) + CountSteps(Do(s, steps[0]), steps[1..], p)
  }

  function ClaimCount(s: State, steps: seq<Step>, id: DeliveryId): nat {
    CountSteps(s, steps, (x, step) => Claims(x, step, id))
  }

  function CallCount(s: State, steps: seq<Step>, id: DeliveryId): nat {
    CountSteps(s, steps, (x, step) => Calls(x, step, id))
  }

  function FailureCount(s: State, steps: seq<Step>, id: DeliveryId): nat {
    CountSteps(s, steps, (x, step) => Fails(x, step, id))
  }

  /** The attempts that ended in a recorded failure: all but the one under way, sent or skipped. */
  function FailedAttempts(d: Delivery): int {
    if d.status.Pending? || d.status.Failed? then d.attempts else d.attempts - 1
  }

  datatype Tally = Tally(attempts: int, calls: int, failures: int)

  function TallyOf(t: Table, id: DeliveryId): Tally {
    if id in t then Tally(t[id].attempts, t[id].calls, FailedAttempts(t[id])) else Tally(0, 0, 0)
  }

  lemma TallyStep(s: State, step: Step, id: DeliveryId)
    requires Inv(s)
    ensures var x, y := TallyOf(s.table, id), TallyOf(Do(s, step).table, id);
            && y.attempts == x.attempts + (if Claims(s, step, id) then 1 else 0)
            && y.calls == x.calls + (if Calls(s, step, id) then 1 else 0)
            && y.failures == x.failures + (if Fails(s, step, id) then 1 else 0)
  {
    hide Inv, Do, Claims, Calls, Fails, Skips, Sends;
    if id in s.table {
      RowStep(s, step, id);
      OneAtATime(s, step, id);
    } else {
      NewRow(s, step, id);
    }
  }

  lemma OneAtATime(s: State, step: Step, id: DeliveryId)
    ensures Fails(s, step, id) ==> !Claims(s, step, id) && !Skips(s, step, id) && !Sends(s, step, id)
  {
  }

  lemma {:induction false} RunTallies(s: State, steps: seq<Step>, id: DeliveryId)
    requires Inv(s)
    ensures var x, y := TallyOf(s.table, id), TallyOf(Run(s, steps).table, id);
            && y.attempts == x.attempts + ClaimCount(s, steps, id)
            && y.calls == x.calls + CallCount(s, steps, id)
            && y.failures == x.failures + FailureCount(s, steps, id)
    decreases |steps|
  {
    hide Inv, Do, TallyOf, Claims, Calls, Fails;
    if steps == [] {
    } else {
      TallyStep(s, steps[0], id);
      DoKeepsInv(s, steps[0]);
      RunTallies(Do(s, steps[0]), steps[1..], id);
    }
  }

  /** In every reachable state the columns are the counts of the run, and FAILED means exactly three failures. */
  lemma FailedIff(steps: seq<Step>, id: DeliveryId)
    requires id in Run(START, steps).table
    ensures var d := Run(START, steps).table[id];
            && d.attempts == ClaimCount(START, steps, id)
            && d.calls == CallCount(START, steps, id)
            && (d.status.Failed? <==> FailureCount(START, steps, id) == 3)
            && (d.status.Pending? ==> d.attempts == FailureCount(START, steps, id) < 3)
  {
    hide Run, ClaimCount, CallCount, FailureCount;
    RunKeepsInv(START, steps);
    RunTallies(START, steps, id);
    assert RowOk(Run(START, steps).table[id]);
  }

  /* ---------------------------------------------------------------------- */
  /* Sent rows                                                              */
  /* ---------------------------------------------------------------------- */

  /** The provider accepted a message for the row in some step of the run. */
  predicate AcceptedIn(s: State, steps: seq<Step>, id: DeliveryId) {
    exists k :: 0 <= k < |steps| && AcceptedAt(s, steps, id, k)
  }

  predicate AcceptedAt(s: State, steps: seq<Step>, id: DeliveryId, k: nat)
    requires k < |steps|
  {
    Calls(Run(s, steps[..k]), steps[k], id) && steps[k].accepted
  }

  /** The row is sent, or a worker is about to record it as sent. */
  predicate Credited(s: State, id: DeliveryId) {
    && id in s.table
    && (s.table[id].status.Sent? || exists w :: w in s.held && id in s.held[w] && s.held[w][id].phase == Answered(true))
  }

  lemma CreditStep(s: State, step: Step, id: DeliveryId)
    requires Inv(s) && Credited(Do(s, step), id)
    ensures Credited(s, id) || (Calls(s, step, id) && step.accepted)
  {
    if id in s.table {
      RowStep(s, step, id);
      hide Inv;
    } else {
      NewRow(s, step, id);
    }
  }

  lemma {:induction false} SentWasAcceptedFrom(s: State, steps: seq<Step>, id: DeliveryId)
    requires Inv(s) && Credited(Run(s, steps), id)
    ensures Credited(s, id) || AcceptedIn(s, steps, id)
    decreases |steps|
  {
    hide Inv, Do, Credited, Calls;
    if steps == [] {
    } else {
      var next := Do(s, steps[0]);
      DoKeepsInv(s, steps[0]);
      SentWasAcceptedFrom(next, steps[1..], id);
      if Credited(next, id) {
        CreditStep(s, steps[0], id);
        assert Credited(s, id) || AcceptedAt(s, steps, id, 0);
      } else {
        var k :| 0 <= k < |steps| - 1 && AcceptedAt(next, steps[1..], id, k);
        assert steps[..k + 1][0] == steps[0] && steps[..k + 1][1..] == steps[1..][..k];
        assert AcceptedAt(s, steps, id, k + 1);
      }
    }
  }

  /** A row is SENT only if the provider accepted a message for it. */
  lemma SentWasAccepted(steps: seq<Step>, id: DeliveryId)
    requires id in Run(START, steps).table && Run(START, steps).table[id].status.Sent?
    ensures AcceptedIn(START, steps, id)
  {
    hide Run;
    SentWasAcceptedFrom(START, steps, id);
  }
}
