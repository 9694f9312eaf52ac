// Whole runs of the outbox protocol: any interleaving of statements from any number of
// workers, each stamped by its own clock.
module OutboxRuns {
  import opened Base
  import opened Window
  import opened Outbox

  // The table after the first i statements of a run that starts from the empty table.
  ghost function StateAt(steps: seq<Step>, i: nat): Table
    requires i <= |steps|
  {
    ApplyAll(map[], steps[..i])
  }

  lemma StateStep(steps: seq<Step>, i: nat)
    requires i < |steps|
    ensures StateAt(steps, i + 1) == Apply(StateAt(steps, i), steps[i])
  {
    assert steps[..i + 1] == steps[..i] + [steps[i]];
    ApplyAllSplit(map[], steps[..i], [steps[i]]);
  }

  lemma StateSplit(steps: seq<Step>, i: nat, k: nat)
    requires i <= k <= |steps|
    ensures StateAt(steps, k) == ApplyAll(StateAt(steps, i), steps[i..k])
  {
    assert steps[..k] == steps[..i] + steps[i..k];
    ApplyAllSplit(map[], steps[..i], steps[i..k]);
  }

  // Uuid::now_v7 never repeats: neither a lease token nor an outbox id is drawn twice.
  ghost predicate FreshTokens(steps: seq<Step>) {
    forall i, j :: 0 <= i < j < |steps| && steps[i].Lease? && steps[j].Lease? ==> steps[i].token != steps[j].token
  }

  ghost predicate FreshInserts(steps: seq<Step>) {
    forall i, j :: 0 <= i < j < |steps| && steps[i].Insert? && steps[j].Insert? ==> steps[i].id != steps[j].id
  }

  predicate Completes(step: Step) { step.MarkDelivered? || step.MarkFailed? }

  function CompletedId(step: Step): Uuid
    requires Completes(step)
  {
    step.id
  }

  function PresentedToken(step: Step): Uuid
    requires Completes(step)
  {
    if step.MarkDelivered? then step.token else step.failure.leaseToken
  }

  // The i-th statement is a completion call for the row under the token, and it succeeds.
  ghost predicate CompletesAt(steps: seq<Step>, i: nat, id: Uuid, token: Uuid) {
    && i < |steps|
    && Completes(steps[i]) && CompletedId(steps[i]) == id && PresentedToken(steps[i]) == token
    && Succeeds(StateAt(steps, i), steps[i])
  }

  // The i-th statement is a lease that hands out the row under the token.
  ghost predicate GrantsAt(steps: seq<Step>, i: nat, id: Uuid, token: Uuid) {
    && i < |steps|
    && steps[i].Lease? && steps[i].token == token
    && id in Candidates(StateAt(steps, i), steps[i])
  }

  // ----- a lease in force freezes its row

  ghost predicate HeldUnder(rows: Table, id: Uuid, token: Uuid) {
    id in rows && rows[id].leaseToken == Some(token)
  }

  ghost predicate NoLeaseUnder(steps: seq<Step>, token: Uuid) {
    forall i :: 0 <= i < |steps| && steps[i].Lease? ==> steps[i].token != token
  }

  lemma StepKeepsLease(rows: Table, step: Step, id: Uuid, token: Uuid)
    requires HeldUnder(Apply(rows, step), id, token)
    requires !(step.Lease? && step.token == token && id in Candidates(rows, step))
    ensures HeldUnder(rows, id, token) && Apply(rows, step)[id] == rows[id]
  {
  }

  lemma {:induction false} RunKeepsLease(rows: Table, steps: seq<Step>, id: Uuid, token: Uuid)
    requires NoLeaseUnder(steps, token)
    requires HeldUnder(ApplyAll(rows, steps), id, token)
    ensures HeldUnder(rows, id, token) && ApplyAll(rows, steps)[id] == rows[id]
    decreases |steps|
  {
    if |steps| > 0 {
      RunKeepsLease(Apply(rows, steps[0]), steps[1..], id, token);
      StepKeepsLease(rows, steps[0], id, token);
    }
  }

  lemma SuccessNeedsLease(rows: Table, step: Step)
    requires Completes(step) && Succeeds(rows, step)
    ensures HeldUnder(rows, CompletedId(step), PresentedToken(step))
    ensures !HeldUnder(Apply(rows, step), CompletedId(step), PresentedToken(step))
  {
  }

  lemma TokenStaysGone(steps: seq<Step>, i: nat, k: nat, id: Uuid, token: Uuid)
    requires i <= k <= |steps|
    requires !HeldUnder(StateAt(steps, i), id, token)
    requires NoLeaseUnder(steps[i..k], token)
    ensures !HeldUnder(StateAt(steps, k), id, token)
  {
    StateSplit(steps, i, k);
    if HeldUnder(StateAt(steps, k), id, token) {
      RunKeepsLease(StateAt(steps, i), steps[i..k], id, token);
    }
  }

  // ----- fencing

  lemma {:induction false} HeldSinceGrant(steps: seq<Step>, k: nat, id: Uuid, token: Uuid) returns (i: nat)
    requires k <= |steps|
    requires HeldUnder(StateAt(steps, k), id, token)
    ensures i < k && GrantsAt(steps, i, id, token)
    ensures id in StateAt(steps, i + 1) && StateAt(steps, k)[id] == StateAt(steps, i + 1)[id]
    decreases k
  {
    if k == 0 {
      assert false;
    } else {
      StateStep(steps, k - 1);
      if GrantsAt(steps, k - 1, id, token) {
        i := k - 1;
      } else {
        StepKeepsLease(StateAt(steps, k - 1), steps[k - 1], id, token);
        i := HeldSinceGrant(steps, k - 1, id, token);
      }
    }
  }

  // Every successful completion goes back to a lease that handed out the row under that
  // token, and the row has not changed in any column since.
  lemma CompletionHasGrant(steps: seq<Step>, k: nat, id: Uuid, token: Uuid)
    requires CompletesAt(steps, k, id, token)
    ensures exists i :: (
      && 0 <= i < k && GrantsAt(steps, i, id, token)
      && id in StateAt(steps, i + 1) && StateAt(steps, k)[id] == StateAt(steps, i + 1)[id])
  {
    SuccessNeedsLease(StateAt(steps, k), steps[k]);
    var i := HeldSinceGrant(steps, k, id, token);
  }

  // A completion call that comes after the grant was used up fails, whatever its clock reads.
  lemma OneCompletionPerGrant(steps: seq<Step>, i: nat, j: nat, id: Uuid, token: Uuid)
    requires FreshTokens(steps)
    requires i < j < |steps|
    requires CompletesAt(steps, i, id, token)
    ensures !CompletesAt(steps, j, id, token)
  {
    SuccessNeedsLease(StateAt(steps, i), steps[i]);
    StateStep(steps, i);
    var g := HeldSinceGrant(steps, i, id, token);
    TokenStaysGone(steps, i + 1, j, id, token);
    if CompletesAt(steps, j, id, token) {
      SuccessNeedsLease(StateAt(steps, j), steps[j]);
    }
  }

  lemma GrantSetsToken(rows: Table, step: Step, id: Uuid)
    requires step.Lease? && id in Candidates(rows, step)
    ensures HeldUnder(Apply(rows, step), id, step.token)
  {
  }

  // Once the row is handed out again, no completion under the earlier token succeeds.
  lemma StaleHolderIsFenced(steps: seq<Step>, i: nat, j: nat, k: nat, id: Uuid, earlier: Uuid, later: Uuid)
    requires FreshTokens(steps)
    requires i < j < k < |steps|
    requires GrantsAt(steps, i, id, earlier) && GrantsAt(steps, j, id, later)
    ensures !CompletesAt(steps, k, id, earlier)
  {
    GrantSetsToken(StateAt(steps, j), steps[j], id);
    StateStep(steps, j);
    TokenStaysGone(steps, j + 1, k, id, earlier);
    if CompletesAt(steps, k, id, earlier) {
      SuccessNeedsLease(StateAt(steps, k), steps[k]);
    }
  }

  lemma {:induction false} PresentWasInserted(steps: seq<Step>, k: nat, id: Uuid) returns (i: nat)
    requires k <= |steps|
    requires id in StateAt(steps, k)
    ensures i < k && steps[i].Insert? && steps[i].id == id
    decreases k
  {
    if k == 0 {
      assert false;
    } else {
      StateStep(steps, k - 1);
      if id in StateAt(steps, k - 1) {
        i := PresentWasInserted(steps, k - 1, id);
      } else {
        i := k - 1;
      }
    }
  }

  lemma {:induction false} FinishedStays(steps: seq<Step>, i: nat, k: nat, id: Uuid)
    requires FreshInserts(steps)
    requires i <= k <= |steps|
    requires id in StateAt(steps, i) && StateAt(steps, i)[id].Terminal()
    ensures id in StateAt(steps, k) ==> StateAt(steps, k)[id] == StateAt(steps, i)[id]
    decreases k
  {
    if i < k {
      FinishedStays(steps, i, k - 1, id);
      StateStep(steps, k - 1);
      var p := PresentWasInserted(steps, i, id);
    }
  }

  // A row is marked delivered at most once ever, and keeps that mark until it is purged.
  lemma DeliveredAtMostOnce(steps: seq<Step>, i: nat, j: nat, id: Uuid)
    requires FreshInserts(steps)
    requires i < j < |steps|
    requires steps[i].MarkDelivered? && steps[j].MarkDelivered? && steps[i].id == steps[j].id == id
    requires Succeeds(StateAt(steps, i), steps[i])
    ensures !Succeeds(StateAt(steps, j), steps[j])
  {
    StateStep(steps, i);
    FinishedStays(steps, i + 1, j, id);
  }

  // A finished row was finished by a mark that held it, and is as that mark left it.
  lemma {:induction false} FinishedByMark(steps: seq<Step>, k: nat, id: Uuid) returns (i: nat)
    requires k <= |steps| && id in StateAt(steps, k) && StateAt(steps, k)[id].Terminal()
    ensures i < k && Completes(steps[i]) && steps[i].id == id && Succeeds(StateAt(steps, i), steps[i])
    ensures id in StateAt(steps, i + 1) && StateAt(steps, i + 1)[id] == StateAt(steps, k)[id]
    decreases k
  {
    var p := PresentWasInserted(steps, k, id);
    i := k - 1;
    StateStep(steps, i);
    if id in StateAt(steps, i) && StateAt(steps, i)[id].Terminal() {
      i := FinishedByMark(steps, i, id);
    }
  }

  // A row disappears only by a purge, and only after a mark finished it whose clock reading is
  // before the purge's cutoff for rows finished so.
  lemma {:induction false} PurgedAfterItsCutoff(steps: seq<Step>, k: nat, id: Uuid) returns (i: nat)
    requires k < |steps| && id in StateAt(steps, k) && id !in StateAt(steps, k + 1)
    ensures i < k && Completes(steps[i]) && steps[i].id == id && Succeeds(StateAt(steps, i), steps[i])
    ensures steps[k].Cleanup?
    ensures steps[i].MarkDelivered? ==> steps[i].now < steps[k].deliveredBefore
    ensures steps[i].MarkFailed? ==> steps[i].failure.now < steps[k].deadLetterBefore
  {
    StateStep(steps, k);
    i := FinishedByMark(steps, k, id);
    StateStep(steps, i);
  }

  // The attempts count a lease returned is still the stored one when a failure is recorded
  // under it, so the worker and the store decide the dead letter alike.
  lemma SnapshotAgrees(steps: seq<Step>, i: nat, k: nat, id: Uuid, token: Uuid)
    requires FreshTokens(steps)
    requires i < k < |steps|
    requires GrantsAt(steps, i, id, token)
    requires CompletesAt(steps, k, id, token)
    ensures StateAt(steps, k)[id].attempts == StateAt(steps, i)[id].attempts
  {
    SuccessNeedsLease(StateAt(steps, k), steps[k]);
    var g := HeldSinceGrant(steps, k, id, token);
    StateStep(steps, g);
    assert g == i;
  }

  // ----- the columns of every reachable row

  ghost predicate RowOk(r: Row, budget: int) {
    && (r.status.Leased? <==> r.leaseToken.Some?)
    && (r.status.Leased? <==> r.leaseOwner.Some?)
    && (r.status.Leased? <==> r.leasedAt.Some?)
    && (r.status.Leased? <==> r.leasedUntil.Some?)
    && (r.status.Delivered? <==> r.publishedAt.Some?)
    && 0 <= r.attempts <= budget
    && (r.status.Pending? ==> r.attempts == 0)
    && (!r.Terminal() ==> r.attempts < budget)
  }

  ghost predicate TableOk(rows: Table, budget: int) {
    forall id :: id in rows ==> RowOk(rows[id], budget)
  }

  ghost predicate BudgetAtMost(steps: seq<Step>, budget: int) {
    && 1 <= budget <= I32_MAX
    && forall i :: 0 <= i < |steps| && steps[i].MarkFailed? ==> steps[i].failure.maxAttempts <= budget
  }

  lemma RowStaysOk(r: Row, step: Step, budget: int)
    requires RowOk(r, budget) && 1 <= budget <= I32_MAX
    ensures step.Lease? && !r.Terminal() ==> RowOk(LeasedRow(r, step), budget)
    ensures step.MarkDelivered? && r.status.Leased? ==> RowOk(DeliveredRow(r, step.now), budget)
    ensures step.MarkFailed? && r.status.Leased? && step.failure.maxAttempts <= budget ==>
      RowOk(FailedRow(r, step.failure), budget) && NextAttempts(r.attempts) == r.attempts + 1
  {
  }

  lemma TableStaysOk(rows: Table, step: Step, budget: int)
    requires TableOk(rows, budget) && 1 <= budget <= I32_MAX
    requires step.MarkFailed? ==> step.failure.maxAttempts <= budget
    ensures TableOk(Apply(rows, step), budget)
  {
    forall id | id in Apply(rows, step) ensures RowOk(Apply(rows, step)[id], budget) {
      if id in rows {
        RowStaysOk(rows[id], step, budget);
        assert step.Lease? && id in Candidates(rows, step) ==> !rows[id].Terminal();
      }
    }
  }

  // In every reachable table the lease columns are set exactly on leased rows, the
  // publication time exactly on delivered rows, and the attempts stay within the largest
  // budget in use: strictly below it on a row that can still fail, so the i32 increment
  // never overflows.
  lemma {:induction false} ReachableTableOk(steps: seq<Step>, budget: int)
    requires BudgetAtMost(steps, budget)
    ensures TableOk(ApplyAll(map[], steps), budget)
    decreases |steps|
  {
    if |steps| > 0 {
      var n := |steps| - 1;
      assert steps[..n] + [steps[n]] == steps;
      ApplyAllSplit(map[], steps[..n], [steps[n]]);
      ReachableTableOk(steps[..n], budget);
      TableStaysOk(ApplyAll(map[], steps[..n]), steps[n], budget);
    }
  }

  // When the tenant may take an unfinished row: at the end of its lease, or once available.
  function DueAt(r: Row): Time {
    if r.status.Leased? && r.leasedUntil.Some? then r.leasedUntil.value else r.availableAt
  }

  // No reachable row is stuck: an unfinished one is eligible from its due time on, and a
  // finished one never.
  lemma {:induction false} UnfinishedRowsComeDue(steps: seq<Step>, budget: int, id: Uuid, now: Time)
    requires BudgetAtMost(steps, budget) && id in ApplyAll(map[], steps)
    ensures var r := ApplyAll(map[], steps)[id];
      Eligible(r, r.workspace, now) <==> !r.Terminal() && DueAt(r) <= now
  {
    ReachableTableOk(steps, budget);
  }

  // ----- attempts count the failures

  ghost function FailureMarks(steps: seq<Step>, n: nat, id: Uuid): nat
    requires n <= |steps|
  {
    if n == 0 then 0 else
      FailureMarks(steps, n - 1, id)
      + (if steps[n - 1].MarkFailed? && steps[n - 1].id == id && Succeeds(StateAt(steps, n - 1), steps[n - 1])
         then 1 else 0)
  }

  lemma {:induction false} AbsentUntilInserted(steps: seq<Step>, n: nat, id: Uuid)
    requires n <= |steps|
    requires forall i :: 0 <= i < n && steps[i].Insert? ==> steps[i].id != id
    ensures id !in StateAt(steps, n) && FailureMarks(steps, n, id) == 0
    decreases n
  {
    if n > 0 {
      AbsentUntilInserted(steps, n - 1, id);
      StateStep(steps, n - 1);
    }
  }

  lemma {:induction false} AttemptsCountFailures(steps: seq<Step>, n: nat, id: Uuid, budget: int)
    requires n <= |steps| && FreshInserts(steps) && BudgetAtMost(steps, budget)
    requires id in StateAt(steps, n)
    ensures StateAt(steps, n)[id].attempts == FailureMarks(steps, n, id)
    decreases n
  {
    if n == 0 {
      assert false;
    } else {
      StateStep(steps, n - 1);
      ReachableTableOk(steps[..n - 1], budget);
      if id in StateAt(steps, n - 1) {
        AttemptsCountFailures(steps, n - 1, id, budget);
        RowStaysOk(StateAt(steps, n - 1)[id], steps[n - 1], budget);
      } else {
        AbsentUntilInserted(steps, n - 1, id);
      }
    }
  }

  // A failure whose text its column does not take, for its length or for a NUL in it, is never
  // recorded: a row that only meets such failures spends no attempt and is never dead-lettered.
  lemma {:induction false} UnstorableErrorsNeverCount(steps: seq<Step>, n: nat, id: Uuid)
    requires n <= |steps|
    requires forall i :: 0 <= i < n && steps[i].MarkFailed? && steps[i].id == id ==>
      !StorableError(steps[i].failure.errorMessage)
    requires id in StateAt(steps, n)
    ensures FailureMarks(steps, n, id) == 0
    ensures StateAt(steps, n)[id].attempts == 0 && !StateAt(steps, n)[id].status.DeadLetter?
    decreases n
  {
    if n == 0 {
      assert false;
    } else {
      StateStep(steps, n - 1);
      NoMarkNoCount(steps, n, id);
      if id in StateAt(steps, n - 1) {
        UnstorableErrorsNeverCount(steps, n - 1, id);
      }
    }
  }

  lemma {:induction false} NoMarkNoCount(steps: seq<Step>, n: nat, id: Uuid)
    requires n <= |steps|
    requires forall i :: 0 <= i < n && steps[i].MarkFailed? && steps[i].id == id ==>
      !StorableError(steps[i].failure.errorMessage)
    ensures FailureMarks(steps, n, id) == 0
    decreases n
  {
    if n > 0 {
      NoMarkNoCount(steps, n - 1, id);
    }
  }

  // ----- retry spacing

  predicate Clocked(step: Step) { step.Lease? || step.MarkDelivered? || step.MarkFailed? }

  function Clock(step: Step): Time
    requires Clocked(step)
  {
    if step.MarkFailed? then step.failure.now else step.now
  }

  ghost predicate MonotoneClock(steps: seq<Step>) {
    forall i, j :: 0 <= i < j < |steps| && Clocked(steps[i]) && Clocked(steps[j]) ==> Clock(steps[i]) <= Clock(steps[j])
  }

  ghost predicate BackoffAtLeast(steps: seq<Step>, base: Time) {
    && 0 <= base
    && forall i :: 0 <= i < |steps| && steps[i].MarkFailed? ==> base <= steps[i].failure.retryBackoff
  }

  // Since a failure recorded at time t when the row had made a attempts, the row could not
  // have been leased before t plus one base backoff per attempt made since.
  ghost predicate Spaced(rows: Table, id: Uuid, t: Time, a: int, base: Time, clock: Time) {
    id in rows ==>
      && !rows[id].status.Pending?
      && (rows[id].status.Failed? ==> rows[id].availableAt >= t + (rows[id].attempts - a) * base)
      && (rows[id].status.Leased? ==> clock >= t + (rows[id].attempts - a) * base)
  }

  lemma SpacedStep(rows: Table, step: Step, id: Uuid, t: Time, a: int, base: Time, clock: Time, clock': Time)
    requires Spaced(rows, id, t, a, base, clock)
    requires id in rows && rows[id].status.Leased? ==> 0 <= rows[id].attempts < I32_MAX
    requires !(step.Insert? && step.id == id)
    requires clock <= clock' && (Clocked(step) ==> clock' == Clock(step))
    requires step.MarkFailed? ==> base <= step.failure.retryBackoff
    ensures Spaced(Apply(rows, step), id, t, a, base, clock')
  {
    if id in rows && step.MarkFailed? && step.id == id && Succeeds(rows, step) {
      var n := rows[id].attempts;
      assert (n + 1 - a) * base == (n - a) * base + base;
    }
  }

  // The latest clock reading up to step n, or t when there is none after step i.
  ghost function ClockUpTo(steps: seq<Step>, i: nat, n: nat, t: Time): Time
    requires i <= n <= |steps|
    decreases n
  {
    if n == i then t
    else if Clocked(steps[n - 1]) then Clock(steps[n - 1])
    else ClockUpTo(steps, i, n - 1, t)
  }

  lemma {:induction false} ClockUpToBound(steps: seq<Step>, i: nat, n: nat, k: nat, t: Time)
    requires MonotoneClock(steps) && i <= n <= k < |steps| && Clocked(steps[k])
    requires i > 0 && Clocked(steps[i - 1]) && t == Clock(steps[i - 1])
    ensures ClockUpTo(steps, i, n, t) <= Clock(steps[k])
    decreases n
  {
    if n > i && !Clocked(steps[n - 1]) {
      ClockUpToBound(steps, i, n - 1, k, t);
    }
  }

  lemma {:induction false} SpacedRun(steps: seq<Step>, i: nat, k: nat, id: Uuid, base: Time, budget: int)
    requires FreshInserts(steps) && MonotoneClock(steps) && BackoffAtLeast(steps, base) && BudgetAtMost(steps, budget)
    requires i < k <= |steps|
    requires steps[i].MarkFailed? && steps[i].id == id && Succeeds(StateAt(steps, i), steps[i])
    ensures Spaced(StateAt(steps, k), id, Clock(steps[i]), StateAt(steps, i)[id].attempts, base,
                   ClockUpTo(steps, i + 1, k, Clock(steps[i])))
    decreases k
  {
    var t, a := Clock(steps[i]), StateAt(steps, i)[id].attempts;
    StateStep(steps, k - 1);
    ReachableTableOk(steps[..k - 1], budget);
    if k == i + 1 {
      assert (a + 1 - a) * base == base;
    } else {
      SpacedRun(steps, i, k - 1, id, base, budget);
      var p := PresentWasInserted(steps, i, id);
      var clock := ClockUpTo(steps, i + 1, k - 1, t);
      if Clocked(steps[k - 1]) {
        ClockUpToBound(steps, i + 1, k - 1, k - 1, t);
      }
      SpacedStep(StateAt(steps, k - 1), steps[k - 1], id, t, a, base, clock, ClockUpTo(steps, i + 1, k, t));
    }
  }

  // Two recorded failures of a row are at least one base backoff apart for each attempt
  // between them.
  lemma FailuresAreSpaced(steps: seq<Step>, i: nat, k: nat, id: Uuid, base: Time, budget: int)
    requires FreshInserts(steps) && MonotoneClock(steps) && BackoffAtLeast(steps, base) && BudgetAtMost(steps, budget)
    requires i < k < |steps|
    requires steps[i].MarkFailed? && steps[i].id == id && Succeeds(StateAt(steps, i), steps[i])
    requires steps[k].MarkFailed? && steps[k].id == id && Succeeds(StateAt(steps, k), steps[k])
    ensures Clock(steps[k]) - Clock(steps[i])
         >= (StateAt(steps, k)[id].attempts - StateAt(steps, i)[id].attempts) * base
  {
    SpacedRun(steps, i, k, id, base, budget);
    ClockUpToBound(steps, i + 1, k, k, Clock(steps[i]));
  }

  // With one budget in use, a row dead-lettered by a transient failure has spent all of it,
  // and no less than budget - 1 base backoffs after its first failure.
  lemma ExhaustingTheBudgetTakesTime(steps: seq<Step>, i: nat, k: nat, id: Uuid, base: Time, budget: int)
    requires FreshInserts(steps) && MonotoneClock(steps) && BackoffAtLeast(steps, base) && 1 <= budget <= I32_MAX
    requires forall j :: 0 <= j < |steps| && steps[j].MarkFailed? ==> steps[j].failure.maxAttempts == budget
    requires i < k < |steps|
    requires steps[i].MarkFailed? && steps[i].id == id && Succeeds(StateAt(steps, i), steps[i])
    requires FailureMarks(steps, i, id) == 0
    requires steps[k].MarkFailed? && steps[k].id == id && Succeeds(StateAt(steps, k), steps[k])
    requires steps[k].failure.classification.Transient?
    requires id in StateAt(steps, k + 1) && StateAt(steps, k + 1)[id].status.DeadLetter?
    ensures FailureMarks(steps, k + 1, id) == budget
    ensures Clock(steps[k]) - Clock(steps[i]) >= (budget - 1) * base
  {
    AttemptsCountFailures(steps, i, id, budget);
    AttemptsCountFailures(steps, k, id, budget);
    StateStep(steps, k);
    ReachableTableOk(steps[..k], budget);
    FailuresAreSpaced(steps, i, k, id, base, budget);
  }
}
