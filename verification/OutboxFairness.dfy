// How long an eligible row can wait for a lease.
module OutboxFairness {
  import opened Base
  import opened Window
  import opened Outbox

  // The statements of a stretch of time [from, to) shorter than every lease the tenant grants
  // in it. Clocks need not agree: the tenant's lease calls read them inside the stretch.
  ghost predicate InStretch(step: Step, workspace: Uuid, from: Time, to: Time) {
    step.Lease? && step.auth.workspace == workspace ==> from <= step.now < to && to <= step.now + step.leaseFor
  }

  ghost predicate AllInStretch(steps: seq<Step>, workspace: Uuid, from: Time, to: Time) {
    forall i :: 0 <= i < |steps| ==> InStretch(steps[i], workspace, from, to)
  }

  // The row is waiting: a lease call at any clock reading in the stretch may take it.
  ghost predicate Waiting(rows: Table, target: Uuid, workspace: Uuid, from: Time) {
    target in rows && Eligible(rows[target], workspace, from)
  }

  predicate Before(availableAt: Time, id: Uuid, availableAt': Time, id': Uuid) {
    availableAt < availableAt' || (availableAt == availableAt' && id < id')
  }

  // The unfinished rows of the tenant that the lease scan reaches first.
  ghost function QueueAhead(rows: Table, target: Uuid): set<Uuid>
    requires target in rows
  {
    set id | id in rows && rows[id].workspace == rows[target].workspace && !rows[id].Terminal()
      && Before(rows[id].availableAt, id, rows[target].availableAt, target)
  }

  // Those of them that are not under a lease lasting beyond the stretch.
  ghost function Blocking(rows: Table, target: Uuid, to: Time): set<Uuid>
    requires target in rows
  {
    set id | id in QueueAhead(rows, target)
      && !(rows[id].status.Leased? && rows[id].leasedUntil.Some? && to <= rows[id].leasedUntil.value)
  }

  // The statement puts a row ahead of the target: an event enqueued with an earlier time, or
  // a failure whose retry falls due earlier.
  ghost predicate Overtakes(rows: Table, step: Step, due: Time, target: Uuid, workspace: Uuid) {
    match step
    case Insert(id, w, event) =>
      w == workspace && !InsertConflicts(rows, id, event) && Before(event.occurredAt, id, due, target)
    case MarkFailed(auth, id, f) =>
      auth.workspace == workspace && Succeeds(rows, step) && Before(f.now + f.retryBackoff, id, due, target)
    case _ => false
  }

  ghost function Overtaking(rows: Table, steps: seq<Step>, due: Time, target: Uuid, workspace: Uuid): nat
    decreases |steps|
  {
    if |steps| == 0 then 0
    else (if Overtakes(rows, steps[0], due, target, workspace) then 1 else 0)
         + Overtaking(Apply(rows, steps[0]), steps[1..], due, target, workspace)
  }

  // A lease call that asks for a batch and does not find the target locked.
  ghost predicate Calls(step: Step, target: Uuid, workspace: Uuid, batch: nat) {
    step.Lease? && step.auth.workspace == workspace && batch <= step.maxItems && target !in step.locked
  }

  ghost function LeaseCalls(steps: seq<Step>, target: Uuid, workspace: Uuid, batch: nat): nat
    decreases |steps|
  {
    if |steps| == 0 then 0
    else (if Calls(steps[0], target, workspace, batch) then 1 else 0) + LeaseCalls(steps[1..], target, workspace, batch)
  }

  // The row is leased, or its former holder, whose clock is behind, still completes it.
  ghost predicate EndsWait(rows: Table, step: Step, target: Uuid) {
    || (step.Lease? && target in Candidates(rows, step))
    || ((step.MarkDelivered? || step.MarkFailed?) && step.id == target && Succeeds(rows, step))
  }

  ghost predicate WaitEndsAt(rows: Table, steps: seq<Step>, i: nat, target: Uuid) {
    i < |steps| && EndsWait(ApplyAll(rows, steps[..i]), steps[i], target)
  }

  lemma TargetStays(rows: Table, step: Step, target: Uuid, workspace: Uuid, from: Time, to: Time)
    requires Waiting(rows, target, workspace, from) && InStretch(step, workspace, from, to)
    requires !EndsWait(rows, step, target)
    ensures target in Apply(rows, step) && Apply(rows, step)[target] == rows[target]
  {
  }

  // A statement adds no row ahead of the target but the one it lets overtake.
  lemma WaitingStep(rows: Table, step: Step, target: Uuid, workspace: Uuid, from: Time, to: Time)
    requires Waiting(rows, target, workspace, from) && InStretch(step, workspace, from, to)
    requires target in Apply(rows, step) && Apply(rows, step)[target] == rows[target]
    ensures var added := if Overtakes(rows, step, rows[target].availableAt, target, workspace) then {step.id} else {};
      Blocking(Apply(rows, step), target, to) <= Blocking(rows, target, to) + added
  {
    var after := Apply(rows, step);
    forall id | id in Blocking(after, target, to) && id !in Blocking(rows, target, to)
      ensures Overtakes(rows, step, rows[target].availableAt, target, workspace) && id == step.id
    {
      assert id in rows ==> after[id] != rows[id];
    }
  }

  // A lease call that leaves the row waiting clears a whole batch of the rows ahead of it.
  lemma LeaseClearsBatch(rows: Table, step: Step, target: Uuid, workspace: Uuid, from: Time, to: Time, batch: nat)
    requires Waiting(rows, target, workspace, from) && InStretch(step, workspace, from, to)
    requires Calls(step, target, workspace, batch) && !EndsWait(rows, step, target)
    ensures |Blocking(Apply(rows, step), target, to)| + batch <= |Blocking(rows, target, to)|
  {
    TargetStays(rows, step, target, workspace, from, to);
    WaitingStep(rows, step, target, workspace, from, to);
    var keys := EligibleKeys(rows, workspace, step.now, step.locked);
    var taken := Candidates(rows, step);
    LeftOut(keys, step.maxItems, target);
    var before, after := Blocking(rows, target, to), Blocking(Apply(rows, step), target, to);
    forall id | id in taken ensures id in before && id !in after {
      assert Ahead(keys, id, target);
      assert Apply(rows, step)[id] == LeasedRow(rows[id], step);
    }
    DisjointParts(before, after, taken);
  }

  lemma DisjointParts(whole: set<Uuid>, a: set<Uuid>, b: set<Uuid>)
    requires a <= whole && forall id :: id in b ==> id in whole && id !in a
    ensures |a| + |b| <= |whole|
  {
    assert a !! b;
    SubsetSize(a + b, whole);
  }

  lemma OneAdded(before: set<Uuid>, after: set<Uuid>, added: set<Uuid>, n: nat)
    requires after <= before + added && |added| == n
    ensures |after| <= |before| + n
  {
    SubsetSize(after, before + added);
    assert |before + added| == |before| + |added| - |before * added|;
  }

  lemma WaitEndsShift(rows: Table, steps: seq<Step>, i: nat, target: Uuid)
    requires |steps| > 0
    ensures WaitEndsAt(Apply(rows, steps[0]), steps[1..], i, target) <==> WaitEndsAt(rows, steps, i + 1, target)
  {
    if i < |steps[1..]| {
      assert steps[..i + 1][0] == steps[0] && steps[..i + 1][1..] == steps[1..][..i];
    }
  }

  lemma OneMore(n: nat, batch: nat)
    ensures (1 + n) * batch == batch + n * batch
  {
  }

  // One statement that leaves the target waiting.
  lemma StretchStep(rows: Table, step: Step, target: Uuid, workspace: Uuid, from: Time, to: Time, batch: nat)
    requires Waiting(rows, target, workspace, from) && InStretch(step, workspace, from, to)
    requires !EndsWait(rows, step, target)
    ensures Waiting(Apply(rows, step), target, workspace, from)
    ensures Apply(rows, step)[target] == rows[target]
    ensures |Blocking(Apply(rows, step), target, to)| + (if Calls(step, target, workspace, batch) then batch else 0)
         <= |Blocking(rows, target, to)|
            + (if Overtakes(rows, step, rows[target].availableAt, target, workspace) then 1 else 0)
  {
    TargetStays(rows, step, target, workspace, from, to);
    WaitingStep(rows, step, target, workspace, from, to);
    var before, after := Blocking(rows, target, to), Blocking(Apply(rows, step), target, to);
    if Calls(step, target, workspace, batch) {
      LeaseClearsBatch(rows, step, target, workspace, from, to, batch);
    } else if Overtakes(rows, step, rows[target].availableAt, target, workspace) {
      OneAdded(before, after, {step.id}, 1);
    } else {
      OneAdded(before, after, {}, 0);
    }
  }

  lemma {:induction false} WaitingRun(
    rows: Table, steps: seq<Step>, target: Uuid, workspace: Uuid, from: Time, to: Time, batch: nat)
    requires Waiting(rows, target, workspace, from) && AllInStretch(steps, workspace, from, to)
    requires forall i: nat :: !WaitEndsAt(rows, steps, i, target)
    ensures LeaseCalls(steps, target, workspace, batch) * batch
         <= |Blocking(rows, target, to)| + Overtaking(rows, steps, rows[target].availableAt, target, workspace)
    decreases |steps|
  {
    if |steps| > 0 {
      var step, rest := steps[0], steps[1..];
      assert ApplyAll(rows, steps[..0]) == rows;
      assert !WaitEndsAt(rows, steps, 0, target);
      StretchStep(rows, step, target, workspace, from, to, batch);
      forall i: nat ensures !WaitEndsAt(Apply(rows, step), rest, i, target) {
        WaitEndsShift(rows, steps, i, target);
        assert !WaitEndsAt(rows, steps, i + 1, target);
      }
      WaitingRun(Apply(rows, step), rest, target, workspace, from, to, batch);
      OneMore(LeaseCalls(rest, target, workspace, batch), batch);
    }
  }

  lemma MoreThanDivided(k: nat, batch: nat, calls: nat)
    requires batch >= 1 && calls >= k / batch + 1
    ensures calls * batch > k
  {
    var q := k / batch;
    assert k < q * batch + batch;
    assert (q + 1) * batch == q * batch + batch;
    assert (calls - (q + 1)) * batch >= 0;
  }

  // A waiting row with k unfinished rows ahead of it, which j statements let another row
  // overtake, is leased or completed within (k + j) / batch + 1 lease calls of its tenant,
  // whatever inserts, completions and purges come between.
  lemma {:induction false} BoundedWaiting(
    rows: Table, steps: seq<Step>, target: Uuid, workspace: Uuid, from: Time, to: Time, batch: nat)
    requires Waiting(rows, target, workspace, from) && AllInStretch(steps, workspace, from, to)
    requires batch >= 1
    requires var overtaking := Overtaking(rows, steps, rows[target].availableAt, target, workspace);
      LeaseCalls(steps, target, workspace, batch) >= (|QueueAhead(rows, target)| + overtaking) / batch + 1
    ensures exists i: nat :: WaitEndsAt(rows, steps, i, target)
  {
    var k := |QueueAhead(rows, target)| + Overtaking(rows, steps, rows[target].availableAt, target, workspace);
    var calls := LeaseCalls(steps, target, workspace, batch);
    if forall i: nat :: !WaitEndsAt(rows, steps, i, target) {
      WaitingRun(rows, steps, target, workspace, from, to, batch);
      SubsetSize(Blocking(rows, target, to), QueueAhead(rows, target));
      MoreThanDivided(k, batch, calls);
      assert false;
    }
  }

  // Only a caller whose clock is behind the stretch completes a waiting row: otherwise its
  // wait ends with a lease.
  lemma OnlyABehindClockCompletes(rows: Table, step: Step, target: Uuid, workspace: Uuid, from: Time)
    requires Waiting(rows, target, workspace, from) && EndsWait(rows, step, target)
    ensures step.Lease? || (step.MarkDelivered? && step.now < from) || (step.MarkFailed? && step.failure.now < from)
  {
  }

  // Nothing overtakes a row that was available before the stretch when every event of the
  // stretch occurred in it and no retry is due before its failure: the bound is then k / batch + 1.
  lemma {:induction false} NothingOvertakes(
    rows: Table, steps: seq<Step>, due: Time, target: Uuid, workspace: Uuid, from: Time)
    requires due < from
    requires forall i :: 0 <= i < |steps| && steps[i].Insert? ==> from <= steps[i].event.occurredAt
    requires forall i :: 0 <= i < |steps| && steps[i].MarkFailed? ==>
      from <= steps[i].failure.now && 0 <= steps[i].failure.retryBackoff
    ensures Overtaking(rows, steps, due, target, workspace) == 0
    decreases |steps|
  {
    if |steps| > 0 {
      NothingOvertakes(Apply(rows, steps[0]), steps[1..], due, target, workspace, from);
    }
  }
}
