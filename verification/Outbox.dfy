// crates/dandori-store/src/repositories/outbox.rs: the outbox table and its lease protocol.
module Outbox {
  import opened Base
  import opened Window

  datatype Status = Pending | Leased | Delivered | Failed | DeadLetter

  datatype Event = Event(eventId: Uuid, eventType: string, aggregateId: Uuid, correlationId: Uuid, occurredAt: Time)

  datatype Row = Row(
    workspace: Uuid,
    event: Event,
    attempts: int,
    availableAt: Time,
    status: Status,
    leasedAt: Option<Time>,
    leasedUntil: Option<Time>,
    leaseToken: Option<Uuid>,
    leaseOwner: Option<Uuid>,
    publishedAt: Option<Time>,
    lastError: Option<string>,
    updatedAt: Time)
  {
    predicate Terminal() { status.Delivered? || status.DeadLetter? }
  }

  type Table = map<Uuid, Row>

  datatype Message = Message(
    id: Uuid,
    workspace: Uuid,
    event: Event,
    attempts: int,
    leaseToken: Uuid,
    leaseOwner: Uuid,
    leasedUntil: Time)

  datatype Classification = Transient | Terminal

  datatype FailureContext = FailureContext(
    classification: Classification,
    leaseToken: Uuid,
    leaseOwner: Uuid,
    now: Time,
    errorMessage: string,
    maxAttempts: int,
    retryBackoff: Time)

  // CHECK (char_length(last_error) <= 4000) on the outbox table.
  const MAX_LAST_ERROR: nat := 4000

  // What the error column takes: a text within the length check, and no NUL, which the text
  // type of PostgreSQL cannot hold.
  predicate StorableError(text: string) { |text| <= MAX_LAST_ERROR && TextColumn(text) }

  // One committed statement against the table, by whichever process issues it.
  datatype Step =
    | Insert(id: Uuid, workspace: Uuid, event: Event)
    | Lease(auth: Auth, now: Time, leaseFor: Time, maxItems: int, locked: set<Uuid>, token: Uuid)
    | MarkDelivered(auth: Auth, id: Uuid, token: Uuid, owner: Uuid, now: Time)
    | MarkFailed(auth: Auth, id: Uuid, failure: FailureContext)
    | Cleanup(auth: Auth, deliveredBefore: Time, deadLetterBefore: Time)

  // ----- leasing

  predicate Eligible(r: Row, workspace: Uuid, now: Time) {
    && r.workspace == workspace
    && (|| ((r.status.Pending? || r.status.Failed?) && r.availableAt <= now)
        || (r.status.Leased? && r.leasedUntil.Some? && r.leasedUntil.value <= now))
  }

  // Rows locked by another transaction are skipped before the limit counts them.
  function EligibleKeys(rows: Table, workspace: Uuid, now: Time, locked: set<Uuid>): Keys {
    map id | id in rows && id !in locked && Eligible(rows[id], workspace, now) :: rows[id].availableAt
  }

  function Candidates(rows: Table, step: Step): set<Uuid>
    requires step.Lease?
  {
    if step.maxItems < 0 then {}
    else FirstN(EligibleKeys(rows, step.auth.workspace, step.now, step.locked), step.maxItems)
  }

  function LeasedRow(r: Row, step: Step): Row
    requires step.Lease?
  {
    r.(status := Leased,
       leasedAt := Some(step.now),
       leasedUntil := Some(step.now + step.leaseFor),
       leaseToken := Some(step.token),
       leaseOwner := Some(step.auth.actor),
       updatedAt := step.now)
  }

  function LeaseRows(rows: Table, candidates: set<Uuid>, step: Step): Table
    requires step.Lease?
  {
    map id | id in rows :: if id in candidates then LeasedRow(rows[id], step) else rows[id]
  }

  // A row handed out: its message carries what is stored, the caller holds it until the lease
  // runs out, and it keeps its attempts and its place in the queue.
  ghost predicate RowTaken(before: Row, after: Row, m: Message, id: Uuid, step: Step)
    requires step.Lease?
  {
    var until := step.now + step.leaseFor;
    && m == Message(id, step.auth.workspace, before.event, before.attempts, step.token, step.auth.actor, until)
    && after.status.Leased?
    && after.workspace == step.auth.workspace
    && after.leaseToken == Some(step.token)
    && after.leaseOwner == Some(step.auth.actor)
    && after.leasedUntil == Some(until)
    && after.leasedAt == Some(step.now)
    && after.updatedAt == step.now
    && after.event == before.event
    && after.attempts == before.attempts
    && after.availableAt == before.availableAt
    && after.publishedAt == before.publishedAt
    && after.lastError == before.lastError
  }

  // The row waits for a lease: new or failed and come due, or leased and run out.
  ghost predicate Due(r: Row, now: Time) {
    match r.status
    case Pending => r.availableAt <= now
    case Failed => r.availableAt <= now
    case Leased => r.leasedUntil.Some? && r.leasedUntil.value <= now
    case Delivered => false
    case DeadLetter => false
  }

  // The rows handed out are due rows of the tenant that nobody has locked; one left out proves
  // the batch full, and full of rows that became available before it, by id where at once.
  ghost predicate FirstDue(rows: Table, taken: set<Uuid>, step: Step)
    requires step.Lease?
  {
    && |taken| <= step.maxItems
    && (forall id :: id in taken ==> id in rows && Free(rows, id, step))
    && (forall id :: id in rows && Free(rows, id, step) && id !in taken ==> |taken| == step.maxItems)
    && (forall id, first :: id in rows && Free(rows, id, step) && id !in taken && first in taken ==>
          || rows[first].availableAt < rows[id].availableAt
          || (rows[first].availableAt == rows[id].availableAt && first < id))
  }

  ghost predicate Free(rows: Table, id: Uuid, step: Step)
    requires step.Lease? && id in rows
  {
    rows[id].workspace == step.auth.workspace && id !in step.locked && Due(rows[id], step.now)
  }

  // The rows handed out are the first due ones, and no other row changes.
  ghost predicate LeaseTaken(before: Table, after: Table, messages: map<Uuid, Message>, step: Step)
    requires step.Lease? && step.maxItems >= 0
  {
    && FirstDue(before, messages.Keys, step)
    && after.Keys == before.Keys
    && messages.Keys <= before.Keys
    && (forall id :: id in before && id !in messages ==> after[id] == before[id])
    && (forall id :: id in messages ==> RowTaken(before[id], after[id], messages[id], id, step))
  }

  // The RETURNING clause of the lease statement.
  function Messages(rows: Table, candidates: set<Uuid>, step: Step): (m: map<Uuid, Message>)
    requires step.Lease? && candidates <= rows.Keys
    ensures m.Keys == candidates
  {
    map id | id in candidates ::
      var r := LeasedRow(rows[id], step);
      Message(id, r.workspace, r.event, r.attempts, step.token, step.auth.actor, step.now + step.leaseFor)
  }

  lemma LeaseTakes(rows: Table, step: Step)
    requires step.Lease? && step.maxItems >= 0
    ensures Candidates(rows, step) <= rows.Keys
    ensures Apply(rows, step) == LeaseRows(rows, Candidates(rows, step), step)
    ensures LeaseTaken(rows, Apply(rows, step), Messages(rows, Candidates(rows, step), step), step)
  {
    CandidatesAreFirstDue(rows, step);
    RowsTaken(rows, Candidates(rows, step), step);
  }

  lemma CandidatesAreFirstDue(rows: Table, step: Step)
    requires step.Lease? && step.maxItems >= 0
    ensures FirstDue(rows, Candidates(rows, step), step)
  {
    var keys := EligibleKeys(rows, step.auth.workspace, step.now, step.locked);
    FirstNIsLimitedScan(keys, step.maxItems);
    forall id | id in keys && id !in Candidates(rows, step)
      ensures |Candidates(rows, step)| == step.maxItems
      ensures forall first :: first in Candidates(rows, step) ==> first in keys && Ahead(keys, first, id)
    {
      LeftOut(keys, step.maxItems, id);
    }
  }

  lemma RowsTaken(rows: Table, candidates: set<Uuid>, step: Step)
    requires step.Lease? && candidates <= rows.Keys
    requires forall id :: id in candidates ==> rows[id].workspace == step.auth.workspace
    ensures forall id :: id in candidates ==>
      RowTaken(rows[id], LeaseRows(rows, candidates, step)[id], Messages(rows, candidates, step)[id], id, step)
  {
  }

  // ----- completion

  // The caller holds the row: it is visible to its tenant, leased to it under this token,
  // and the lease has not run out by the caller's own clock.
  predicate Holds(rows: Table, workspace: Uuid, id: Uuid, token: Uuid, owner: Uuid, now: Time) {
    && id in rows
    && rows[id].workspace == workspace
    && rows[id].status.Leased?
    && rows[id].leaseToken == Some(token)
    && rows[id].leaseOwner == Some(owner)
    && rows[id].leasedUntil.Some?
    && now < rows[id].leasedUntil.value
  }

  predicate Succeeds(rows: Table, step: Step) {
    match step
    case MarkDelivered(auth, id, token, owner, now) =>
      owner == auth.actor && Holds(rows, auth.workspace, id, token, owner, now)
    case MarkFailed(auth, id, f) =>
      && f.leaseOwner == auth.actor
      && Holds(rows, auth.workspace, id, f.leaseToken, f.leaseOwner, f.now)
      && StorableError(f.errorMessage)
    case _ => false
  }

  function Unleased(r: Row): Row {
    r.(leasedAt := None, leasedUntil := None, leaseToken := None, leaseOwner := None)
  }

  function DeliveredRow(r: Row, now: Time): Row {
    Unleased(r).(status := Delivered, publishedAt := Some(now), updatedAt := now, lastError := None)
  }

  // Leased to the caller, of the row's tenant, under this token, for longer than now.
  ghost predicate LiveLease(r: Row, auth: Auth, token: Uuid, now: Time) {
    && r.workspace == auth.workspace
    && r.status == Leased && r.leaseOwner == Some(auth.actor) && r.leaseToken == Some(token)
    && r.leasedUntil.Some? && r.leasedUntil.value > now
  }

  // The columns that say who holds the row are cleared, and those that say what it is kept.
  ghost predicate GivenUp(before: Row, after: Row) {
    && after.leasedAt.None? && after.leasedUntil.None? && after.leaseToken.None? && after.leaseOwner.None?
    && after.workspace == before.workspace && after.event == before.event
  }

  ghost predicate DeliveryRecorded(before: Row, after: Row, now: Time) {
    && GivenUp(before, after)
    && after.status == Delivered && after.publishedAt == Some(now) && after.lastError == None
    && after.attempts == before.attempts && after.availableAt == before.availableAt && after.updatedAt == now
  }

  // One more attempt, in 32 bits; a dead letter when the failure is terminal or the attempts
  // have come to the budget, and otherwise due again after the backoff.
  ghost predicate FailureRecorded(before: Row, after: Row, f: FailureContext) {
    && GivenUp(before, after)
    && after.attempts == (if before.attempts == 0x7FFF_FFFF then -0x8000_0000 else before.attempts + 1)
    && (if f.classification == Terminal || f.maxAttempts <= after.attempts
        then after.status == DeadLetter && after.availableAt == f.now
        else after.status == Failed && after.availableAt == f.now + f.retryBackoff)
    && after.publishedAt == before.publishedAt
    && after.lastError == Some(f.errorMessage) && after.updatedAt == f.now
  }

  // attempts is an i32 column and the increment is i32 arithmetic.
  function NextAttempts(attempts: int): int {
    if attempts == I32_MAX then I32_MIN else attempts + 1
  }

  predicate DeadLetterNow(attempts: int, f: FailureContext) {
    f.classification.Terminal? || NextAttempts(attempts) >= f.maxAttempts
  }

  function FailedRow(r: Row, f: FailureContext): Row {
    var base := Unleased(r).(
      attempts := NextAttempts(r.attempts), updatedAt := f.now, lastError := Some(f.errorMessage));
    if DeadLetterNow(r.attempts, f)
    then base.(status := DeadLetter, availableAt := f.now)
    else base.(status := Failed, availableAt := f.now + f.retryBackoff)
  }

  predicate Purgeable(r: Row, workspace: Uuid, deliveredBefore: Time, deadLetterBefore: Time) {
    && r.workspace == workspace
    && (|| (r.status.Delivered? && r.publishedAt.Some? && r.publishedAt.value < deliveredBefore)
        || (r.status.DeadLetter? && r.updatedAt < deadLetterBefore))
  }

  function NewRow(workspace: Uuid, event: Event): Row {
    Row(workspace, event, 0, event.occurredAt, Pending, None, None, None, None, None, None, event.occurredAt)
  }

  // The primary key on id and the unique constraint on event_id.
  predicate InsertConflicts(rows: Table, id: Uuid, event: Event) {
    id in rows || exists other :: other in rows && rows[other].event.eventId == event.eventId
  }

  // What one committed statement does to the table, row by row.
  function Apply(rows: Table, step: Step): Table {
    match step
    case Insert(id, workspace, event) =>
      if InsertConflicts(rows, id, event) then rows else rows[id := NewRow(workspace, event)]
    case Lease(_, _, _, _, _, _) =>
      LeaseRows(rows, Candidates(rows, step), step)
    case MarkDelivered(_, id, _, _, now) =>
      if Succeeds(rows, step) then rows[id := DeliveredRow(rows[id], now)] else rows
    case MarkFailed(_, id, f) =>
      if Succeeds(rows, step) then rows[id := FailedRow(rows[id], f)] else rows
    case Cleanup(auth, deliveredBefore, deadLetterBefore) =>
      map id | id in rows && !Purgeable(rows[id], auth.workspace, deliveredBefore, deadLetterBefore) :: rows[id]
  }

  function ApplyAll(rows: Table, steps: seq<Step>): Table
    decreases |steps|
  {
    if |steps| == 0 then rows else ApplyAll(Apply(rows, steps[0]), steps[1..])
  }

  lemma {:induction false} ApplyAllSplit(rows: Table, a: seq<Step>, b: seq<Step>)
    ensures ApplyAll(rows, a + b) == ApplyAll(ApplyAll(rows, a), b)
    decreases |a|
  {
    if |a| == 0 {
      assert a + b == b;
    } else {
      assert (a + b)[0] == a[0] && (a + b)[1..] == a[1..] + b;
      ApplyAllSplit(Apply(rows, a[0]), a[1..], b);
    }
  }

  // ----- the store operations, statement by statement

  function ValidateLeaseTransition(lease: Row, expectedToken: Uuid, expectedOwner: Uuid, now: Time):
    (r: Result<(), StoreError>)
    ensures r.Success? <==>
      && lease.status.Leased?
      && lease.leaseToken == Some(expectedToken)
      && lease.leaseOwner == Some(expectedOwner)
      && lease.leasedUntil.Some?
      && now < lease.leasedUntil.value
  {
    if !lease.status.Leased? then Failure(OutboxNotLeased)
    else if lease.leaseOwner.None? then Failure(OutboxNotLeased)
    else if lease.leaseOwner.value != expectedOwner then
      Failure(OutboxLeaseOwnerMismatch(expectedOwner, lease.leaseOwner.value))
    else if lease.leaseToken.None? then Failure(OutboxNotLeased)
    else if lease.leaseToken.value != expectedToken then
      Failure(OutboxLeaseTokenMismatch(expectedToken, lease.leaseToken.value))
    else if lease.leasedUntil.None? then Failure(OutboxNotLeased)
    else if lease.leasedUntil.value <= now then
      Failure(OutboxLeaseExpired(lease.leasedUntil.value, now))
    else Success(())
  }

  // The WHERE clause shared by the three completing UPDATE statements.
  function GuardedRows(rows: Table, auth: Auth, outboxId: Uuid, token: Uuid, owner: Uuid, now: Time): set<Uuid> {
    set id | id in rows
      && rows[id].workspace == auth.workspace
      && id == outboxId
      && rows[id].status.Leased?
      && rows[id].leaseToken == Some(token)
      && rows[id].leaseOwner == Some(owner)
      && rows[id].leasedUntil.Some?
      && rows[id].leasedUntil.value > now
  }

  // It reaches the one row exactly when the guard chain has accepted it, and otherwise none.
  lemma GuardedRowsSingle(rows: Table, auth: Auth, id: Uuid, token: Uuid, owner: Uuid, now: Time)
    ensures GuardedRows(rows, auth, id, token, owner, now) ==
      if id in rows && rows[id].workspace == auth.workspace
         && ValidateLeaseTransition(rows[id], token, owner, now).Success? then {id} else {}
    ensures Holds(rows, auth.workspace, id, token, owner, now) ==>
      GuardedRows(rows, auth, id, token, owner, now) == {id}
  {
  }

  // Why a completing call that reached the right row was turned away.
  ghost predicate RefusalExplained(
    rows: Table, auth: Auth, id: Uuid, token: Uuid, owner: Uuid, now: Time, e: StoreError) {
    match e
    case OutboxLeaseMissing => id !in rows || rows[id].workspace != auth.workspace
    case OutboxNotLeased => id in rows && !(rows[id].status.Leased? && rows[id].leaseOwner.Some?
        && rows[id].leaseToken.Some? && rows[id].leasedUntil.Some?)
    case OutboxLeaseOwnerMismatch(expected, actual) =>
      (expected == auth.actor && actual == owner != auth.actor)
      || (id in rows && expected == owner && rows[id].leaseOwner == Some(actual) && actual != owner)
    case OutboxLeaseTokenMismatch(expected, actual) =>
      id in rows && expected == token && rows[id].leaseToken == Some(actual) && actual != token
    case OutboxLeaseExpired(until, at) => id in rows && rows[id].leasedUntil == Some(until) && until <= at == now
    case _ => false
  }

  // The table, with the statements committed against it since it was created empty.
  class OutboxTable {
    var rows: Table
    ghost var trace: seq<Step>

    ghost predicate Valid()
      reads this
    {
      rows == ApplyAll(map[], trace)
    }

    constructor ()
      ensures Valid() && rows == map[] && trace == []
    {
      rows := map[];
      trace := [];
    }

    // A committed statement extends the trace.
    ghost method Record(step: Step)
      requires ApplyAll(map[], trace + [step]) == rows
      modifies this`trace
      ensures Valid() && trace == old(trace) + [step]
    {
      trace := trace + [step];
    }

    method LeaseBatch(auth: Auth, now: Time, leaseFor: Time, maxItems: int, locked: set<Uuid>, token: Uuid)
      returns (r: Result<map<Uuid, Message>, StoreError>)
      requires Valid()
      modifies this
      ensures Valid()
      ensures r.Success? <==> maxItems >= 0
      ensures r.Failure? ==> rows == old(rows) && trace == old(trace)
      ensures r.Success? ==>
        && trace == old(trace) + [Lease(auth, now, leaseFor, maxItems, locked, token)]
        && LeaseTaken(old(rows), rows, r.value, Lease(auth, now, leaseFor, maxItems, locked, token))
    {
      if maxItems < 0 {
        return Failure(Database);
      }
      var step := Lease(auth, now, leaseFor, maxItems, locked, token);
      var candidates := Candidates(rows, step);
      LeaseTakes(rows, step);
      var messages := Messages(rows, candidates, step);
      ApplyAllSplit(map[], trace, [step]);
      rows := LeaseRows(rows, candidates, step);
      Record(step);
      return Success(messages);
    }

    method MarkOutboxDelivered(auth: Auth, outboxId: Uuid, token: Uuid, owner: Uuid, now: Time)
      returns (r: Result<(), StoreError>)
      requires Valid()
      modifies this
      ensures Valid()
      ensures r.Success? <==>
        owner == auth.actor && outboxId in old(rows) && LiveLease(old(rows)[outboxId], auth, token, now)
      ensures r.Failure? ==>
        && rows == old(rows) && trace == old(trace)
        && RefusalExplained(rows, auth, outboxId, token, owner, now, r.error)
      ensures r.Success? ==>
        && trace == old(trace) + [MarkDelivered(auth, outboxId, token, owner, now)]
        && rows == old(rows)[outboxId := DeliveredRow(old(rows)[outboxId], now)]
        && DeliveryRecorded(old(rows)[outboxId], rows[outboxId], now)
    {
      if outboxId !in rows || rows[outboxId].workspace != auth.workspace {
        return Failure(OutboxLeaseMissing);
      }
      var lease := rows[outboxId];
      if owner != auth.actor {
        return Failure(OutboxLeaseOwnerMismatch(auth.actor, owner));
      }
      var valid := ValidateLeaseTransition(lease, token, owner, now);
      if valid.Failure? {
        return valid;
      }
      var hit := GuardedRows(rows, auth, outboxId, token, owner, now);
      GuardedRowsSingle(rows, auth, outboxId, token, owner, now);
      if |hit| != 1 {
        return Failure(OutboxUpdateNotSingleRow(|hit|));
      }
      ghost var step := MarkDelivered(auth, outboxId, token, owner, now);
      ApplyAllSplit(map[], trace, [step]);
      rows := map id | id in rows :: if id !in hit then rows[id] else rows[id].(
        status := Delivered, publishedAt := Some(now), leasedAt := None, leasedUntil := None,
        leaseToken := None, leaseOwner := None, updatedAt := now, lastError := None);
      assert rows == old(rows)[outboxId := DeliveredRow(old(rows)[outboxId], now)];
      Record(step);
      return Success(());
    }

    method MarkOutboxFailed(auth: Auth, outboxId: Uuid, f: FailureContext) returns (r: Result<(), StoreError>)
      requires Valid()
      modifies this
      ensures Valid()
      ensures r.Success? <==>
        && f.leaseOwner == auth.actor
        && outboxId in old(rows) && LiveLease(old(rows)[outboxId], auth, f.leaseToken, f.now)
        && |f.errorMessage| <= 4000 && '\0' !in f.errorMessage
      ensures r.Failure? ==>
        && rows == old(rows) && trace == old(trace)
        && (|| (r.error == Database && !StorableError(f.errorMessage))
            || RefusalExplained(rows, auth, outboxId, f.leaseToken, f.leaseOwner, f.now, r.error))
      ensures r.Success? ==>
        && trace == old(trace) + [MarkFailed(auth, outboxId, f)]
        && rows == old(rows)[outboxId := FailedRow(old(rows)[outboxId], f)]
        && FailureRecorded(old(rows)[outboxId], rows[outboxId], f)
    {
      if outboxId !in rows || rows[outboxId].workspace != auth.workspace {
        return Failure(OutboxLeaseMissing);
      }
      var lease := rows[outboxId];
      if f.leaseOwner != auth.actor {
        return Failure(OutboxLeaseOwnerMismatch(auth.actor, f.leaseOwner));
      }
      var valid := ValidateLeaseTransition(lease, f.leaseToken, f.leaseOwner, f.now);
      if valid.Failure? {
        return valid;
      }
      var nextAttempts := NextAttempts(lease.attempts);
      var exhaustedBudget := nextAttempts >= f.maxAttempts;
      var deadLetterNow := f.classification.Terminal? || exhaustedBudget;
      var hit := GuardedRows(rows, auth, outboxId, f.leaseToken, f.leaseOwner, f.now);
      GuardedRowsSingle(rows, auth, outboxId, f.leaseToken, f.leaseOwner, f.now);
      if hit != {} && !StorableError(f.errorMessage) {
        return Failure(Database);
      }
      var updated := rows;
      if deadLetterNow {
        updated := map id | id in rows :: if id !in hit then rows[id] else rows[id].(
          status := DeadLetter, attempts := nextAttempts, availableAt := f.now, leasedAt := None,
          leasedUntil := None, leaseToken := None, leaseOwner := None, updatedAt := f.now,
          lastError := Some(f.errorMessage));
      } else {
        updated := map id | id in rows :: if id !in hit then rows[id] else rows[id].(
          status := Failed, attempts := nextAttempts, availableAt := f.now + f.retryBackoff, leasedAt := None,
          leasedUntil := None, leaseToken := None, leaseOwner := None, updatedAt := f.now,
          lastError := Some(f.errorMessage));
      }
      if |hit| != 1 {
        return Failure(OutboxUpdateNotSingleRow(|hit|));
      }
      ghost var step := MarkFailed(auth, outboxId, f);
      ApplyAllSplit(map[], trace, [step]);
      rows := updated;
      assert rows == old(rows)[outboxId := FailedRow(old(rows)[outboxId], f)];
      Record(step);
      return Success(());
    }

    method CleanupOutbox(auth: Auth, deliveredBefore: Time, deadLetterBefore: Time) returns (deleted: nat)
      requires Valid()
      modifies this
      ensures Valid()
      ensures trace == old(trace) + [Cleanup(auth, deliveredBefore, deadLetterBefore)]
      ensures deleted == |old(rows)| - |rows|
      ensures forall id :: id in rows ==> id in old(rows) && rows[id] == old(rows)[id]
      // Exactly the tenant's rows delivered before the one cutoff, and its dead letters last
      // touched before the other, are gone.
      ensures forall id :: id in old(rows) ==>
        (id !in rows <==>
          && old(rows)[id].workspace == auth.workspace
          && (match old(rows)[id].status
              case Delivered => old(rows)[id].publishedAt.Some? && old(rows)[id].publishedAt.value < deliveredBefore
              case DeadLetter => old(rows)[id].updatedAt < deadLetterBefore
              case _ => false))
    {
      var gone := set id | id in rows && Purgeable(rows[id], auth.workspace, deliveredBefore, deadLetterBefore);
      ghost var step := Cleanup(auth, deliveredBefore, deadLetterBefore);
      ApplyAllSplit(map[], trace, [step]);
      assert Apply(rows, step) == rows - gone;
      assert rows.Keys == (rows - gone).Keys + gone;
      deleted := |gone|;
      rows := rows - gone;
      Record(step);
    }

    // Statements other processes commit between two calls of the present one.
    method Interfere(steps: seq<Step>)
      requires Valid()
      modifies this
      ensures Valid()
      ensures rows == ApplyAll(old(rows), steps) && trace == old(trace) + steps
    {
      ApplyAllSplit(map[], trace, steps);
      rows := ApplyAll(rows, steps);
      trace := trace + steps;
    }
  }
}
