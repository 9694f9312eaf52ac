// crates/dandori-app-services/src/worker/service.rs: one worker's cycle over the store,
// with any statements of other processes committed between its own.
module Worker {
  import opened Base
  import opened Outbox
  import opened OutboxRuns
  import Window
  import P = Partition
  import PR = PartitionRuns
  import Keys = IssueStore
  import Publisher

  datatype Config = Config(
    workspaceIds: Option<multiset<Uuid>>,
    workerInstanceId: Uuid,
    batchSize: int,
    leaseFor: Time,
    maxAttempts: int,
    retryBackoffSeconds: int,
    retryJitterMs: nat,
    deliveredRetention: Time,
    deadLetterRetention: Time,
    idempotencyRetention: Time,
    partitionBatch: nat,
    partitionLeaseFor: Time,
    partitionShardBuckets: P.ShardBucketRange)

  datatype Report = Report(
    leased: nat,
    delivered: nat,
    failed: nat,
    deadLettered: nat,
    cleanedOutboxRows: nat,
    cleanedIdempotencyRows: nat,
    tenantFailures: nat)

  // The report of a cycle that has leased this much and done nothing more.
  predicate Opened(r: Report, leased: nat) {
    && r.leased == leased && r.delivered == 0 && r.failed == 0 && r.deadLettered == 0
    && r.cleanedOutboxRows == 0 && r.cleanedIdempotencyRows == 0 && r.tenantFailures == 0
  }

  datatype PublishOutcome = Ok | Err(kind: Publisher.ErrorKind, message: string)

  // What the world does around the n-th store call of a cycle: the clock read for it, the
  // statements others commit before it, whether the database fails it, and the samples drawn;
  // what each publish answers, and the key records as the purge at the end finds them.
  datatype World = World(
    clock: nat -> Time,
    others: nat -> seq<Step>,
    fails: nat -> bool,
    locked: set<Uuid>,
    publish: Message -> PublishOutcome,
    jitter: nat -> nat,
    records: map<Keys.RecordKey, Keys.Record>)
  {
    function Clock(n: nat): Time { clock(n) }

    function Others(n: nat): seq<Step> { others(n) }

    function Fails(n: nat): bool { fails(n) }

    function Publish(m: Message): PublishOutcome { publish(m) }

    function Jitter(n: nat): nat { jitter(n) }
  }

  // ----- what a report counts, read off the statements committed

  ghost predicate DeliversUnder(rows: Table, step: Step, token: Uuid) {
    step.MarkDelivered? && step.token == token && Succeeds(rows, step)
  }

  ghost predicate FailsUnder(rows: Table, step: Step, token: Uuid) {
    step.MarkFailed? && step.failure.leaseToken == token && Succeeds(rows, step)
  }

  ghost predicate DeadLettersUnder(rows: Table, step: Step, token: Uuid) {
    FailsUnder(rows, step, token) && DeadLetterNow(rows[step.id].attempts, step.failure)
  }

  // The statement is counted as a dead letter exactly when the row it leaves is one.
  lemma DeadLettersLeaveDeadRow(rows: Table, step: Step, token: Uuid)
    requires FailsUnder(rows, step, token)
    ensures step.id in Apply(rows, step)
    ensures DeadLettersUnder(rows, step, token) <==> Apply(rows, step)[step.id].status.DeadLetter?
  {
  }

  datatype Tally = Tally(delivered: nat, failed: nat, deadLettered: nat)

  ghost function StepTally(rows: Table, step: Step, token: Uuid): Tally {
    Tally(if DeliversUnder(rows, step, token) then 1 else 0,
          if FailsUnder(rows, step, token) then 1 else 0,
          if DeadLettersUnder(rows, step, token) then 1 else 0)
  }

  // The rows delivered, failed and dead-lettered under one lease token.
  ghost function TallyUnder(rows: Table, steps: seq<Step>, token: Uuid): Tally
    decreases |steps|
  {
    if |steps| == 0 then Tally(0, 0, 0)
    else
      var first, rest := StepTally(rows, steps[0], token), TallyUnder(Apply(rows, steps[0]), steps[1..], token);
      Tally(first.delivered + rest.delivered, first.failed + rest.failed, first.deadLettered + rest.deadLettered)
  }

  // The report counts exactly the tally.
  predicate Counts(r: Report, t: Tally) {
    r.delivered == t.delivered && r.failed == t.failed && r.deadLettered == t.deadLettered
  }

  lemma {:induction false} TallyHead(rows: Table, steps: seq<Step>, token: Uuid)
    requires |steps| > 0
    ensures
      var t, a, b := TallyUnder(rows, steps, token),
        StepTally(rows, steps[0], token), TallyUnder(Apply(rows, steps[0]), steps[1..], token);
      && t.delivered == a.delivered + b.delivered && t.failed == a.failed + b.failed
      && t.deadLettered == a.deadLettered + b.deadLettered
  {
  }

  lemma {:induction false} TallySplit(rows: Table, a: seq<Step>, b: seq<Step>, token: Uuid)
    ensures
      var t, x, y :=
        TallyUnder(rows, a + b, token), TallyUnder(rows, a, token), TallyUnder(ApplyAll(rows, a), b, token);
      && t.delivered == x.delivered + y.delivered && t.failed == x.failed + y.failed
      && t.deadLettered == x.deadLettered + y.deadLettered
    decreases |a|
  {
    if |a| == 0 {
      assert a + b == b;
    } else {
      assert (a + b)[0] == a[0] && (a + b)[1..] == a[1..] + b;
      TallyHead(rows, a + b, token);
      TallyHead(rows, a, token);
      TallySplit(Apply(rows, a[0]), a[1..], b, token);
    }
  }

  // The rows completed under one lease token.
  ghost function StepCompletes(rows: Table, step: Step, token: Uuid): set<Uuid> {
    if Completes(step) && PresentedToken(step) == token && Succeeds(rows, step) then {CompletedId(step)} else {}
  }

  ghost function CompletedUnder(rows: Table, steps: seq<Step>, token: Uuid): set<Uuid>
    decreases |steps|
  {
    if |steps| == 0 then {}
    else StepCompletes(rows, steps[0], token) + CompletedUnder(Apply(rows, steps[0]), steps[1..], token)
  }

  lemma {:induction false} CompletedHead(rows: Table, steps: seq<Step>, token: Uuid)
    requires |steps| > 0
    ensures CompletedUnder(rows, steps, token)
         == StepCompletes(rows, steps[0], token) + CompletedUnder(Apply(rows, steps[0]), steps[1..], token)
  {
  }

  lemma {:induction false} CompletedSplit(rows: Table, a: seq<Step>, b: seq<Step>, token: Uuid)
    ensures CompletedUnder(rows, a + b, token)
         == CompletedUnder(rows, a, token) + CompletedUnder(ApplyAll(rows, a), b, token)
    decreases |a|
  {
    if |a| == 0 {
      assert a + b == b;
    } else {
      assert (a + b)[0] == a[0] && (a + b)[1..] == a[1..] + b;
      CompletedHead(rows, a + b, token);
      CompletedHead(rows, a, token);
      CompletedSplit(Apply(rows, a[0]), a[1..], b, token);
    }
  }

  // Nobody else leases or completes under this cycle's token.
  ghost predicate Foreign(steps: seq<Step>, token: Uuid) {
    forall i :: 0 <= i < |steps| ==> ForeignStep(steps[i], token)
  }

  ghost predicate ForeignStep(step: Step, token: Uuid) {
    && (step.Lease? ==> step.token != token)
    && (Completes(step) ==> PresentedToken(step) != token)
  }

  lemma ForeignStepTally(rows: Table, step: Step, token: Uuid)
    requires ForeignStep(step, token)
    ensures StepTally(rows, step, token) == Tally(0, 0, 0)
  {
  }

  lemma {:induction false} ForeignTallyIsZero(rows: Table, steps: seq<Step>, token: Uuid)
    requires Foreign(steps, token)
    ensures TallyUnder(rows, steps, token) == Tally(0, 0, 0)
    decreases |steps|
  {
    if |steps| > 0 {
      ForeignStepTally(rows, steps[0], token);
      TallyHead(rows, steps, token);
      ForeignTallyIsZero(Apply(rows, steps[0]), steps[1..], token);
    }
  }

  lemma {:induction false} ForeignCompletesNone(rows: Table, steps: seq<Step>, token: Uuid)
    requires Foreign(steps, token)
    ensures CompletedUnder(rows, steps, token) == {}
    decreases |steps|
  {
    if |steps| > 0 {
      assert ForeignStep(steps[0], token);
      CompletedHead(rows, steps, token);
      ForeignCompletesNone(Apply(rows, steps[0]), steps[1..], token);
    }
  }

  // One statement after statements of others: it alone can complete a row under the token.
  lemma {:induction false} AppendedCompletes(rows: Table, others: seq<Step>, mid: Table, step: Step, token: Uuid)
    requires Foreign(others, token) && mid == ApplyAll(rows, others)
    ensures CompletedUnder(rows, others + [step], token) == StepCompletes(mid, step, token)
  {
    CompletedSplit(rows, others, [step], token);
    ForeignCompletesNone(rows, others, token);
    CompletedHead(mid, [step], token);
    assert [step][1..] == [];
  }

  // Every row still held under the token has the attempts its message was given.
  ghost predicate SnapshotsHold(rows: Table, messages: map<Uuid, Message>, token: Uuid) {
    forall id :: id in messages && HeldUnder(rows, id, token) ==> rows[id].attempts == messages[id].attempts
  }

  lemma {:induction false} ForeignKeepsSnapshots(
    rows: Table, steps: seq<Step>, messages: map<Uuid, Message>, token: Uuid)
    requires Foreign(steps, token) && SnapshotsHold(rows, messages, token)
    ensures SnapshotsHold(ApplyAll(rows, steps), messages, token)
  {
    forall id | id in messages && HeldUnder(ApplyAll(rows, steps), id, token)
      ensures ApplyAll(rows, steps)[id].attempts == messages[id].attempts
    {
      RunKeepsLease(rows, steps, id, token);
    }
  }

  lemma MarkKeepsSnapshots(rows: Table, step: Step, messages: map<Uuid, Message>, token: Uuid)
    requires Completes(step) && SnapshotsHold(rows, messages, token)
    ensures SnapshotsHold(Apply(rows, step), messages, token)
  {
    forall id | id in messages && HeldUnder(Apply(rows, step), id, token)
      ensures Apply(rows, step)[id].attempts == messages[id].attempts
    {
      StepKeepsLease(rows, step, id, token);
    }
  }

  // One completion of ours after statements of others: it alone is tallied.
  lemma {:induction false} OwnMarkTally(
    rows: Table, others: seq<Step>, step: Step, messages: map<Uuid, Message>, token: Uuid)
    requires Foreign(others, token) && SnapshotsHold(rows, messages, token)
    requires Completes(step) && Succeeds(ApplyAll(rows, others), step)
    ensures ApplyAll(rows, others + [step]) == Apply(ApplyAll(rows, others), step)
    ensures TallyUnder(rows, others + [step], token) == StepTally(ApplyAll(rows, others), step, token)
    ensures SnapshotsHold(ApplyAll(rows, others), messages, token)
    ensures SnapshotsHold(ApplyAll(rows, others + [step]), messages, token)
  {
    var mid := ApplyAll(rows, others);
    ApplyAllSplit(rows, others, [step]);
    OneStep(mid, step, token);
    TallySplit(rows, others, [step], token);
    ForeignTallyIsZero(rows, others, token);
    ForeignKeepsSnapshots(rows, others, messages, token);
    MarkKeepsSnapshots(mid, step, messages, token);
  }

  lemma {:induction false} OneStep(rows: Table, step: Step, token: Uuid)
    ensures ApplyAll(rows, [step]) == Apply(rows, step)
    ensures TallyUnder(rows, [step], token) == StepTally(rows, step, token)
  {
    assert [step][1..] == [];
    assert ApplyAll(Apply(rows, step), []) == Apply(rows, step);
    assert TallyUnder(Apply(rows, step), [], token) == Tally(0, 0, 0);
    TallyHead(rows, [step], token);
  }

  lemma DeliveredTally(rows: Table, step: Step)
    requires step.MarkDelivered? && Succeeds(rows, step)
    ensures StepTally(rows, step, step.token) == Tally(1, 0, 0)
  {
  }

  // The worker's verdict from its snapshot is the store's verdict from the row.
  lemma FailedTally(rows: Table, step: Step, messages: map<Uuid, Message>)
    requires step.MarkFailed? && Succeeds(rows, step) && step.id in messages
    requires SnapshotsHold(rows, messages, step.failure.leaseToken)
    ensures StepTally(rows, step, step.failure.leaseToken) == Tally(0, 1,
      if DeadLetterNow(messages[step.id].attempts, step.failure) then 1 else 0)
  {
    assert HeldUnder(rows, step.id, step.failure.leaseToken);
  }

  function Published(messages: map<Uuid, Message>, world: World): set<Uuid> {
    set id | id in messages && world.Publish(messages[id]).Ok?
  }

  // The counters moved as the rows did.
  ghost predicate Moved(from: Report, to: Report, before: Table, committed: seq<Step>, token: Uuid) {
    var t := TallyUnder(before, committed, token);
    && to.delivered == from.delivered + t.delivered
    && to.failed == from.failed + t.failed
    && to.deadLettered == from.deadLettered + t.deadLettered
  }

  // Only the counters of completions differ.
  predicate SameOtherwise(from: Report, to: Report) {
    && to.leased == from.leased && to.tenantFailures == from.tenantFailures
    && to.cleanedOutboxRows == from.cleanedOutboxRows && to.cleanedIdempotencyRows == from.cleanedIdempotencyRows
  }

  // A stretch of a run in which the worker saw exactly these messages through: their rows were
  // completed, the counters moved as the rows did, and the published ones were delivered.
  ghost predicate SeenThrough(
    before: Table, committed: seq<Step>, after: Table, token: Uuid, messages: map<Uuid, Message>,
    from: Report, to: Report, published: set<Uuid>, seen: set<Uuid>)
  {
    && after == ApplyAll(before, committed)
    && SnapshotsHold(after, messages, token)
    && Moved(from, to, before, committed, token)
    && CompletedUnder(before, committed, token) == seen
    && to.delivered == from.delivered + |published|
    && to.delivered + to.failed == from.delivered + from.failed + |seen|
    && SameOtherwise(from, to)
  }

  lemma SeenThroughJoins(
    rows0: Table, a: seq<Step>, rows1: Table, b: seq<Step>, rows2: Table, token: Uuid, messages: map<Uuid, Message>,
    r0: Report, r1: Report, r2: Report, p: set<Uuid>, q: set<Uuid>, u: set<Uuid>, v: set<Uuid>)
    requires SeenThrough(rows0, a, rows1, token, messages, r0, r1, p, u)
    requires SeenThrough(rows1, b, rows2, token, messages, r1, r2, q, v)
    requires p !! q && u !! v
    ensures SeenThrough(rows0, a + b, rows2, token, messages, r0, r2, p + q, u + v)
  {
    ApplyAllSplit(rows0, a, b);
    TallySplit(rows0, a, b, token);
    CompletedSplit(rows0, a, b, token);
    assert |p + q| == |p| + |q| && |u + v| == |u| + |v|;
  }

  // The counters after one completion call that succeeded.
  function Counted(report: Report, step: Step, messages: map<Uuid, Message>): Report
    requires Completes(step) && step.id in messages
  {
    if step.MarkDelivered? then report.(delivered := report.delivered + 1)
    else
      report.(failed := report.failed + 1,
              deadLettered := report.deadLettered
                + if DeadLetterNow(messages[step.id].attempts, step.failure) then 1 else 0)
  }

  // What one successful completion call counts is what it does to the row.
  lemma CountedMoves(rows: Table, step: Step, messages: map<Uuid, Message>, report: Report, counted: Report, t: Tally)
    requires Completes(step) && Succeeds(rows, step) && step.id in messages
    requires SnapshotsHold(rows, messages, PresentedToken(step))
    requires counted == Counted(report, step, messages) && t == StepTally(rows, step, PresentedToken(step))
    ensures counted.delivered == report.delivered + t.delivered
    ensures counted.failed == report.failed + t.failed
    ensures counted.deadLettered == report.deadLettered + t.deadLettered
    ensures counted.delivered == report.delivered + (if step.MarkDelivered? then 1 else 0)
    ensures counted.delivered + counted.failed == report.delivered + report.failed + 1
    ensures SameOtherwise(report, counted)
  {
    if step.MarkDelivered? {
      DeliveredTally(rows, step);
    } else {
      FailedTally(rows, step, messages);
    }
  }

  lemma {:induction false} CompletionSeenThrough(
    rows: Table, others: seq<Step>, mid: Table, step: Step, after: Table, messages: map<Uuid, Message>, token: Uuid,
    report: Report, counted: Report, published: set<Uuid>)
    requires Foreign(others, token) && SnapshotsHold(rows, messages, token)
    requires mid == ApplyAll(rows, others) && after == Apply(mid, step)
    requires Completes(step) && PresentedToken(step) == token && step.id in messages && Succeeds(mid, step)
    requires counted == Counted(report, step, messages)
    requires published == if step.MarkDelivered? then {step.id} else {}
    ensures SeenThrough(rows, others + [step], after, token, messages, report, counted, published, {step.id})
  {
    var committed, t := others + [step], StepTally(mid, step, token);
    CompletionCommits(rows, others, mid, step, after, messages, token, committed, t);
    AppendedCompletes(rows, others, mid, step, token);
    CountedMoves(mid, step, messages, report, counted, t);
  }

  lemma {:induction false} CompletionCommits(
    rows: Table, others: seq<Step>, mid: Table, step: Step, after: Table, messages: map<Uuid, Message>, token: Uuid,
    committed: seq<Step>, t: Tally)
    requires Foreign(others, token) && SnapshotsHold(rows, messages, token)
    requires mid == ApplyAll(rows, others) && after == Apply(mid, step) && committed == others + [step]
    requires Completes(step) && PresentedToken(step) == token && Succeeds(mid, step) && t == StepTally(mid, step, token)
    ensures after == ApplyAll(rows, committed) && TallyUnder(rows, committed, token) == t
    ensures SnapshotsHold(mid, messages, token) && SnapshotsHold(after, messages, token)
  {
    OwnMarkTally(rows, others, step, messages, token);
  }

  lemma TraceGrows(before: seq<Step>, a: seq<Step>, b: seq<Step>, after: seq<Step>)
    requires after == before + a + b
    ensures after == before + (a + b)
  {
  }

  lemma NothingSeen(rows: Table, token: Uuid, messages: map<Uuid, Message>, report: Report) returns (none: seq<Step>)
    requires SnapshotsHold(rows, messages, token)
    ensures |none| == 0 && SeenThrough(rows, none, rows, token, messages, report, report, {}, {})
  {
    none := [];
  }

  lemma OneFewer(messages: map<Uuid, Message>, world: World, remaining: set<Uuid>, id: Uuid)
    requires id in remaining && remaining <= messages.Keys
    ensures Published(messages, world) - (remaining - {id})
         == Published(messages, world) - remaining + (if world.Publish(messages[id]).Ok? then {id} else {})
    ensures messages.Keys - (remaining - {id}) == messages.Keys - remaining + {id}
  {
  }

  // The statements committed after a stretch, up to a call that failed.
  lemma {:induction false} StretchStops(
    rows0: Table, a: seq<Step>, rows1: Table, b: seq<Step>, token: Uuid, messages: map<Uuid, Message>,
    r0: Report, r1: Report, published: set<Uuid>, seen: set<Uuid>)
    requires SeenThrough(rows0, a, rows1, token, messages, r0, r1, published, seen) && Foreign(b, token)
    ensures ApplyAll(rows0, a + b) == ApplyAll(rows1, b)
    ensures CompletedUnder(rows0, a + b, token) == seen
  {
    CompletedSplit(rows0, a, b, token);
    ForeignCompletesNone(rows1, b, token);
    ApplyAllSplit(rows0, a, b);
  }

  lemma {:induction false} DeadLettersAreFailures(rows: Table, steps: seq<Step>, token: Uuid)
    ensures TallyUnder(rows, steps, token).deadLettered <= TallyUnder(rows, steps, token).failed
    decreases |steps|
  {
    if |steps| > 0 {
      TallyHead(rows, steps, token);
      DeadLettersAreFailures(Apply(rows, steps[0]), steps[1..], token);
    }
  }

  lemma {:induction false} ForeignSeenThrough(
    rows: Table, others: seq<Step>, token: Uuid, messages: map<Uuid, Message>, report: Report)
    requires Foreign(others, token) && SnapshotsHold(rows, messages, token)
    ensures SeenThrough(rows, others, ApplyAll(rows, others), token, messages, report, report, {}, {})
  {
    ForeignTallyIsZero(rows, others, token);
    ForeignCompletesNone(rows, others, token);
    ForeignKeepsSnapshots(rows, others, messages, token);
  }

  lemma {:induction false} LeaseCountsNothing(rows: Table, others: seq<Step>, mid: Table, step: Step, after: Table)
    requires step.Lease? && Foreign(others, step.token)
    requires mid == ApplyAll(rows, others) && after == Apply(mid, step)
    ensures after == ApplyAll(rows, others + [step])
    ensures TallyUnder(rows, others + [step], step.token) == Tally(0, 0, 0)
  {
    ApplyAllSplit(rows, others, [step]);
    OneStep(mid, step, step.token);
    TallySplit(rows, others, [step], step.token);
    ForeignTallyIsZero(rows, others, step.token);
  }

  // A lease counts nothing, and what it hands out is what is stored.
  lemma {:induction false} LeaseSeenThrough(
    rows: Table, others: seq<Step>, mid: Table, step: Step, after: Table, messages: map<Uuid, Message>, report: Report)
    requires step.Lease? && Foreign(others, step.token) && SnapshotsHold(after, messages, step.token)
    requires mid == ApplyAll(rows, others) && after == Apply(mid, step)
    ensures SeenThrough(rows, others + [step], after, step.token, messages, report, report, {}, {})
  {
    LeaseCountsNothing(rows, others, mid, step, after);
    AppendedCompletes(rows, others, mid, step, step.token);
  }

  lemma {:induction false} CleanupIsForeign(
    rows: Table, others: seq<Step>, mid: Table, step: Step, after: Table, token: Uuid)
    requires step.Cleanup? && Foreign(others, token)
    requires mid == ApplyAll(rows, others) && after == Apply(mid, step)
    ensures after == ApplyAll(rows, others + [step])
    ensures Foreign(others + [step], token)
  {
    ApplyAllSplit(rows, others, [step]);
    OneStep(mid, step, token);
    ForeignAppend(others, step, token);
  }

  lemma ForeignAppend(others: seq<Step>, step: Step, token: Uuid)
    requires Foreign(others, token) && ForeignStep(step, token)
    ensures Foreign(others + [step], token)
  {
    forall i | 0 <= i < |others + [step]| ensures ForeignStep((others + [step])[i], token) {
      if i < |others| {
        assert ForeignStep(others[i], token);
      }
    }
  }

  ghost predicate AllUnder(messages: map<Uuid, Message>, token: Uuid) {
    forall id :: id in messages ==> NamedUnder(messages[id], id, token)
  }

  ghost predicate NamedUnder(m: Message, id: Uuid, token: Uuid) {
    m.id == id && m.leaseToken == token
  }

  lemma LeaseLeavesSnapshots(before: Table, after: Table, messages: map<Uuid, Message>, step: Step)
    requires step.Lease? && step.maxItems >= 0 && LeaseTaken(before, after, messages, step)
    ensures SnapshotsHold(after, messages, step.token)
    ensures AllUnder(messages, step.token)
  {
    forall id | id in messages
      ensures messages[id].id == id && messages[id].leaseToken == step.token
      ensures id in after && after[id].attempts == messages[id].attempts
    {
      assert RowTaken(before[id], after[id], messages[id], id, step);
    }
  }

  // The last statement of the trace is the last step of the table.
  lemma {:induction false} LastStep(trace: seq<Step>, step: Step, rows: Table, after: Table)
    requires rows == ApplyAll(map[], trace) && after == ApplyAll(map[], trace + [step])
    ensures after == Apply(rows, step)
  {
    ApplyAllSplit(map[], trace, [step]);
    assert [step][1..] == [];
    assert ApplyAll(Apply(rows, step), []) == Apply(rows, step);
  }

  // The lease, committed after the statements of others, handed out exactly these messages.
  ghost predicate LeaseHandsOut(before: Table, others: seq<Step>, step: Step, messages: map<Uuid, Message>) {
    && step.Lease? && step.maxItems >= 0
    && LeaseTaken(ApplyAll(before, others), Apply(ApplyAll(before, others), step), messages, step)
  }

  lemma {:induction false} LeaseOpens(
    before: Table, trace: seq<Step>, others: seq<Step>, mid: Table, step: Step, after: Table,
    messages: map<Uuid, Message>, report: Report)
    requires step.Lease? && step.maxItems >= 0 && Foreign(others, step.token)
    requires mid == ApplyAll(map[], trace) && after == ApplyAll(map[], trace + [step])
    requires mid == ApplyAll(before, others) && LeaseTaken(mid, after, messages, step)
    ensures AllUnder(messages, step.token)
    ensures SeenThrough(before, others + [step], after, step.token, messages, report, report, {}, {})
    ensures LeaseHandsOut(before, others, step, messages)
  {
    LastStep(trace, step, mid, after);
    LeaseLeavesSnapshots(mid, after, messages, step);
    LeaseSeenThrough(before, others, mid, step, after, messages, report);
  }

  // The table as the last statement found it.
  ghost function RowsBeforeLast(before: Table, committed: seq<Step>): Table
    requires |committed| > 0
    decreases |committed|
  {
    if |committed| == 1 then before else RowsBeforeLast(Apply(before, committed[0]), committed[1..])
  }

  // The rows the last statement removed.
  ghost function PurgedLast(before: Table, committed: seq<Step>): int
    requires |committed| > 0
  {
    |RowsBeforeLast(before, committed)| - |ApplyAll(before, committed)|
  }

  // What a tenant's cycle reports when no call of it failed: every message its lease handed
  // out, and no other, was completed under the token, each delivered or failed and only failures
  // dead letters; its last statement is its purge.
  ghost predicate TenantReport(
    before: Table, committed: seq<Step>, token: Uuid, messages: map<Uuid, Message>, r: Report)
  {
    && Counts(r, TallyUnder(before, committed, token))
    && CompletedUnder(before, committed, token) == messages.Keys
    && r.leased == |messages| == r.delivered + r.failed
    && r.deadLettered <= r.failed
    && r.tenantFailures == 0
    && |committed| > 0 && committed[|committed| - 1].Cleanup?
    && r.cleanedOutboxRows == PurgedLast(before, committed)
  }

  lemma {:induction false} PurgedLater(before: Table, a: seq<Step>, mid: Table, b: seq<Step>)
    requires mid == ApplyAll(before, a) && |b| > 0
    ensures RowsBeforeLast(before, a + b) == RowsBeforeLast(mid, b)
    ensures (a + b)[|a + b| - 1] == b[|b| - 1]
    decreases |a|
  {
    if |a| == 0 {
      assert a + b == b;
    } else {
      assert (a + b)[0] == a[0] && (a + b)[1..] == a[1..] + b;
      PurgedLater(Apply(before, a[0]), a[1..], mid, b);
    }
  }

  lemma {:induction false} CycleStops(
    before: Table, a: seq<Step>, mid: Table, b: seq<Step>, after: Table, token: Uuid)
    requires mid == ApplyAll(before, a) && after == ApplyAll(mid, b)
    requires CompletedUnder(before, a, token) == {}
    ensures after == ApplyAll(before, a + b)
    ensures CompletedUnder(before, a + b, token) == CompletedUnder(mid, b, token)
  {
    ApplyAllSplit(before, a, b);
    CompletedSplit(before, a, b, token);
  }

  ghost predicate WorldsOk(worlds: nat -> World, tokens: nat -> Uuid, config: Config) {
    forall k :: WorldOk(worlds(k), tokens(k), config)
  }

  lemma StillFirst(first: seq<Step>, marks: seq<Step>, rest: seq<Step>)
    ensures first <= first + marks + rest
    ensures |rest| > 0 ==> (first + marks + rest)[|first + marks + rest| - 1] == rest[|rest| - 1]
  {
  }

  // What the purges that close a cycle add to its report.
  ghost predicate Closes(marked: Table, rest: seq<Step>, processed: Report, r: Report) {
    && |rest| > 0 && rest[|rest| - 1].Cleanup?
    && r.delivered == processed.delivered && r.failed == processed.failed && r.deadLettered == processed.deadLettered
    && r.leased == processed.leased && r.tenantFailures == processed.tenantFailures
    && r.cleanedOutboxRows == processed.cleanedOutboxRows + PurgedLast(marked, rest)
  }

  lemma {:induction false} RestSeenThrough(
    before: Table, committed: seq<Step>, marked: Table, rest: seq<Step>, after: Table, token: Uuid,
    messages: map<Uuid, Message>, from: Report, to: Report, published: set<Uuid>, seen: set<Uuid>)
    requires SeenThrough(before, committed, marked, token, messages, from, to, published, seen)
    requires Foreign(rest, token) && after == ApplyAll(marked, rest)
    ensures SeenThrough(before, committed + rest, after, token, messages, from, to, published, seen)
  {
    ForeignSeenThrough(marked, rest, token, messages, to);
    SeenThroughJoins(before, committed, marked, rest, after, token, messages, from, to, to, published, {}, seen, {});
    assert published + {} == published && seen + {} == seen;
  }

  lemma {:induction false} CycleCloses(
    before: Table, committed: seq<Step>, marked: Table, rest: seq<Step>, after: Table, token: Uuid,
    messages: map<Uuid, Message>, start: Report, processed: Report, r: Result<Report, StoreError>,
    published: set<Uuid>)
    requires Opened(start, |messages|)
    requires SeenThrough(before, committed, marked, token, messages, start, processed, published, messages.Keys)
    requires Foreign(rest, token) && after == ApplyAll(marked, rest)
    requires r.Success? ==> Closes(marked, rest, processed, r.value)
    ensures after == ApplyAll(before, committed + rest)
    ensures r.Success? ==>
      && TenantReport(before, committed + rest, token, messages, r.value)
      && r.value.delivered == |published|
  {
    RestSeenThrough(before, committed, marked, rest, after, token, messages, start, processed,
                    published, messages.Keys);
    DeadLettersAreFailures(before, committed + rest, token);
    assert |messages| == |messages.Keys|;
    if r.Success? {
      PurgedLater(before, committed, marked, rest);
    }
  }

  ghost predicate WorldOk(world: World, token: Uuid, config: Config) {
    (forall n :: Foreign(world.Others(n), token)) && JitterOk(world, config)
  }

  ghost predicate JitterOk(world: World, config: Config) {
    config.retryJitterMs > 0 ==> forall n :: world.Jitter(n) < config.retryJitterMs
  }

  // ----- what a worker does under one lease token, in the order it does it

  // A publish of the row has returned Ok; a lease or completion of ours has committed.
  datatype Event = Publishes(id: Uuid) | Commits(step: Step)

  ghost function OwnEvents(steps: seq<Step>, token: Uuid): (events: seq<Event>)
    ensures |events| <= |steps|
    decreases |steps|
  {
    if |steps| == 0 then []
    else (if ForeignStep(steps[0], token) then [] else [Commits(steps[0])]) + OwnEvents(steps[1..], token)
  }

  lemma {:induction false} OwnEventsSplit(a: seq<Step>, b: seq<Step>, token: Uuid)
    ensures OwnEvents(a + b, token) == OwnEvents(a, token) + OwnEvents(b, token)
    decreases |a|
  {
    if |a| == 0 {
      assert a + b == b;
    } else {
      var first := if ForeignStep(a[0], token) then [] else [Commits(a[0])];
      assert (a + b)[0] == a[0] && (a + b)[1..] == a[1..] + b;
      OwnEventsSplit(a[1..], b, token);
      EventsGrow(first, OwnEvents(a[1..], token), OwnEvents(b, token));
    }
  }

  lemma {:induction false} ForeignHasNoEvents(steps: seq<Step>, token: Uuid)
    requires Foreign(steps, token)
    ensures |OwnEvents(steps, token)| == 0
    decreases |steps|
  {
    if |steps| > 0 {
      assert ForeignStep(steps[0], token);
      ForeignHasNoEvents(steps[1..], token);
    }
  }

  lemma {:induction false} RestHasNoEvents(steps: seq<Step>, rest: seq<Step>, token: Uuid)
    requires Foreign(rest, token)
    ensures OwnEvents(steps + rest, token) == OwnEvents(steps, token)
  {
    OwnEventsSplit(steps, rest, token);
    ForeignHasNoEvents(rest, token);
  }

  // One statement of ours after statements of others is the one event.
  lemma {:induction false} OneEvent(others: seq<Step>, step: Step, token: Uuid)
    requires Foreign(others, token) && !ForeignStep(step, token)
    ensures OwnEvents(others + [step], token) == [Commits(step)]
  {
    OwnEventsSplit(others, [step], token);
    ForeignHasNoEvents(others, token);
    assert [step][1..] == [];
  }

  // Every event is a statement of the stretch.
  lemma {:induction false} EventIsCommitted(steps: seq<Step>, token: Uuid, e: Event)
    requires e in OwnEvents(steps, token)
    ensures e.Commits? && e.step in steps && !ForeignStep(e.step, token)
    decreases |steps|
  {
    if !ForeignStep(steps[0], token) && e == Commits(steps[0]) {
    } else {
      EventIsCommitted(steps[1..], token, e);
    }
  }

  ghost function PublishEvents(ids: seq<Uuid>): (events: seq<Event>)
    ensures |events| == |ids|
    ensures forall k :: 0 <= k < |ids| ==> events[k] == Publishes(ids[k])
  {
    seq(|ids|, k requires 0 <= k < |ids| => Publishes(ids[k]))
  }

  lemma EventsGrow(before: seq<Event>, a: seq<Event>, b: seq<Event>)
    ensures before + a + b == before + (a + b)
  {
  }

  lemma PublishEventsGrow(ids: seq<Uuid>, id: Uuid)
    ensures PublishEvents(ids + [id]) == PublishEvents(ids) + [Publishes(id)]
  {
  }

  // ----- the one store call an outcome leads to

  function FailureOf(config: Config, m: Message, kind: Publisher.ErrorKind, message: string, world: World, n: nat):
    FailureContext
    requires config.retryJitterMs > 0 ==> world.Jitter(n) < config.retryJitterMs
  {
    var backoff := Publisher.RetryBackoffWithJitter(config.retryBackoffSeconds, config.retryJitterMs, world.Jitter(n));
    FailureContext(if Publisher.IsTransient(kind) then Transient else Terminal, m.leaseToken, m.leaseOwner,
                   world.Clock(n), Publisher.KindText(kind) + ": " + message, config.maxAttempts,
                   backoff * MILLISECOND)
  }

  // The mark an outcome asks for, in its columns: under the lease of the message and at the
  // clock of the call; a failure names its kind and its message, retries only a transient one,
  // and backs off, in microseconds, by the configured base and a jitter below its bound.
  ghost predicate MarkAsked(step: Step, config: Config, auth: Auth, m: Message, outcome: PublishOutcome, now: Time) {
    match outcome
    case Ok => step == MarkDelivered(auth, m.id, m.leaseToken, m.leaseOwner, now)
    case Err(kind, message) =>
      && step.MarkFailed? && step.auth == auth && step.id == m.id
      && FailureAsked(step.failure, config, m, kind, message, now)
  }

  ghost predicate FailureAsked(
    f: FailureContext, config: Config, m: Message, kind: Publisher.ErrorKind, message: string, now: Time)
  {
    && f.leaseToken == m.leaseToken && f.leaseOwner == m.leaseOwner && f.now == now
    && (f.classification == Transient <==> kind == Publisher.TransientError)
    && f.errorMessage == (match kind
                          case TransientError => "Transient: "
                          case Permanent => "Permanent: "
                          case Unsupported => "Unsupported: "
                          case Serialization => "Serialization: ") + message
    && f.maxAttempts == config.maxAttempts
    && BackedOff(f.retryBackoff, config.retryBackoffSeconds, config.retryJitterMs)
  }

  ghost predicate BackedOff(backoff: Time, seconds: int, jitterMs: nat) {
    && (if seconds > 0 then seconds * 1_000_000 else 0) <= backoff
    && (if jitterMs == 0 then backoff == if seconds > 0 then seconds * 1_000_000 else 0
        else backoff < (if seconds > 0 then seconds * 1_000_000 else 0) + jitterMs * 1000)
  }

  lemma MarkIsAsked(config: Config, auth: Auth, m: Message, outcome: PublishOutcome, world: World, n: nat)
    requires config.retryJitterMs > 0 ==> world.Jitter(n) < config.retryJitterMs
    ensures MarkAsked(MarkOf(config, auth, m, outcome, world, n), config, auth, m, outcome, world.Clock(n))
  {
  }

  function MarkOf(config: Config, auth: Auth, m: Message, outcome: PublishOutcome, world: World, n: nat): Step
    requires config.retryJitterMs > 0 ==> world.Jitter(n) < config.retryJitterMs
  {
    match outcome
    case Ok => MarkDelivered(auth, m.id, m.leaseToken, m.leaseOwner, world.Clock(n))
    case Err(kind, message) => MarkFailed(auth, m.id, FailureOf(config, m, kind, message, world, n))
  }

  // The n-th call of the cycle made this mark, as the outcome and the configuration ask for it.
  ghost predicate MarkMade(
    e: Event, n: nat, config: Config, auth: Auth, messages: map<Uuid, Message>, world: World)
    requires JitterOk(world, config)
  {
    && !world.Fails(n)
    && e.Commits? && Completes(e.step) && CompletedId(e.step) in messages
    && var m := messages[CompletedId(e.step)]; e.step == MarkOf(config, auth, m, world.Publish(m), world, n)
  }

  // The marks, each by its own call, from the one after the lease on.
  ghost predicate MarksMade(
    marks: seq<Event>, config: Config, auth: Auth, messages: map<Uuid, Message>, world: World)
    requires JitterOk(world, config)
    decreases |marks|
  {
    |marks| == 0 ||
    var last := |marks| - 1;
    && MarkMade(marks[last], |marks|, config, auth, messages, world)
    && MarksMade(marks[..last], config, auth, messages, world)
  }

  lemma {:induction false} EachMarkIsMade(
    marks: seq<Event>, q: nat, config: Config, auth: Auth, messages: map<Uuid, Message>, world: World)
    requires JitterOk(world, config) && MarksMade(marks, config, auth, messages, world) && q < |marks|
    ensures MarkMade(marks[q], 1 + q, config, auth, messages, world)
    decreases |marks|
  {
    if q < |marks| - 1 {
      EachMarkIsMade(marks[..|marks| - 1], q, config, auth, messages, world);
    }
  }

  // Up to the n-th call.
  ghost predicate MarksSoFar(
    steps: seq<Step>, token: Uuid, n: nat, config: Config, auth: Auth, messages: map<Uuid, Message>, world: World)
    requires JitterOk(world, config)
  {
    n == 1 + |OwnEvents(steps, token)| && MarksMade(OwnEvents(steps, token), config, auth, messages, world)
  }

  lemma OneUnseen(messages: map<Uuid, Message>, seen: set<Uuid>, id: Uuid)
    requires seen <= messages.Keys && id in messages && id !in seen
    ensures 1 + |seen| <= |messages|
  {
    Window.SubsetSize(seen + {id}, messages.Keys);
    assert |messages| == |messages.Keys|;
  }

  lemma {:induction false} OneMoreMark(
    steps: seq<Step>, more: seq<Step>, token: Uuid, n: nat, config: Config, auth: Auth, m: Message,
    messages: map<Uuid, Message>, world: World)
    requires JitterOk(world, config) && MarksSoFar(steps, token, n, config, auth, messages, world)
    requires m.id in messages && messages[m.id] == m && !world.Fails(n)
    requires OwnEvents(more, token) == [Commits(MarkOf(config, auth, m, world.Publish(m), world, n))]
    ensures MarksSoFar(steps + more, token, n + 1, config, auth, messages, world)
  {
    var marks, mark := OwnEvents(steps, token), Commits(MarkOf(config, auth, m, world.Publish(m), world, n));
    OwnEventsSplit(steps, more, token);
    assert MarkMade(mark, n, config, auth, messages, world);
    assert (marks + [mark])[..|marks|] == marks;
  }

  lemma {:induction false} NoMoreMarks(
    steps: seq<Step>, more: seq<Step>, token: Uuid, n: nat, config: Config, auth: Auth,
    messages: map<Uuid, Message>, world: World)
    requires JitterOk(world, config) && MarksSoFar(steps, token, n, config, auth, messages, world)
    requires |OwnEvents(more, token)| == 0
    ensures MarksSoFar(steps + more, token, n, config, auth, messages, world)
  {
    OwnEventsSplit(steps, more, token);
    assert OwnEvents(steps + more, token) == OwnEvents(steps, token);
  }

  // ----- publishing a batch

  // The outcomes answer exactly these messages, once each, in the order they came in.
  ghost predicate Answers(
    completed: seq<(Message, PublishOutcome)>, ids: set<Uuid>, messages: map<Uuid, Message>, world: World)
    decreases |completed|
  {
    if |completed| == 0 then ids == {}
    else
      var (m, outcome) := completed[0];
      && m.id in ids && m.id in messages && m == messages[m.id] && outcome == world.Publish(m)
      && Answers(completed[1..], ids - {m.id}, messages, world)
  }

  lemma {:induction false} AnswersOneMore(
    completed: seq<(Message, PublishOutcome)>, ids: set<Uuid>, messages: map<Uuid, Message>, world: World, id: Uuid)
    requires Answers(completed, ids, messages, world) && id !in ids
    requires id in messages && messages[id].id == id
    ensures Answers(completed + [(messages[id], world.Publish(messages[id]))], ids + {id}, messages, world)
    decreases |completed|
  {
    var last := (messages[id], world.Publish(messages[id]));
    if |completed| == 0 {
      assert [last][1..] == [] && {id} - {id} == {};
      assert completed + [last] == [last] && ids + {id} == {id};
    } else {
      var first := completed[0].0.id;
      AnswersOneMore(completed[1..], ids - {first}, messages, world, id);
      assert (completed + [last])[1..] == completed[1..] + [last];
      assert ids - {first} + {id} == ids + {id} - {first};
    }
  }

  ghost function Members(ids: seq<Uuid>): set<Uuid> { set id | id in ids }

  lemma MembersOneMore(ids: seq<Uuid>, more: seq<Uuid>)
    ensures Members(ids + more) == Members(ids) + Members(more)
  {
  }

  // The messages outside the remaining ones have been answered; those answered Ok are listed.
  ghost predicate Answered(
    completed: seq<(Message, PublishOutcome)>, publishes: seq<Uuid>, remaining: set<Uuid>,
    messages: map<Uuid, Message>, world: World)
  {
    && remaining <= messages.Keys
    && Answers(completed, messages.Keys - remaining, messages, world)
    && Members(publishes) == Published(messages, world) - remaining
  }

  lemma NothingAnswered(messages: map<Uuid, Message>, world: World)
    ensures Answered([], [], messages.Keys, messages, world)
  {
    assert messages.Keys - messages.Keys == {} && Published(messages, world) - messages.Keys == {};
    assert Members([]) == {};
  }

  lemma AnsweredOneMore(
    completed: seq<(Message, PublishOutcome)>, publishes: seq<Uuid>, remaining: set<Uuid>,
    messages: map<Uuid, Message>, token: Uuid, world: World, id: Uuid)
    requires Answered(completed, publishes, remaining, messages, world) && id in remaining
    requires AllUnder(messages, token)
    ensures Answered(completed + [(messages[id], world.Publish(messages[id]))],
                     publishes + (if world.Publish(messages[id]).Ok? then [id] else []),
                     remaining - {id}, messages, world)
  {
    assert NamedUnder(messages[id], id, token);
    AnswersOneMore(completed, messages.Keys - remaining, messages, world, id);
    OneFewer(messages, world, remaining, id);
    var more := if world.Publish(messages[id]).Ok? then [id] else [];
    MembersOneMore(publishes, more);
    assert Members(more) == if world.Publish(messages[id]).Ok? then {id} else {};
  }

  lemma {:induction false} AllAnswered(
    completed: seq<(Message, PublishOutcome)>, publishes: seq<Uuid>, messages: map<Uuid, Message>, world: World)
    requires Answered(completed, publishes, {}, messages, world)
    ensures Answers(completed, messages.Keys, messages, world) && Members(publishes) == Published(messages, world)
  {
    assert messages.Keys - {} == messages.Keys && Published(messages, world) - {} == Published(messages, world);
  }

  // Once these outcomes are applied too, every message has been seen through.
  ghost predicate Leads(
    rest: seq<(Message, PublishOutcome)>, published: set<Uuid>, seen: set<Uuid>, messages: map<Uuid, Message>,
    world: World)
    decreases |rest|
  {
    if |rest| == 0 then seen == messages.Keys && published == Published(messages, world)
    else
      var m := rest[0].0;
      && m.id in messages && m == messages[m.id] && m.id !in seen && published <= seen
      && Leads(rest[1..], published + PublishedOne(m, world), seen + {m.id}, messages, world)
  }

  function PublishedOne(m: Message, world: World): set<Uuid> {
    if world.Publish(m).Ok? then {m.id} else {}
  }

  lemma {:induction false} AnswersLead(
    rest: seq<(Message, PublishOutcome)>, ids: set<Uuid>, messages: map<Uuid, Message>, world: World)
    requires Answers(rest, ids, messages, world) && ids <= messages.Keys
    ensures Leads(rest, Published(messages, world) - ids, messages.Keys - ids, messages, world)
    decreases |rest|
  {
    if |rest| == 0 {
      assert messages.Keys - ids == messages.Keys && Published(messages, world) - ids == Published(messages, world);
    } else {
      var m := rest[0].0;
      AnswersLead(rest[1..], ids - {m.id}, messages, world);
      OneFewer(messages, world, ids, m.id);
    }
  }

  lemma {:induction false} AllLead(
    completed: seq<(Message, PublishOutcome)>, messages: map<Uuid, Message>, world: World)
    requires Answers(completed, messages.Keys, messages, world)
    ensures Leads(completed, {}, {}, messages, world)
  {
    AnswersLead(completed, messages.Keys, messages, world);
    assert messages.Keys - messages.Keys == {} && Published(messages, world) - messages.Keys == {};
  }

  // Until then, those seen through are messages of the batch.
  lemma {:induction false} LeadsWithin(
    rest: seq<(Message, PublishOutcome)>, published: set<Uuid>, seen: set<Uuid>, messages: map<Uuid, Message>,
    world: World)
    requires Leads(rest, published, seen, messages, world)
    ensures published <= Published(messages, world) && seen <= messages.Keys
    decreases |rest|
  {
    if |rest| > 0 {
      LeadsWithin(rest[1..], published + PublishedOne(rest[0].0, world), seen + {rest[0].0.id}, messages, world);
    }
  }

  // ----- one tenant's cycle within a run, with the statements committed while it ran

  // The n-th store call was the last, or the one before the purge of the key records.
  datatype Cycle = Cycle(
    auth: Auth, token: Uuid, before: Table, committed: seq<Step>, messages: map<Uuid, Message>,
    publishes: seq<Uuid>, n: nat, result: Result<Report, StoreError>)

  function OpeningLease(auth: Auth, token: Uuid, world: World, config: Config): Step {
    Lease(auth, world.Clock(0), config.leaseFor, config.batchSize, world.locked, token)
  }

  function ClosingPurge(auth: Auth, n: nat, world: World, config: Config): Step {
    Cleanup(auth, world.Clock(n) - config.deliveredRetention, world.Clock(n + 1) - config.deadLetterRetention)
  }

  function RecordsLeft(auth: Auth, n: nat, world: World, config: Config): map<Keys.RecordKey, Keys.Record> {
    Keys.Remaining(world.records, auth.workspace, world.Clock(n + 2) - config.idempotencyRetention)
  }

  // The cycle's messages are what its own lease handed out.
  ghost predicate Opens(c: Cycle, world: World, config: Config) {
    LeaseHandsOut(c.before, world.Others(0), OpeningLease(c.auth, c.token, world, config), c.messages)
  }

  // The lease came first, and each mark by its own call; the last call came after them.
  ghost predicate LeasesFirst(c: Cycle, world: World, config: Config)
    requires JitterOk(world, config)
  {
    var own := OwnEvents(c.committed, c.token);
    && !world.Fails(0)
    && world.Others(0) + [OpeningLease(c.auth, c.token, world, config)] <= c.committed
    && |own| > 0 && own[0] == Commits(OpeningLease(c.auth, c.token, world, config))
    && MarksMade(own[1..], config, c.auth, c.messages, world)
    && c.n == |own|
  }

  // The order of a cycle: its lease, every publish, and only then its marks.
  ghost function LogOf(c: Cycle): seq<Event> {
    var own := OwnEvents(c.committed, c.token);
    if |own| == 0 then [] else [own[0]] + PublishEvents(c.publishes) + own[1..]
  }

  lemma {:induction false} LogOfOpened(
    c: Cycle, first: seq<Step>, lease: Step, rest: seq<Step>, before: seq<Event>, after: seq<Event>)
    requires OwnEvents(first, c.token) == [Commits(lease)] && c.committed == first + rest
    requires after == before + OwnEvents(first, c.token) + PublishEvents(c.publishes) + OwnEvents(rest, c.token)
    ensures after == before + LogOf(c)
  {
    OwnEventsSplit(first, rest, c.token);
    assert OwnEvents(c.committed, c.token)[1..] == OwnEvents(rest, c.token);
  }

  lemma {:induction false} LogOfNothing(c: Cycle, before: seq<Event>)
    requires Foreign(c.committed, c.token)
    ensures before == before + LogOf(c) && before == before + OwnEvents(c.committed, c.token)
  {
    ForeignHasNoEvents(c.committed, c.token);
  }

  ghost predicate NeverOpens(c: Cycle, world: World) {
    c.committed == world.Others(0) && c.messages == map[] && c.publishes == [] && c.n == 0
  }

  // No call failed: every message of the lease was seen through, and both purges ran.
  ghost predicate CameThrough(c: Cycle, world: World, config: Config)
    requires c.result.Success?
  {
    && !world.Fails(c.n) && !world.Fails(c.n + 1)
    && TenantReport(c.before, c.committed, c.token, c.messages, c.result.value)
    && c.result.value.delivered == |Published(c.messages, world)|
    && c.committed[|c.committed| - 1] == ClosingPurge(c.auth, c.n, world, config)
    && c.result.value.cleanedIdempotencyRows == |world.records| - |RecordsLeft(c.auth, c.n, world, config)|
  }

  // The call for this message, not yet marked, would be turned away if made now.
  ghost predicate Refused(
    rows: Table, config: Config, auth: Auth, messages: map<Uuid, Message>, done: set<Uuid>, id: Uuid,
    world: World, n: nat)
    requires JitterOk(world, config)
  {
    && id in messages && id !in done
    && !Succeeds(rows, MarkOf(config, auth, messages[id], world.Publish(messages[id]), world, n))
  }

  // The database failed this call, or the mark it makes was turned away.
  ghost predicate MarkStops(
    rows: Table, config: Config, auth: Auth, messages: map<Uuid, Message>, done: set<Uuid>, world: World, n: nat)
    requires JitterOk(world, config)
  {
    || world.Fails(n)
    || (n <= |messages| && exists id :: Refused(rows, config, auth, messages, done, id, world, n))
  }

  // Why a cycle stopped: its lease, the mark of a message not yet marked, or, once every one
  // has been, one of the purges.
  ghost predicate Stopped(c: Cycle, world: World, config: Config)
    requires JitterOk(world, config)
  {
    || MarkStops(ApplyAll(c.before, c.committed), config, c.auth, c.messages,
                 CompletedUnder(c.before, c.committed, c.token), world, c.n)
    || (c.n > |c.messages| && world.Fails(c.n + 1))
    || (config.batchSize < 0 && c.n == 0)
  }

  // What follows the lease.
  ghost predicate GoesOn(c: Cycle, world: World, config: Config)
    requires JitterOk(world, config)
  {
    && LeasesFirst(c, world, config)
    && Members(c.publishes) == Published(c.messages, world)
    && (if c.result.Success? then CameThrough(c, world, config) else Stopped(c, world, config))
  }

  ghost predicate CycleOk(c: Cycle, world: World, config: Config)
    requires JitterOk(world, config)
  {
    || (Opens(c, world, config) && GoesOn(c, world, config))
    || (NeverOpens(c, world) && c.result.Failure? && Stopped(c, world, config))
  }

  // The lease has handed out these messages.
  ghost predicate Begun(
    auth: Auth, token: Uuid, before: Table, messages: map<Uuid, Message>, first: seq<Step>, mid: Table,
    start: Report, world: World, config: Config)
  {
    && !world.Fails(0)
    && first == world.Others(0) + [OpeningLease(auth, token, world, config)]
    && OwnEvents(first, token) == [Commits(OpeningLease(auth, token, world, config))]
    && Opened(start, |messages|)
    && SeenThrough(before, first, mid, token, messages, start, start, {}, {})
  }

  // All of them have been seen through.
  ghost predicate Marked(
    mid: Table, marks: seq<Step>, marked: Table, token: Uuid, messages: map<Uuid, Message>, start: Report,
    processed: Report, world: World)
  {
    SeenThrough(mid, marks, marked, token, messages, start, processed, Published(messages, world), messages.Keys)
  }

  // Both purges have run.
  ghost predicate Purged(
    auth: Auth, n: nat, marked: Table, rest: seq<Step>, processed: Report, r: Report,
    left: map<Keys.RecordKey, Keys.Record>, world: World, config: Config)
  {
    && !world.Fails(n) && !world.Fails(n + 1)
    && rest == world.Others(n) + [ClosingPurge(auth, n, world, config)]
    && Closes(marked, rest, processed, r)
    && left == RecordsLeft(auth, n, world, config)
    && r.cleanedIdempotencyRows == processed.cleanedIdempotencyRows + |world.records| - |left|
  }

  // A cycle whose lease failed.
  lemma NeverOpened(
    auth: Auth, token: Uuid, before: Table, committed: seq<Step>, r: Result<Report, StoreError>,
    world: World, config: Config) returns (c: Cycle)
    requires JitterOk(world, config) && r.Failure? && committed == world.Others(0)
    requires world.Fails(0) || config.batchSize < 0
    ensures c.auth == auth && c.token == token && c.before == before && c.committed == committed && c.result == r
    ensures CycleOk(c, world, config)
  {
    c := Cycle(auth, token, before, committed, map[], [], 0, r);
  }

  // The events of a cycle are those of its lease and of its marks.
  lemma {:induction false} LeaseThenMarks(
    c: Cycle, first: seq<Step>, mid: Table, marks: seq<Step>, rest: seq<Step>, start: Report,
    world: World, config: Config)
    requires JitterOk(world, config) && c.committed == first + marks + rest
    requires Begun(c.auth, c.token, c.before, c.messages, first, mid, start, world, config)
    requires MarksSoFar(marks, c.token, c.n, config, c.auth, c.messages, world) && |OwnEvents(rest, c.token)| == 0
    ensures LeasesFirst(c, world, config)
  {
    OwnEventsSplit(first + marks, rest, c.token);
    OwnEventsSplit(first, marks, c.token);
    assert OwnEvents(c.committed, c.token)[1..] == OwnEvents(marks, c.token);
    StillFirst(first, marks, rest);
  }

  // A cycle whose batch was seen through and whose purges did or did not come through.
  lemma {:induction false} ClosedOk(
    c: Cycle, marked: Table, rest: seq<Step>, processed: Report, left: map<Keys.RecordKey, Keys.Record>,
    world: World, config: Config)
    requires JitterOk(world, config) && LeasesFirst(c, world, config)
    requires |rest| > 0 ==> |c.committed| > 0 && c.committed[|c.committed| - 1] == rest[|rest| - 1]
    requires Members(c.publishes) == Published(c.messages, world) && c.n == 1 + |c.messages|
    requires c.result.Failure? ==> world.Fails(c.n) || world.Fails(c.n + 1)
    requires c.result.Success? ==>
      && Purged(c.auth, c.n, marked, rest, processed, c.result.value, left, world, config)
      && TenantReport(c.before, c.committed, c.token, c.messages, c.result.value)
      && c.result.value.delivered == |Published(c.messages, world)| && processed.cleanedIdempotencyRows == 0
    ensures GoesOn(c, world, config)
  {
  }

  lemma {:induction false} LeaseJoinsMarks(
    c: Cycle, first: seq<Step>, mid: Table, marks: seq<Step>, marked: Table, start: Report, processed: Report,
    world: World, config: Config)
    requires Begun(c.auth, c.token, c.before, c.messages, first, mid, start, world, config)
    requires Marked(mid, marks, marked, c.token, c.messages, start, processed, world)
    ensures Marked(c.before, first + marks, marked, c.token, c.messages, start, processed, world)
  {
    var published := Published(c.messages, world);
    SeenThroughJoins(c.before, first, mid, marks, marked, c.token, c.messages, start, start,
                     processed, {}, published, {}, c.messages.Keys);
    assert {} + published == published && {} + c.messages.Keys == c.messages.Keys;
  }

  // The stretches of a cycle that ran to its end, joined.
  lemma {:induction false} CycleEnds(
    c: Cycle, first: seq<Step>, mid: Table, marks: seq<Step>, marked: Table, rest: seq<Step>, after: Table,
    start: Report, processed: Report, left: map<Keys.RecordKey, Keys.Record>, world: World, config: Config)
    requires JitterOk(world, config) && c.committed == first + marks + rest
    requires Begun(c.auth, c.token, c.before, c.messages, first, mid, start, world, config)
    requires Marked(mid, marks, marked, c.token, c.messages, start, processed, world)
    requires MarksSoFar(marks, c.token, c.n, config, c.auth, c.messages, world) && c.n == 1 + |c.messages|
    requires Foreign(rest, c.token) && after == ApplyAll(marked, rest)
    requires Members(c.publishes) == Published(c.messages, world)
    requires c.result.Failure? ==> world.Fails(c.n) || world.Fails(c.n + 1)
    requires c.result.Success? ==>
      Purged(c.auth, c.n, marked, rest, processed, c.result.value, left, world, config)
    ensures GoesOn(c, world, config)
    ensures after == ApplyAll(c.before, c.committed)
  {
    LeaseJoinsMarks(c, first, mid, marks, marked, start, processed, world, config);
    CycleCloses(c.before, first + marks, marked, rest, after, c.token, c.messages, start, processed, c.result,
                Published(c.messages, world));
    ForeignHasNoEvents(rest, c.token);
    LeaseThenMarks(c, first, mid, marks, rest, start, world, config);
    StillFirst(first, marks, rest);
    ClosedOk(c, marked, rest, processed, left, world, config);
  }

  // A cycle one of whose marks failed.
  lemma {:induction false} CycleBreaks(
    auth: Auth, token: Uuid, before: Table, messages: map<Uuid, Message>, first: seq<Step>, mid: Table,
    marks: seq<Step>, marked: Table, publishes: seq<Uuid>, n: nat, r: Result<Report, StoreError>, start: Report,
    world: World, config: Config) returns (c: Cycle)
    requires JitterOk(world, config) && r.Failure?
    requires Begun(auth, token, before, messages, first, mid, start, world, config)
    requires marked == ApplyAll(mid, marks) && Members(publishes) == Published(messages, world)
    requires MarksSoFar(marks, token, n, config, auth, messages, world)
    requires MarkStops(marked, config, auth, messages, CompletedUnder(mid, marks, token), world, n)
    ensures c == Cycle(auth, token, before, first + marks, messages, publishes, n, r)
    ensures GoesOn(c, world, config)
    ensures marked == ApplyAll(before, c.committed)
  {
    c := Cycle(auth, token, before, first + marks, messages, publishes, n, r);
    CycleStops(before, first, mid, marks, marked, token);
    assert c.committed == first + marks + [];
    LeaseThenMarks(c, first, mid, marks, [], start, world, config);
  }

  // The cycles follow one another over the table.
  ghost predicate Chained(before: Table, cycles: seq<Cycle>, after: Table)
    decreases |cycles|
  {
    if |cycles| == 0 then after == before
    else
      var last := cycles[|cycles| - 1];
      Chained(before, cycles[..|cycles| - 1], last.before) && after == ApplyAll(last.before, last.committed)
  }

  // What the cycles that came through did: the rows handed out to them, completed under their
  // tokens and purged by them, and the key records purged.
  datatype Sums = Sums(leased: nat, tally: Tally, rows: int, records: int)

  predicate SumsAdd(s: Sums, a: Sums, b: Sums) {
    && s.leased == a.leased + b.leased
    && s.tally.delivered == a.tally.delivered + b.tally.delivered
    && s.tally.failed == a.tally.failed + b.tally.failed
    && s.tally.deadLettered == a.tally.deadLettered + b.tally.deadLettered
    && s.rows == a.rows + b.rows && s.records == a.records + b.records
  }

  ghost function CycleSums(c: Cycle): Sums {
    if c.result.Failure? || |c.committed| == 0 then Sums(0, Tally(0, 0, 0), 0, 0)
    else
      Sums(|c.messages|, TallyUnder(c.before, c.committed, c.token),
           PurgedLast(c.before, c.committed), c.result.value.cleanedIdempotencyRows)
  }

  ghost function OkSums(cycles: seq<Cycle>): Sums
    decreases |cycles|
  {
    if |cycles| == 0 then Sums(0, Tally(0, 0, 0), 0, 0)
    else
      var a, b := OkSums(cycles[..|cycles| - 1]), CycleSums(cycles[|cycles| - 1]);
      Sums(a.leased + b.leased,
           Tally(a.tally.delivered + b.tally.delivered, a.tally.failed + b.tally.failed,
                 a.tally.deadLettered + b.tally.deadLettered),
           a.rows + b.rows, a.records + b.records)
  }

  predicate Totals(r: Report, s: Sums) {
    && r.leased == s.leased && Counts(r, s.tally)
    && r.cleanedOutboxRows == s.rows && r.cleanedIdempotencyRows == s.records
  }

  ghost function FailedCycles(cycles: seq<Cycle>): set<nat> {
    set i: nat | i < |cycles| && cycles[i].result.Failure?
  }

  ghost function Tenants(cycles: seq<Cycle>): multiset<Uuid> {
    multiset(seq(|cycles|, i requires 0 <= i < |cycles| => cycles[i].auth.workspace))
  }

  // Every cycle of the run is one, for its tenant, under its own token.
  ghost predicate AllCycles(cycles: seq<Cycle>, worlds: nat -> World, tokens: nat -> Uuid, config: Config)
    requires WorldsOk(worlds, tokens, config)
    decreases |cycles|
  {
    |cycles| == 0 ||
    var k := |cycles| - 1;
    CycleOfRun(cycles[k], worlds(k), tokens(k), config) && AllCycles(cycles[..k], worlds, tokens, config)
  }

  ghost predicate CycleOfRun(c: Cycle, world: World, token: Uuid, config: Config)
    requires JitterOk(world, config)
  {
    c.token == token && c.auth.actor == config.workerInstanceId && CycleOk(c, world, config)
  }

  lemma {:induction false} AllCyclesGoOn(
    cycles: seq<Cycle>, c: Cycle, next: seq<Cycle>, worlds: nat -> World, tokens: nat -> Uuid, config: Config)
    requires WorldsOk(worlds, tokens, config) && AllCycles(cycles, worlds, tokens, config) && next == cycles + [c]
    requires CycleOfRun(c, worlds(|cycles|), tokens(|cycles|), config)
    ensures AllCycles(next, worlds, tokens, config)
  {
    assert next[..|next| - 1] == cycles;
  }

  // What a run reports of its cycles.
  ghost predicate RunReport(cycles: seq<Cycle>, r: Report) {
    && Totals(r, OkSums(cycles))
    && r.leased == r.delivered + r.failed && r.deadLettered <= r.failed
    && r.tenantFailures == |FailedCycles(cycles)|
  }

  lemma OneMoreFailure(cycles: seq<Cycle>, c: Cycle)
    ensures |FailedCycles(cycles + [c])| == |FailedCycles(cycles)| + (if c.result.Failure? then 1 else 0)
  {
    var before, after := FailedCycles(cycles), FailedCycles(cycles + [c]);
    assert after == if c.result.Failure? then before + {|cycles|} else before;
  }

  // Every assigned tenant either remains to be served or has had its cycle.
  ghost predicate Serves(tenants: multiset<Uuid>, remaining: multiset<Uuid>, cycles: seq<Cycle>) {
    remaining + Tenants(cycles) == tenants
  }

  lemma ServesOneMore(tenants: multiset<Uuid>, remaining: multiset<Uuid>, cycles: seq<Cycle>, c: Cycle)
    requires Serves(tenants, remaining, cycles) && c.auth.workspace in remaining
    ensures Serves(tenants, remaining - multiset{c.auth.workspace}, cycles + [c])
  {
    var s := seq(|cycles|, i requires 0 <= i < |cycles| => cycles[i].auth.workspace);
    assert seq(|cycles| + 1, i requires 0 <= i < |cycles| + 1 => (cycles + [c])[i].auth.workspace)
        == s + [c.auth.workspace];
  }

  // The report of the run after one more cycle.
  function Added(run: Report, tenant: Result<Report, StoreError>): Report {
    match tenant
    case Success(t) => Report(
      run.leased + t.leased, run.delivered + t.delivered, run.failed + t.failed, run.deadLettered + t.deadLettered,
      run.cleanedOutboxRows + t.cleanedOutboxRows, run.cleanedIdempotencyRows + t.cleanedIdempotencyRows,
      run.tenantFailures)
    case Failure(_) => run.(tenantFailures := run.tenantFailures + 1)
  }

  lemma {:induction false} ChainGoesOn(before: Table, cycles: seq<Cycle>, mid: Table, c: Cycle, after: Table)
    requires Chained(before, cycles, mid) && c.before == mid && after == ApplyAll(mid, c.committed)
    ensures Chained(before, cycles + [c], after)
  {
    assert (cycles + [c])[..|cycles|] == cycles;
  }

  lemma {:induction false} SumsGoOn(cycles: seq<Cycle>, c: Cycle)
    ensures SumsAdd(OkSums(cycles + [c]), OkSums(cycles), CycleSums(c))
  {
    assert (cycles + [c])[..|cycles|] == cycles;
  }

  lemma TenantTotals(c: Cycle, t: Report, sums: Sums)
    requires c.result == Success(t) && TenantReport(c.before, c.committed, c.token, c.messages, t)
    requires sums == CycleSums(c)
    ensures Totals(t, sums)
  {
  }

  lemma TotalsAdd(run: Report, tenant: Report, a: Sums, b: Sums, next: Sums)
    requires Totals(run, a) && Totals(tenant, b) && SumsAdd(next, a, b)
    ensures Totals(Added(run, Success(tenant)), next)
  {
  }

  lemma TotalsGoOn(run: Report, c: Cycle, sums: Sums, next: Sums)
    requires Totals(run, sums) && SumsAdd(next, sums, CycleSums(c))
    requires c.result.Success? ==> TenantReport(c.before, c.committed, c.token, c.messages, c.result.value)
    ensures Totals(Added(run, c.result), next)
    ensures Added(run, c.result).tenantFailures == run.tenantFailures + (if c.result.Failure? then 1 else 0)
  {
    if c.result.Success? {
      TenantTotals(c, c.result.value, CycleSums(c));
      TotalsAdd(run, c.result.value, sums, CycleSums(c), next);
    }
  }

  // The loop over the collected outcomes.
  function AddedUp(outcomes: seq<Result<Report, StoreError>>): Report
    decreases |outcomes|
  {
    if |outcomes| == 0 then Report(0, 0, 0, 0, 0, 0, 0)
    else Added(AddedUp(outcomes[..|outcomes| - 1]), outcomes[|outcomes| - 1])
  }

  ghost function Results(cycles: seq<Cycle>): (rs: seq<Result<Report, StoreError>>)
    ensures |rs| == |cycles|
  {
    if |cycles| == 0 then [] else Results(cycles[..|cycles| - 1]) + [cycles[|cycles| - 1].result]
  }

  lemma ReportGoesOn(cycles: seq<Cycle>, c: Cycle, next: seq<Cycle>, r: Report, r': Report)
    requires RunReport(cycles, r) && next == cycles + [c] && r' == Added(r, c.result)
    requires c.result.Success? ==> TenantReport(c.before, c.committed, c.token, c.messages, c.result.value)
    ensures RunReport(next, r')
  {
    SumsGoOn(cycles, c);
    TotalsGoOn(r, c, OkSums(cycles), OkSums(next));
    OneMoreFailure(cycles, c);
  }

  lemma ReportStarts(none: seq<Cycle>, r: Report)
    requires none == [] && Opened(r, 0)
    ensures RunReport(none, r)
  {
    assert FailedCycles(none) == {};
    assert OkSums(none) == Sums(0, Tally(0, 0, 0), 0, 0);
  }

  // The sum of the outcomes is what a run reports of the cycles they came from.
  lemma {:induction false} OutcomesTotal(
    cycles: seq<Cycle>, outcomes: seq<Result<Report, StoreError>>,
    worlds: nat -> World, tokens: nat -> Uuid, config: Config)
    requires WorldsOk(worlds, tokens, config) && AllCycles(cycles, worlds, tokens, config)
    requires outcomes == Results(cycles)
    ensures RunReport(cycles, AddedUp(outcomes))
    decreases |cycles|
  {
    if |cycles| == 0 {
      ReportStarts(cycles, AddedUp(outcomes));
    } else {
      var k := |cycles| - 1;
      OutcomesTotal(cycles[..k], Results(cycles[..k]), worlds, tokens, config);
      CycleReports(cycles[k], worlds(k), config);
      LastOutcome(cycles, outcomes);
      ReportGoesOn(cycles[..k], cycles[k], cycles, AddedUp(Results(cycles[..k])), AddedUp(outcomes));
    }
  }

  lemma LastOutcome(cycles: seq<Cycle>, outcomes: seq<Result<Report, StoreError>>)
    requires |cycles| > 0 && outcomes == Results(cycles)
    ensures var k := |cycles| - 1;
      && cycles == cycles[..k] + [cycles[k]]
      && AddedUp(outcomes) == Added(AddedUp(Results(cycles[..k])), cycles[k].result)
  {
    var k := |cycles| - 1;
    assert outcomes[..k] == Results(cycles[..k]);
  }

  lemma CycleReports(c: Cycle, world: World, config: Config)
    requires JitterOk(world, config) && CycleOk(c, world, config)
    ensures c.result.Success? ==> TenantReport(c.before, c.committed, c.token, c.messages, c.result.value)
  {
  }

  // The cycles run so far, and the tenants still to be served.
  ghost predicate RunSoFar(
    before: Table, cycles: seq<Cycle>, after: Table, outcomes: seq<Result<Report, StoreError>>,
    tenants: multiset<Uuid>, remaining: multiset<Uuid>, worlds: nat -> World, tokens: nat -> Uuid, config: Config)
    requires WorldsOk(worlds, tokens, config)
  {
    && AllCycles(cycles, worlds, tokens, config)
    && Chained(before, cycles, after)
    && Serves(tenants, remaining, cycles)
    && outcomes == Results(cycles)
  }

  lemma RunStarts(rows: Table, tenants: multiset<Uuid>, worlds: nat -> World, tokens: nat -> Uuid, config: Config)
    returns (none: seq<Cycle>)
    requires WorldsOk(worlds, tokens, config)
    ensures |none| == 0 && RunSoFar(rows, none, rows, [], tenants, tenants, worlds, tokens, config)
  {
    none := [];
    assert Tenants(none) == multiset{};
  }

  lemma {:induction false} RunGoesOn(
    before: Table, cycles: seq<Cycle>, mid: Table, c: Cycle, next: seq<Cycle>, after: Table,
    outcomes: seq<Result<Report, StoreError>>, tenants: multiset<Uuid>, remaining: multiset<Uuid>,
    worlds: nat -> World, tokens: nat -> Uuid, config: Config)
    requires WorldsOk(worlds, tokens, config) && next == cycles + [c]
    requires RunSoFar(before, cycles, mid, outcomes, tenants, remaining, worlds, tokens, config)
    requires c.before == mid && after == ApplyAll(mid, c.committed) && c.auth.workspace in remaining
    requires CycleOfRun(c, worlds(|cycles|), tokens(|cycles|), config)
    ensures RunSoFar(before, next, after, outcomes + [c.result], tenants, remaining - multiset{c.auth.workspace},
                     worlds, tokens, config)
  {
    AllCyclesGoOn(cycles, c, next, worlds, tokens, config);
    ChainGoesOn(before, cycles, mid, c, after);
    ServesOneMore(tenants, remaining, cycles, c);
    assert next[..|next| - 1] == cycles;
  }

  lemma OneOfEach(taken: set<Uuid>)
    ensures multiset(taken) == multiset{} <==> taken == {}
    ensures forall w :: w in multiset(taken) ==> w in taken
  {
    if w :| w in taken {
      assert w in multiset(taken);
    }
  }

  class OutboxWorkerService {
    const config: Config
    const table: OutboxTable
    const keys: Keys.IdempotencyTable
    const partitions: P.PartitionTable
    var leased: set<Uuid>
    ghost var log: seq<Event>

    constructor (config: Config, table: OutboxTable, keys: Keys.IdempotencyTable, partitions: P.PartitionTable)
      ensures this.config == config && this.table == table && this.keys == keys && this.partitions == partitions
      ensures leased == {} && log == []
    {
      this.config := config;
      this.table := table;
      this.keys := keys;
      this.partitions := partitions;
      leased := {};
      log := [];
    }

    // ----- one tenant's cycle

    method ApplyPublishOutcome(auth: Auth, m: Message, outcome: PublishOutcome, world: World, n: nat, report: Report,
                               ghost messages: map<Uuid, Message>)
      returns (r: Result<Report, StoreError>, ghost committed: seq<Step>)
      requires table.Valid()
      requires Foreign(world.Others(n), m.leaseToken)
      requires m.id in messages && messages[m.id] == m && SnapshotsHold(table.rows, messages, m.leaseToken)
      requires config.retryJitterMs > 0 ==> world.Jitter(n) < config.retryJitterMs
      modifies table, this`log
      ensures table.Valid()
      ensures table.trace == old(table.trace) + committed && table.rows == ApplyAll(old(table.rows), committed)
      ensures log == old(log) + OwnEvents(committed, m.leaseToken)
      ensures r.Failure? ==>
        && committed == world.Others(n)
        && |OwnEvents(committed, m.leaseToken)| == 0
        && (world.Fails(n) || !Succeeds(table.rows, MarkOf(config, auth, m, outcome, world, n)))
      ensures r.Success? ==>
        && !world.Fails(n)
        && committed == world.Others(n) + [MarkOf(config, auth, m, outcome, world, n)]
        && OwnEvents(committed, m.leaseToken) == [Commits(MarkOf(config, auth, m, outcome, world, n))]
        && MarkAsked(MarkOf(config, auth, m, outcome, world, n), config, auth, m, outcome, world.Clock(n))
      ensures r.Success? ==>
        SeenThrough(old(table.rows), committed, table.rows, m.leaseToken, messages,
                    report, r.value, if outcome.Ok? then {m.id} else {}, {m.id})
    {
      committed := world.Others(n);
      MarkIsAsked(config, auth, m, outcome, world, n);
      ForeignHasNoEvents(committed, m.leaseToken);
      table.Interfere(world.Others(n));
      if world.Fails(n) {
        return Failure(Database), committed;
      }
      ghost var mid := table.rows;
      match outcome
      case Ok =>
        ghost var step := MarkDelivered(auth, m.id, m.leaseToken, m.leaseOwner, world.Clock(n));
        var done := table.MarkOutboxDelivered(auth, m.id, m.leaseToken, m.leaseOwner, world.Clock(n));
        if done.Failure? {
          return Failure(done.error), committed;
        }
        var counted := report.(delivered := report.delivered + 1);
        CompletionSeenThrough(old(table.rows), committed, mid, step, table.rows, messages, m.leaseToken,
                              report, counted, {m.id});
        TraceGrows(old(table.trace), committed, [step], table.trace);
        OneEvent(committed, step, m.leaseToken);
        log := log + [Commits(step)];
        return Success(counted), committed + [step];
      case Err(kind, message) =>
        var failure := FailureOf(config, m, kind, message, world, n);
        ghost var step := MarkFailed(auth, m.id, failure);
        var done := table.MarkOutboxFailed(auth, m.id, failure);
        if done.Failure? {
          return Failure(done.error), committed;
        }
        var counted := report.(failed := report.failed + 1);
        var exhausted := NextAttempts(m.attempts) >= config.maxAttempts;
        if failure.classification.Terminal? || exhausted {
          counted := counted.(deadLettered := counted.deadLettered + 1);
        }
        CompletionSeenThrough(old(table.rows), committed, mid, step, table.rows, messages, m.leaseToken,
                              report, counted, {});
        TraceGrows(old(table.trace), committed, [step], table.trace);
        OneEvent(committed, step, m.leaseToken);
        log := log + [Commits(step)];
        return Success(counted), committed + [step];
    }

    // Every message is published before any is marked; the answers come in in any order.
    method PublishAll(messages: map<Uuid, Message>, ghost token: Uuid, world: World)
      returns (completed: seq<(Message, PublishOutcome)>, ghost publishes: seq<Uuid>)
      requires AllUnder(messages, token)
      modifies this`log
      ensures Answers(completed, messages.Keys, messages, world)
      ensures Members(publishes) == Published(messages, world)
      ensures log == old(log) + PublishEvents(publishes)
    {
      completed, publishes := [], [];
      var remaining := messages.Keys;
      NothingAnswered(messages, world);
      while remaining != {}
        invariant log == old(log) + PublishEvents(publishes)
        invariant Answered(completed, publishes, remaining, messages, world)
        decreases |remaining|
      {
        var id :| id in remaining;
        var outcome := world.Publish(messages[id]);
        AnsweredOneMore(completed, publishes, remaining, messages, token, world, id);
        completed := completed + [(messages[id], outcome)];
        if outcome.Ok? {
          PublishEventsGrow(publishes, id);
          publishes, log := publishes + [id], log + [Publishes(id)];
        }
        remaining := remaining - {id};
      }
      AllAnswered(completed, publishes, messages, world);
    }

    // The call for one message.
    method ApplyNext(auth: Auth, m: Message, messages: map<Uuid, Message>, token: Uuid, world: World, n: nat,
                     report: Report, ghost start: Report, ghost before: Table, ghost committed: seq<Step>,
                     ghost published: set<Uuid>, ghost seen: set<Uuid>)
      returns (r: Result<Report, StoreError>, ghost grown: seq<Step>, ghost step: seq<Step>)
      requires table.Valid() && WorldOk(world, token, config)
      requires AllUnder(messages, token) && m.id in messages && m == messages[m.id]
      requires m.id !in seen && published <= seen <= messages.Keys && n == 1 + |seen|
      requires SeenThrough(before, committed, table.rows, token, messages, start, report, published, seen)
      requires MarksSoFar(committed, token, n, config, auth, messages, world)
      modifies table, this`log
      ensures table.Valid() && table.trace == old(table.trace) + step && grown == committed + step
      ensures log == old(log) + OwnEvents(step, token)
      ensures r.Failure? ==>
        && MarksSoFar(grown, token, n, config, auth, messages, world)
        && table.rows == ApplyAll(before, grown)
        && CompletedUnder(before, grown, token) == seen
        && MarkStops(table.rows, config, auth, messages, seen, world, n)
      ensures r.Success? ==> MarksSoFar(grown, token, n + 1, config, auth, messages, world)
      ensures r.Success? ==>
        SeenThrough(before, grown, table.rows, token, messages, start, r.value,
                    published + PublishedOne(m, world), seen + {m.id})
    {
      ghost var mid := table.rows;
      assert NamedUnder(m, m.id, token);
      r, step := ApplyPublishOutcome(auth, m, world.Publish(m), world, n, report, messages);
      grown := committed + step;
      if r.Failure? {
        StretchStops(before, committed, mid, step, token, messages, start, report, published, seen);
        NoMoreMarks(committed, step, token, n, config, auth, messages, world);
        OneUnseen(messages, seen, m.id);
        assert world.Fails(n) || Refused(table.rows, config, auth, messages, seen, m.id, world, n);
        return;
      }
      OneMoreMark(committed, step, token, n, config, auth, m, messages, world);
      SeenThroughJoins(before, committed, mid, step, table.rows, token, messages, start, report, r.value,
                       published, PublishedOne(m, world), seen, {m.id});
    }

    // The outcomes are applied in the order they came in; the first failing call ends the cycle.
    method ApplyOutcomes(auth: Auth, completed: seq<(Message, PublishOutcome)>, messages: map<Uuid, Message>,
                         token: Uuid, world: World, report: Report)
      returns (r: Result<Report, StoreError>, next: nat, ghost committed: seq<Step>)
      requires table.Valid() && WorldOk(world, token, config)
      requires AllUnder(messages, token) && Leads(completed, {}, {}, messages, world)
      requires SnapshotsHold(table.rows, messages, token)
      modifies table, this`log
      ensures table.Valid() && table.trace == old(table.trace) + committed
      ensures log == old(log) + OwnEvents(committed, token)
      ensures MarksSoFar(committed, token, next, config, auth, messages, world)
      ensures r.Failure? ==>
        && table.rows == ApplyAll(old(table.rows), committed)
        && MarkStops(table.rows, config, auth, messages, CompletedUnder(old(table.rows), committed, token), world, next)
      ensures r.Success? ==>
        && next == 1 + |messages|
        && Marked(old(table.rows), committed, table.rows, token, messages, report, r.value, world)
    {
      var rest := completed;
      ghost var published: set<Uuid>, seen: set<Uuid> := {}, {};
      r, next := Success(report), 1;
      committed := NothingSeen(table.rows, token, messages, report);
      while |rest| > 0
        invariant table.Valid() && table.trace == old(table.trace) + committed && r.Success?
        invariant log == old(log) + OwnEvents(committed, token)
        invariant Leads(rest, published, seen, messages, world)
        invariant next == 1 + |seen| && MarksSoFar(committed, token, next, config, auth, messages, world)
        invariant SeenThrough(old(table.rows), committed, table.rows, token, messages,
                              report, r.value, published, seen)
        decreases |rest|
      {
        var m := rest[0].0;
        ghost var grown: seq<Step>;
        ghost var step: seq<Step>;
        LeadsWithin(rest, published, seen, messages, world);
        r, grown, step := ApplyNext(auth, m, messages, token, world, next, r.value,
                                    report, old(table.rows), committed, published, seen);
        TraceGrows(old(table.trace), committed, step, table.trace);
        OwnEventsSplit(committed, step, token);
        EventsGrow(old(log), OwnEvents(committed, token), OwnEvents(step, token));
        committed := grown;
        if r.Failure? {
          return;
        }
        published, seen := published + PublishedOne(m, world), seen + {m.id};
        next, rest := next + 1, rest[1..];
      }
    }

    // Everything leased is published, and then every outcome is applied.
    method ProcessLeased(auth: Auth, messages: map<Uuid, Message>, token: Uuid, world: World, report: Report)
      returns (r: Result<Report, StoreError>, next: nat, ghost committed: seq<Step>, ghost publishes: seq<Uuid>)
      requires table.Valid() && WorldOk(world, token, config)
      requires AllUnder(messages, token)
      requires SnapshotsHold(table.rows, messages, token)
      modifies table, this`log
      ensures table.Valid()
      ensures log == old(log) + PublishEvents(publishes) + OwnEvents(committed, token)
      ensures table.trace == old(table.trace) + committed && table.rows == ApplyAll(old(table.rows), committed)
      ensures Members(publishes) == Published(messages, world)
      ensures MarksSoFar(committed, token, next, config, auth, messages, world)
      ensures r.Failure? ==>
        MarkStops(table.rows, config, auth, messages, CompletedUnder(old(table.rows), committed, token), world, next)
      ensures r.Success? ==>
        && next == 1 + |messages|
        && Marked(old(table.rows), committed, table.rows, token, messages, report, r.value, world)
    {
      var completed: seq<(Message, PublishOutcome)>;
      completed, publishes := PublishAll(messages, token, world);
      AllLead(completed, messages, world);
      r, next, committed := ApplyOutcomes(auth, completed, messages, token, world, report);
    }

    // The lease that opens a cycle.
    method LeaseOne(auth: Auth, token: Uuid, world: World)
      returns (r: Result<map<Uuid, Message>, StoreError>, report: Report, ghost committed: seq<Step>)
      requires table.Valid() && WorldOk(world, token, config)
      modifies table, this`log
      ensures table.Valid() && log == old(log) + OwnEvents(committed, token)
      ensures table.trace == old(table.trace) + committed && table.rows == ApplyAll(old(table.rows), committed)
      ensures r.Failure? ==> committed == world.Others(0) && (world.Fails(0) || config.batchSize < 0)
      ensures r.Success? ==> OwnEvents(committed, token) == [Commits(OpeningLease(auth, token, world, config))]
      ensures r.Success? ==>
        && AllUnder(r.value, token)
        && LeaseHandsOut(old(table.rows), world.Others(0), OpeningLease(auth, token, world, config), r.value)
        && Begun(auth, token, old(table.rows), r.value, committed, table.rows, report, world, config)
    {
      report := Report(0, 0, 0, 0, 0, 0, 0);
      committed := world.Others(0);
      ForeignHasNoEvents(committed, token);
      table.Interfere(world.Others(0));
      if world.Fails(0) {
        return Failure(Database), report, committed;
      }
      ghost var trace, mid := table.trace, table.rows;
      ghost var step := Lease(auth, world.Clock(0), config.leaseFor, config.batchSize, world.locked, token);
      r := table.LeaseBatch(auth, world.Clock(0), config.leaseFor, config.batchSize, world.locked, token);
      if r.Failure? {
        return r, report, committed;
      }
      report := report.(leased := report.leased + |r.value|);
      LeaseOpens(old(table.rows), trace, committed, mid, step, table.rows, r.value, report);
      TraceGrows(old(table.trace), committed, [step], table.trace);
      OneEvent(committed, step, token);
      log := log + [Commits(step)];
      committed := committed + [step];
    }

    method PurgeRows(auth: Auth, world: World, n: nat, ghost token: Uuid)
      returns (r: Result<nat, StoreError>, ghost committed: seq<Step>)
      requires table.Valid() && WorldOk(world, token, config)
      modifies table
      ensures table.Valid() && Foreign(committed, token)
      ensures table.trace == old(table.trace) + committed && table.rows == ApplyAll(old(table.rows), committed)
      ensures r.Failure? <==> world.Fails(n)
      ensures r.Success? ==>
        && committed == world.Others(n) + [ClosingPurge(auth, n, world, config)]
        && committed[|committed| - 1] == Cleanup(auth, world.Clock(n) - config.deliveredRetention,
                                                 world.Clock(n + 1) - config.deadLetterRetention)
        && r.value == PurgedLast(old(table.rows), committed)
    {
      committed := world.Others(n);
      table.Interfere(world.Others(n));
      if world.Fails(n) {
        return Failure(Database), committed;
      }
      ghost var trace, mid := table.trace, table.rows;
      var deliveredBefore := world.Clock(n) - config.deliveredRetention;
      var deadLetterBefore := world.Clock(n + 1) - config.deadLetterRetention;
      ghost var step := Cleanup(auth, deliveredBefore, deadLetterBefore);
      var deleted := table.CleanupOutbox(auth, deliveredBefore, deadLetterBefore);
      LastStep(trace, step, mid, table.rows);
      CleanupIsForeign(old(table.rows), committed, mid, step, table.rows, token);
      TraceGrows(old(table.trace), committed, [step], table.trace);
      PurgedLater(old(table.rows), committed, mid, [step]);
      return Success(deleted), committed + [step];
    }

    // The two retention purges that close a cycle.
    method CleanUp(auth: Auth, world: World, n: nat, ghost token: Uuid, report: Report)
      returns (r: Result<Report, StoreError>, ghost committed: seq<Step>)
      requires table.Valid() && WorldOk(world, token, config)
      modifies table, keys
      ensures table.Valid() && Foreign(committed, token)
      ensures table.trace == old(table.trace) + committed && table.rows == ApplyAll(old(table.rows), committed)
      ensures r.Failure? ==> (world.Fails(n) || world.Fails(n + 1)) && keys.records == old(keys.records)
      ensures r.Success? ==>
        Purged(auth, n, old(table.rows), committed, report, r.value, keys.records, world, config)
      // The cutoffs, in the clock readings and the retentions.
      ensures r.Success? ==>
        && |committed| > 0
        && committed[|committed| - 1] == Cleanup(auth, world.Clock(n) - config.deliveredRetention,
                                                 world.Clock(n + 1) - config.deadLetterRetention)
        && forall k :: k in world.records ==>
             (k !in keys.records <==>
                && k.workspace == auth.workspace
                && world.records[k].expiresAt < world.Clock(n + 2) - config.idempotencyRetention)
    {
      var deleted: Result<nat, StoreError>;
      deleted, committed := PurgeRows(auth, world, n, token);
      if deleted.Failure? {
        return Failure(deleted.error), committed;
      }
      if world.Fails(n + 1) {
        return Failure(Database), committed;
      }
      keys.Interfere(world.records);
      var purged := keys.CleanupIdempotency(auth, world.Clock(n + 2) - config.idempotencyRetention);
      r := Success(report.(cleanedOutboxRows := report.cleanedOutboxRows + deleted.value,
                           cleanedIdempotencyRows := report.cleanedIdempotencyRows + purged));
    }

    // What follows the last mark: the purges.
    method CloseCycle(auth: Auth, token: Uuid, world: World, messages: map<Uuid, Message>, n: nat, processed: Report,
                      ghost before: Table, ghost first: seq<Step>, ghost mid: Table, ghost marks: seq<Step>,
                      ghost publishes: seq<Uuid>, ghost start: Report)
      returns (r: Result<Report, StoreError>, ghost c: Cycle, ghost rest: seq<Step>)
      requires table.Valid() && WorldOk(world, token, config) && n == 1 + |messages|
      requires MarksSoFar(marks, token, n, config, auth, messages, world)
      requires Begun(auth, token, before, messages, first, mid, start, world, config)
      requires Marked(mid, marks, table.rows, token, messages, start, processed, world)
      requires Members(publishes) == Published(messages, world)
      modifies table, keys
      ensures table.Valid() && table.trace == old(table.trace) + rest
      ensures OwnEvents(marks + rest, token) == OwnEvents(marks, token) && c.publishes == publishes
      ensures c.auth == auth && c.token == token && c.before == before && c.result == r
      ensures c.committed == first + (marks + rest) && table.rows == ApplyAll(before, c.committed)
      ensures c.messages == messages && GoesOn(c, world, config)
      ensures keys.records == if r.Success? then RecordsLeft(auth, c.n, world, config) else old(keys.records)
    {
      r, rest := CleanUp(auth, world, n, token, processed);
      c := Cycle(auth, token, before, first + marks + rest, messages, publishes, n, r);
      CycleEnds(c, first, mid, marks, old(table.rows), rest, table.rows, start, processed, keys.records, world, config);
      TraceGrows(first, marks, rest, c.committed);
      RestHasNoEvents(marks, rest, token);
    }

    // The marks; where one fails, that is the cycle.
    method MarkBatch(auth: Auth, token: Uuid, world: World, messages: map<Uuid, Message>, report: Report,
                     ghost before: Table, ghost first: seq<Step>)
      returns (r: Result<Report, StoreError>, n: nat, ghost marks: seq<Step>, ghost publishes: seq<Uuid>,
               ghost c: Cycle)
      requires table.Valid() && WorldOk(world, token, config) && AllUnder(messages, token)
      requires Begun(auth, token, before, messages, first, table.rows, report, world, config)
      modifies table, this`log
      ensures table.Valid() && table.trace == old(table.trace) + marks
      ensures log == old(log) + PublishEvents(publishes) + OwnEvents(marks, token)
      ensures r.Failure? ==>
        && c == Cycle(auth, token, before, first + marks, messages, publishes, n, Failure(r.error))
        && GoesOn(c, world, config) && table.rows == ApplyAll(before, c.committed)
      ensures r.Success? ==>
        && n == 1 + |messages| && MarksSoFar(marks, token, n, config, auth, messages, world)
        && Members(publishes) == Published(messages, world)
        && Marked(old(table.rows), marks, table.rows, token, messages, report, r.value, world)
    {
      r, n, marks, publishes := ProcessLeased(auth, messages, token, world, report);
      if r.Failure? {
        c := CycleBreaks(auth, token, before, messages, first, old(table.rows), marks, table.rows, publishes, n, r,
                         report, world, config);
      } else {
        c := Cycle(auth, token, before, first + marks, messages, publishes, n, r);
      }
    }

    // What follows the lease: every message, then the purges.
    method FinishCycle(auth: Auth, token: Uuid, world: World, messages: map<Uuid, Message>, report: Report,
                       ghost before: Table, ghost first: seq<Step>)
      returns (r: Result<Report, StoreError>, ghost c: Cycle, ghost committed: seq<Step>)
      requires table.Valid() && WorldOk(world, token, config)
      requires AllUnder(messages, token)
      requires Begun(auth, token, before, messages, first, table.rows, report, world, config)
      modifies table, keys, this`log
      ensures table.Valid() && table.trace == old(table.trace) + committed
      ensures c.auth == auth && c.token == token && c.before == before && c.result == r
      ensures c.committed == first + committed && table.rows == ApplyAll(before, c.committed)
      ensures log == old(log) + PublishEvents(c.publishes) + OwnEvents(committed, token)
      ensures c.messages == messages && GoesOn(c, world, config)
      ensures keys.records == if r.Success? then RecordsLeft(auth, c.n, world, config) else old(keys.records)
    {
      var processed: Result<Report, StoreError>;
      var n: nat;
      ghost var marks: seq<Step>;
      ghost var publishes: seq<Uuid>;
      processed, n, marks, publishes, c := MarkBatch(auth, token, world, messages, report, before, first);
      if processed.Failure? {
        r, committed := Failure(processed.error), marks;
        return;
      }
      ghost var rest: seq<Step>;
      r, c, rest := CloseCycle(auth, token, world, messages, n, processed.value,
                               before, first, old(table.rows), marks, publishes, report);
      TraceGrows(old(table.trace), marks, rest, table.trace);
      committed := marks + rest;
    }

    method RunTenantCycle(auth: Auth, token: Uuid, world: World)
      returns (r: Result<Report, StoreError>, ghost c: Cycle)
      requires table.Valid() && WorldOk(world, token, config)
      modifies table, keys, this`log
      ensures table.Valid()
      ensures c.auth == auth && c.token == token && c.before == old(table.rows) && c.result == r
      ensures table.trace == old(table.trace) + c.committed && table.rows == ApplyAll(old(table.rows), c.committed)
      ensures CycleOk(c, world, config) && log == old(log) + LogOf(c)
      ensures keys.records == if r.Success? then RecordsLeft(auth, c.n, world, config) else old(keys.records)
    {
      ghost var first: seq<Step>;
      var batch: Result<map<Uuid, Message>, StoreError>;
      var report: Report;
      batch, report, first := LeaseOne(auth, token, world);
      if batch.Failure? {
        r := Failure(batch.error);
        c := NeverOpened(auth, token, old(table.rows), first, r, world, config);
        LogOfNothing(c, old(log));
        return;
      }
      ghost var committed: seq<Step>;
      r, c, committed := FinishCycle(auth, token, world, batch.value, report, old(table.rows), first);
      TraceGrows(old(table.trace), first, committed, table.trace);
      LogOfOpened(c, first, OpeningLease(auth, token, world, config), committed, old(log), log);
    }

    // ----- partitions

    predicate Leasing() { config.workspaceIds.None? }

    function Window(): set<Uuid>
      reads partitions
    {
      P.ListWindow(partitions.workspaces, config.partitionShardBuckets, P.ScanLimit(config.partitionBatch))
    }

    ghost predicate AllMine(tenants: multiset<Uuid>)
      reads partitions
    {
      forall w :: w in tenants ==> w in partitions.leases && partitions.leases[w].owner == config.workerInstanceId
    }

    // An empty result leaves the remembered list as it was.
    method AcquireMine(now: Time, snapshot: P.Leases) returns (taken: set<Uuid>)
      modifies this`leased, partitions`leases
      ensures taken == P.Acquired(old(partitions.leases), snapshot, Window(), config.workerInstanceId, now)
      ensures leased == if taken == {} then old(leased) else taken
      ensures partitions.leases == P.Upsert(old(partitions.leases), partitions.workspaces, taken,
                                            config.workerInstanceId, now, now + config.partitionLeaseFor)
    {
      var acquired := partitions.AcquirePartitions(
        config.workerInstanceId, now, now + config.partitionLeaseFor, config.partitionBatch,
        config.partitionShardBuckets, snapshot);
      taken := acquired.value;
      if taken != {} {
        leased := taken;
      }
    }

    method AcquireWorkspaces(now: Time, snapshot: P.Leases, fails: bool) returns (r: Result<multiset<Uuid>, StoreError>)
      modifies this`leased, partitions`leases
      ensures r.Failure? <==> Leasing() && fails
      ensures !Leasing() || fails ==> leased == old(leased) && partitions.leases == old(partitions.leases)
      ensures !Leasing() ==> r == Success(config.workspaceIds.value)
      // It is the acquire of the theorems about shutdown, whatever its snapshot.
      ensures Leasing() && !fails ==>
        && r == Success(multiset(P.Acquired(old(partitions.leases), snapshot, Window(), config.workerInstanceId, now)))
        && PR.WorkerState(partitions.leases, partitions.leases, leased, true)
           == PR.NextWorker(PR.WorkerState(old(partitions.leases), snapshot, old(leased), true),
                            PR.AcquireMine(now, now + config.partitionLeaseFor), config.workerInstanceId,
                            Window(), partitions.workspaces)
      // Every workspace the run will serve is leased to this worker.
      ensures Leasing() && !fails ==>
        && AllMine(r.value)
        && (if r.value == multiset{} then leased == old(leased) else r.value == multiset(leased))
    {
      if config.workspaceIds.Some? {
        return Success(config.workspaceIds.value);
      }
      if fails {
        return Failure(Database);
      }
      var taken := AcquireMine(now, snapshot);
      OneOfEach(taken);
      return Success(multiset(taken));
    }

    // The list is taken before the store is called, so a failing call forgets it.
    method ReleasePartitions(fails: bool) returns (r: Result<(), StoreError>)
      modifies this`leased, partitions`leases
      ensures !Leasing() ==> r.Success? && leased == old(leased) && partitions.leases == old(partitions.leases)
      ensures r.Failure? <==> Leasing() && old(leased) != {} && fails
      ensures r.Failure? ==> leased == {} && partitions.leases == old(partitions.leases)
      ensures Leasing() && r.Success? ==>
        PR.WorkerState(partitions.leases, map[], leased, true)
        == PR.NextWorker(PR.WorkerState(old(partitions.leases), map[], old(leased), true), PR.ReleaseMine,
                         config.workerInstanceId, {}, map[])
    {
      if config.workspaceIds.Some? {
        return Success(());
      }
      if leased == {} {
        return Success(());
      }
      var taken := leased;
      leased := {};
      if fails {
        return Failure(Database);
      }
      var deleted := partitions.ReleasePartitions(config.workerInstanceId, taken);
      return Success(());
    }

    // ----- one run over the assigned workspaces

    // The tenants' cycles finish in any order, and one that fails leaves the others to go on.
    method RunTenants(tenants: multiset<Uuid>, worlds: nat -> World, tokens: nat -> Uuid)
      returns (outcomes: seq<Result<Report, StoreError>>, ghost cycles: seq<Cycle>)
      requires table.Valid() && WorldsOk(worlds, tokens, config)
      modifies table, keys, this`log
      ensures table.Valid()
      ensures RunSoFar(old(table.rows), cycles, table.rows, outcomes, tenants, multiset{}, worlds, tokens, config)
    {
      outcomes := [];
      var remaining := tenants;
      var k: nat := 0;
      cycles := RunStarts(table.rows, tenants, worlds, tokens, config);
      while remaining != multiset{}
        invariant table.Valid() && k == |cycles|
        invariant RunSoFar(old(table.rows), cycles, table.rows, outcomes, tenants, remaining, worlds, tokens, config)
        decreases |remaining|
      {
        var workspace :| workspace in remaining;
        ghost var before := table.rows;
        var outcome: Result<Report, StoreError>;
        ghost var c: Cycle;
        outcome, c := RunTenantCycle(Auth(workspace, config.workerInstanceId), tokens(k), worlds(k));
        RunGoesOn(old(table.rows), cycles, before, c, cycles + [c], table.rows, outcomes, tenants, remaining,
                  worlds, tokens, config);
        cycles, outcomes := cycles + [c], outcomes + [outcome];
        remaining, k := remaining - multiset{workspace}, k + 1;
      }
    }

    // The tenants' reports added up; a failed tenant is only counted.
    method AddUp(outcomes: seq<Result<Report, StoreError>>) returns (report: Report)
      ensures report == AddedUp(outcomes)
    {
      report := Report(0, 0, 0, 0, 0, 0, 0);
      for i := 0 to |outcomes|
        invariant report == AddedUp(outcomes[..i])
      {
        assert outcomes[..i + 1][..i] == outcomes[..i];
        report := Added(report, outcomes[i]);
      }
      assert outcomes[..|outcomes|] == outcomes;
    }

    method ServeAll(tenants: multiset<Uuid>, worlds: nat -> World, tokens: nat -> Uuid)
      returns (report: Report, ghost cycles: seq<Cycle>)
      requires table.Valid() && WorldsOk(worlds, tokens, config)
      modifies table, keys, this`log
      ensures table.Valid()
      ensures Serves(tenants, multiset{}, cycles) && AllCycles(cycles, worlds, tokens, config)
      ensures Chained(old(table.rows), cycles, table.rows) && RunReport(cycles, report)
    {
      var outcomes: seq<Result<Report, StoreError>>;
      outcomes, cycles := RunTenants(tenants, worlds, tokens);
      report := AddUp(outcomes);
      OutcomesTotal(cycles, outcomes, worlds, tokens, config);
    }

    method RunOnce(now: Time, snapshot: P.Leases, fails: bool, worlds: nat -> World, tokens: nat -> Uuid)
      returns (r: Result<Report, StoreError>, ghost tenants: multiset<Uuid>, ghost cycles: seq<Cycle>)
      requires table.Valid() && WorldsOk(worlds, tokens, config)
      modifies this`leased, this`log, table, keys, partitions`leases
      ensures table.Valid()
      ensures r.Failure? <==> Leasing() && fails
      ensures r.Failure? ==> table.rows == old(table.rows)
      ensures r.Success? ==>
        && Serves(tenants, multiset{}, cycles) && AllCycles(cycles, worlds, tokens, config)
        && Chained(old(table.rows), cycles, table.rows) && RunReport(cycles, r.value)
      // The tenants served are the configured ones, or all those just leased to this worker.
      ensures r.Success? && !Leasing() ==> tenants == config.workspaceIds.value
      ensures r.Success? && Leasing() ==> AllMine(tenants) && (tenants == multiset{} || tenants == multiset(leased))
      ensures r.Success? && Leasing() ==>
        tenants == multiset(P.Acquired(old(partitions.leases), snapshot, Window(), config.workerInstanceId, now))
    {
      var acquired := AcquireWorkspaces(now, snapshot, fails);
      tenants := multiset{};
      if acquired.Failure? {
        r := Failure(acquired.error);
        cycles :| |cycles| == 0;
        return;
      }
      tenants := acquired.value;
      var report: Report;
      report, cycles := ServeAll(acquired.value, worlds, tokens);
      r := Success(report);
    }
  }
}
