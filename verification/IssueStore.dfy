// crates/dandori-store/src/repositories/issue.rs: the idempotent issue-create transaction,
// as a sequence of statements over the committed tables and the transaction's own writes.
module IssueStore {
  import opened Base
  import opened Issues
  import opened Fingerprint
  import Outbox

  datatype Milestone = Milestone(workspace: Uuid, project: Uuid)

  datatype Activity = Activity(
    workspace: Uuid,
    project: Uuid,
    issueId: Uuid,
    commandId: Uuid,
    actor: Uuid,
    eventType: string,
    createdAt: Time)

  const ISSUE_CREATED: string := "issue.created.v1"

  // The record's primary key; every record of this model has the one command name.
  datatype RecordKey = RecordKey(workspace: Uuid, key: string)

  // The stored response: the placeholder { "status": "reserving" } or a decodable response.
  datatype Payload = Reserving | Response(issue: Issue)

  datatype Record = Record(fingerprint: string, payload: Payload, expiresAt: Time, createdAt: Time)

  datatype Db = Db(
    projects: map<Uuid, Uuid>,
    milestones: map<Uuid, Milestone>,
    issues: map<Uuid, Issue>,
    activities: map<Uuid, Activity>,
    outbox: Outbox.Table,
    records: map<RecordKey, Record>)

  // What a transaction has written and not yet committed.
  datatype Writes = Writes(
    issues: map<Uuid, Issue>,
    activities: map<Uuid, Activity>,
    outbox: Outbox.Table,
    records: map<RecordKey, Record>)

  const NO_WRITES := Writes(map[], map[], map[], map[])

  function Merge(db: Db, w: Writes): Db {
    db.(issues := db.issues + w.issues,
        activities := db.activities + w.activities,
        outbox := db.outbox + w.outbox,
        records := db.records + w.records)
  }

  datatype CreateResult = Created(issue: Issue) | Replayed(issue: Issue) | Rejected(error: StoreError)

  function KeyOf(cmd: Command): RecordKey { RecordKey(cmd.workspace, cmd.key) }

  // ----- the statements

  function EnsureProjectExists(db: Db, cmd: Command): Option<StoreError> {
    if cmd.project in db.projects && db.projects[cmd.project] == cmd.workspace then None
    else Some(ProjectNotFound)
  }

  function EnsureMilestoneBelongsToProject(db: Db, cmd: Command): Option<StoreError> {
    if cmd.milestone.None? then None
    else if cmd.milestone.value !in db.milestones || db.milestones[cmd.milestone.value].workspace != cmd.workspace then
      Some(MilestoneNotFound)
    else if db.milestones[cmd.milestone.value].project != cmd.project then
      Some(MilestoneProjectMismatch)
    else None
  }

  function NewActivity(cmd: Command, event: CreatedEvent): Activity {
    Activity(cmd.workspace, cmd.project, cmd.issueId, cmd.commandId, cmd.actor, ISSUE_CREATED, event.occurredAt)
  }

  function OutboxEvent(cmd: Command, event: CreatedEvent): Outbox.Event {
    Outbox.Event(event.eventId, ISSUE_CREATED, cmd.issueId, cmd.commandId, event.occurredAt)
  }

  function NewOutboxRow(cmd: Command, event: CreatedEvent): Outbox.Row {
    Outbox.NewRow(cmd.workspace, OutboxEvent(cmd, event))
  }

  function DecodeResponse(p: Payload): Result<Issue, StoreError> {
    match p
    case Reserving => Failure(Serde)
    case Response(issue) => Success(issue)
  }

  function BranchOnStoredFingerprint(cmd: Command, stored: Record): CreateResult {
    if !MatchesRequestFingerprint(stored.fingerprint, cmd) then Rejected(IdempotencyConflict)
    else
      var replay := DecodeResponse(stored.payload);
      if replay.Failure? then Rejected(replay.error) else Replayed(replay.value)
  }

  // ----- the retention purge of the records

  predicate Expired(k: RecordKey, record: Record, workspace: Uuid, before: Time) {
    k.workspace == workspace && record.expiresAt < before
  }

  function Remaining(records: map<RecordKey, Record>, workspace: Uuid, before: Time): map<RecordKey, Record> {
    map k | k in records && !Expired(k, records[k], workspace, before) :: records[k]
  }

  class IdempotencyTable {
    var records: map<RecordKey, Record>

    constructor ()
      ensures records == map[]
    {
      records := map[];
    }

    method CleanupIdempotency(auth: Auth, expiresBefore: Time) returns (deleted: nat)
      modifies this
      ensures records == Remaining(old(records), auth.workspace, expiresBefore)
      // Exactly the tenant's records that expired before the cutoff are gone.
      ensures forall k :: k in old(records) ==>
        (k !in records <==> k.workspace == auth.workspace && old(records)[k].expiresAt < expiresBefore)
      ensures forall k :: k in records ==> k in old(records) && records[k] == old(records)[k]
      ensures deleted == |old(records)| - |records|
    {
      var gone := set k | k in records && Expired(k, records[k], auth.workspace, expiresBefore);
      assert Remaining(records, auth.workspace, expiresBefore) == records - gone;
      assert records.Keys == (records - gone).Keys + gone;
      deleted := |gone|;
      records := records - gone;
    }

    // What other processes leave of the records between two calls of the present one.
    method Interfere(found: map<RecordKey, Record>)
      modifies this
      ensures records == found
    {
      records := found;
    }
  }

  // ----- the simple object the transaction stands for: one map, changed in one step

  datatype Entry = Entry(fingerprint: string, issue: Issue, expiresAt: Time)

  datatype Spec = Spec(projects: map<Uuid, Uuid>, milestones: map<Uuid, Milestone>, entries: map<RecordKey, Entry>)

  ghost predicate NoPlaceholder(db: Db) {
    forall k :: k in db.records ==> db.records[k].payload.Response?
  }

  ghost function Abs(db: Db): Spec
    requires NoPlaceholder(db)
  {
    Spec(db.projects, db.milestones,
         map k | k in db.records ::
           Entry(db.records[k].fingerprint, db.records[k].payload.issue, db.records[k].expiresAt))
  }

  ghost predicate ProjectVisible(spec: Spec, cmd: Command) {
    cmd.project in spec.projects && spec.projects[cmd.project] == cmd.workspace
  }

  ghost predicate MilestoneVisible(spec: Spec, cmd: Command) {
    cmd.milestone.Some? ==>
      cmd.milestone.value in spec.milestones && spec.milestones[cmd.milestone.value].workspace == cmd.workspace
  }

  ghost predicate MilestoneFits(spec: Spec, cmd: Command) {
    cmd.milestone.Some? ==>
      cmd.milestone.value in spec.milestones && spec.milestones[cmd.milestone.value].project == cmd.project
  }

  // One create call as one atomic step, when the database itself does not fail it.
  ghost function AtomicCreate(spec: Spec, cmd: Command, occurredAt: Time, expiresAt: Time): (Spec, CreateResult) {
    var k := KeyOf(cmd);
    if k in spec.entries then
      (spec, if MatchesRequestFingerprint(spec.entries[k].fingerprint, cmd)
             then Replayed(spec.entries[k].issue) else Rejected(IdempotencyConflict))
    else if !ProjectVisible(spec, cmd) then (spec, Rejected(ProjectNotFound))
    else if !MilestoneVisible(spec, cmd) then (spec, Rejected(MilestoneNotFound))
    else if !MilestoneFits(spec, cmd) then (spec, Rejected(MilestoneProjectMismatch))
    else
      var issue := NewIssue(cmd, occurredAt);
      (spec.(entries := spec.entries[k := Entry(cmd.fingerprint, issue, expiresAt)]), Created(issue))
  }

  // Everything a winning call has written by the time it commits.
  function FullWrites(
    cmd: Command, event: CreatedEvent, now: Time, expiresAt: Time, activityId: Uuid, outboxId: Uuid): Writes
  {
    var issue := NewIssue(cmd, event.occurredAt);
    Writes(map[cmd.issueId := issue],
           map[activityId := NewActivity(cmd, event)],
           map[outboxId := NewOutboxRow(cmd, event)],
           map[KeyOf(cmd) := Record(cmd.fingerprint, Response(issue), expiresAt, now)])
  }

  // One new row in each of the four tables, carrying the request, column by column; nothing
  // else changes.
  ghost predicate CreatedRows(
    before: Db, after: Db, cmd: Command, event: CreatedEvent, now: Time, expiresAt: Time,
    activityId: Uuid, outboxId: Uuid)
  {
    && after.projects == before.projects && after.milestones == before.milestones
    && var issue := Issue(cmd.issueId, cmd.workspace, cmd.project, cmd.milestone, cmd.title, cmd.description,
                          Open, cmd.priority, None, 0, event.occurredAt, event.occurredAt);
    && cmd.issueId !in before.issues && after.issues == before.issues[cmd.issueId := issue]
    && activityId !in before.activities
    && after.activities == before.activities[activityId :=
         Activity(cmd.workspace, cmd.project, cmd.issueId, cmd.commandId, cmd.actor, "issue.created.v1",
                  event.occurredAt)]
    && outboxId !in before.outbox
    && (forall o :: o in before.outbox ==> before.outbox[o].event.eventId != event.eventId)
    && after.outbox == before.outbox[outboxId :=
         Outbox.Row(cmd.workspace,
                    Outbox.Event(event.eventId, "issue.created.v1", cmd.issueId, cmd.commandId, event.occurredAt),
                    0, event.occurredAt, Outbox.Pending, None, None, None, None, None, None, event.occurredAt)]
    && var key := RecordKey(cmd.workspace, cmd.key);
    && key !in before.records
    && after.records == before.records[key := Record(cmd.fingerprint, Response(issue), expiresAt, now)]
  }

  lemma MergeCreatesRows(
    db: Db, cmd: Command, event: CreatedEvent, now: Time, expiresAt: Time, activityId: Uuid, outboxId: Uuid)
    requires NoPlaceholder(db)
    requires KeyOf(cmd) !in db.records && cmd.issueId !in db.issues && activityId !in db.activities
    requires !Outbox.InsertConflicts(db.outbox, outboxId, OutboxEvent(cmd, event))
    ensures var after := Merge(db, FullWrites(cmd, event, now, expiresAt, activityId, outboxId));
      NoPlaceholder(after) && CreatedRows(db, after, cmd, event, now, expiresAt, activityId, outboxId)
  {
    var w := FullWrites(cmd, event, now, expiresAt, activityId, outboxId);
    MergeOne(db.issues, cmd.issueId, w.issues[cmd.issueId]);
    MergeOne(db.activities, activityId, w.activities[activityId]);
    MergeOne(db.outbox, outboxId, w.outbox[outboxId]);
    MergeOne(db.records, KeyOf(cmd), w.records[KeyOf(cmd)]);
  }

  lemma MergeOne<K, V>(m: map<K, V>, k: K, v: V)
    ensures m + map[k := v] == m[k := v]
  {
  }

  // The rows of a creation are the atomic creation.
  lemma CreatedRowsAreAtomic(
    before: Db, after: Db, cmd: Command, event: CreatedEvent, now: Time, expiresAt: Time,
    activityId: Uuid, outboxId: Uuid)
    requires NoPlaceholder(before) && NoPlaceholder(after)
    requires CreatedRows(before, after, cmd, event, now, expiresAt, activityId, outboxId)
    requires EnsureProjectExists(before, cmd).None? && EnsureMilestoneBelongsToProject(before, cmd).None?
    ensures (Abs(after), Created(NewIssue(cmd, event.occurredAt)))
         == AtomicCreate(Abs(before), cmd, event.occurredAt, expiresAt)
  {
    AbsOfNewRecord(before, after, KeyOf(cmd), after.records[KeyOf(cmd)]);
  }

  lemma AbsOfNewRecord(db: Db, after: Db, k: RecordKey, record: Record)
    requires NoPlaceholder(db) && record.payload.Response?
    requires after.projects == db.projects && after.milestones == db.milestones
    requires after.records == db.records[k := record]
    ensures NoPlaceholder(after)
    ensures Abs(after) == Abs(db).(entries :=
      Abs(db).entries[k := Entry(record.fingerprint, record.payload.issue, record.expiresAt)])
  {
    var want := Abs(db).entries[k := Entry(record.fingerprint, record.payload.issue, record.expiresAt)];
    assert NoPlaceholder(after);
    assert Abs(after).entries.Keys == want.Keys;
    assert Abs(after).entries == want;
  }

  // A call that finds a record reports on it and changes nothing.
  lemma StoredBranchIsAtomic(db: Db, cmd: Command, occurredAt: Time, expiresAt: Time)
    requires NoPlaceholder(db) && KeyOf(cmd) in db.records
    ensures (Abs(db), BranchOnStoredFingerprint(cmd, db.records[KeyOf(cmd)]))
         == AtomicCreate(Abs(db), cmd, occurredAt, expiresAt)
    ensures BranchOnStoredFingerprint(cmd, db.records[KeyOf(cmd)]) != Rejected(Serde)
  {
  }

  // A failed precondition leaves the key free.
  lemma PreconditionIsAtomic(db: Db, cmd: Command, occurredAt: Time, expiresAt: Time)
    requires NoPlaceholder(db) && KeyOf(cmd) !in db.records
    ensures EnsureProjectExists(db, cmd).Some? ==>
      (Abs(db), Rejected(EnsureProjectExists(db, cmd).value)) == AtomicCreate(Abs(db), cmd, occurredAt, expiresAt)
    ensures EnsureProjectExists(db, cmd).None? && EnsureMilestoneBelongsToProject(db, cmd).Some? ==>
      (Abs(db), Rejected(EnsureMilestoneBelongsToProject(db, cmd).value))
      == AtomicCreate(Abs(db), cmd, occurredAt, expiresAt)
  {
  }

  // ----- one call on its own, statement by statement

  // Where the database fails the call, if it does: before the numbered step, at the commit, or
  // after it, when the acknowledgement is lost.
  type Fault = Option<nat>

  const COMMIT: nat := 7
  const ACKNOWLEDGEMENT: nat := 8

  // The steps a call takes whose atomic step gives this answer: reserving, the two checks, the
  // three inserts and the update for a creation, with its commit and the acknowledgement; for a
  // call that finds a record, reserving and the commit.
  ghost predicate Reaches(answer: CreateResult, n: nat) {
    match answer
    case Created(_) => n <= 8
    case Replayed(_) => n in {0, 7, 8}
    case Rejected(IdempotencyConflict) => n in {0, 7, 8}
    case Rejected(ProjectNotFound) => n <= 1
    case Rejected(_) => n <= 2
  }

  // A row to be inserted has an id that is in use, or the event id of another.
  ghost predicate IdsTaken(db: Db, cmd: Command, event: CreatedEvent, activityId: Uuid, outboxId: Uuid) {
    || cmd.issueId in db.issues || activityId in db.activities || outboxId in db.outbox
    || exists o :: o in db.outbox && db.outbox[o].event.eventId == event.eventId
  }

  class IssueTables {
    var db: Db

    constructor (db: Db)
      ensures this.db == db
    {
      this.db := db;
    }

    method CreateIssueTransactional(
      auth: Auth, cmd: Command, event: CreatedEvent, now: Time, expiresAt: Time,
      activityId: Uuid, outboxId: Uuid, fault: Fault)
      returns (r: CreateResult)
      requires NoPlaceholder(db)
      modifies this
      ensures NoPlaceholder(db)
      // Every answer but a database error is that of the atomic step, with its effect.
      ensures r != Rejected(Database) ==>
        (Abs(db), r) == AtomicCreate(Abs(old(db)), cmd, event.occurredAt, expiresAt)
      // A database error is one of these, and each of these is one.
      ensures var answer := AtomicCreate(Abs(old(db)), cmd, event.occurredAt, expiresAt).1;
        r == Rejected(Database) <==>
          || auth.workspace != cmd.workspace
          || (fault.Some? && Reaches(answer, fault.value))
          || (answer.Created? && IdsTaken(old(db), cmd, event, activityId, outboxId))
      // Whatever is written is one creation, whole; its acknowledgement may be lost.
      ensures var answer := AtomicCreate(Abs(old(db)), cmd, event.occurredAt, expiresAt).1;
        if r.Created? || (fault == Some(8) && auth.workspace == cmd.workspace && answer.Created?
                          && !IdsTaken(old(db), cmd, event, activityId, outboxId))
        then
          && CreatedRows(old(db), db, cmd, event, now, expiresAt, activityId, outboxId)
          && Abs(db) == AtomicCreate(Abs(old(db)), cmd, event.occurredAt, expiresAt).0
        else db == old(db)
    {
      var w := NO_WRITES;
      // The row-level policy refuses a record of another tenant.
      if fault == Some(0) || cmd.workspace != auth.workspace {
        return Rejected(Database);
      }
      if KeyOf(cmd) in db.records {
        if fault == Some(COMMIT) || fault == Some(ACKNOWLEDGEMENT) {
          return Rejected(Database);
        }
        StoredBranchIsAtomic(db, cmd, event.occurredAt, expiresAt);
        return BranchOnStoredFingerprint(cmd, db.records[KeyOf(cmd)]);
      }
      w := w.(records := w.records[KeyOf(cmd) := Record(cmd.fingerprint, Reserving, expiresAt, now)]);
      if fault == Some(1) {
        return Rejected(Database);
      }
      PreconditionIsAtomic(db, cmd, event.occurredAt, expiresAt);
      var project := EnsureProjectExists(db, cmd);
      if project.Some? {
        return Rejected(project.value);
      }
      if fault == Some(2) {
        return Rejected(Database);
      }
      var milestone := EnsureMilestoneBelongsToProject(db, cmd);
      if milestone.Some? {
        return Rejected(milestone.value);
      }
      if fault == Some(3) || cmd.issueId in db.issues {
        return Rejected(Database);
      }
      var issue;
      match MapIssueRow(InsertedRow(cmd, event.occurredAt)) {
        case Failure(e) =>
          InsertedRowDecodes(cmd, event.occurredAt);
          return Rejected(e);
        case Success(i) =>
          InsertedRowDecodes(cmd, event.occurredAt);
          issue := i;
      }
      w := w.(issues := w.issues[cmd.issueId := issue]);
      if fault == Some(4) || activityId in db.activities {
        return Rejected(Database);
      }
      w := w.(activities := w.activities[activityId := NewActivity(cmd, event)]);
      if fault == Some(5) || Outbox.InsertConflicts(db.outbox, outboxId, OutboxEvent(cmd, event)) {
        return Rejected(Database);
      }
      w := w.(outbox := w.outbox[outboxId := NewOutboxRow(cmd, event)]);
      if fault == Some(6) {
        return Rejected(Database);
      }
      var record := w.records[KeyOf(cmd)];
      w := w.(records := w.records[KeyOf(cmd) := record.(payload := Response(issue))]);
      if fault == Some(COMMIT) {
        return Rejected(Database);
      }
      assert w.records == map[KeyOf(cmd) := Record(cmd.fingerprint, Response(issue), expiresAt, now)];
      MergeCreatesRows(db, cmd, event, now, expiresAt, activityId, outboxId);
      CreatedRowsAreAtomic(db, Merge(db, w), cmd, event, now, expiresAt, activityId, outboxId);
      db := Merge(db, w);
      if fault == Some(ACKNOWLEDGEMENT) {
        return Rejected(Database);
      }
      return Created(issue);
    }
  }
}
