// What every statement of every interleaving keeps.
module SystemInvariant {
  import opened Base
  import opened Issues
  import opened IssueStore
  import opened System
  import Outbox

  function Rank(p: Phase): nat {
    match p
    case Begun => 0
    case Lost(_) => 0
    case Won => 1
    case ProjectChecked => 2
    case MilestoneChecked => 3
    case IssueInserted => 4
    case ActivityInserted => 5
    case OutboxInserted => 6
    case Finalized => 7
  }

  // The writes of an open transaction are those of the statements it has executed.
  ghost predicate WritesOk(tx: Tx) {
    var w, n := tx.writes, Rank(tx.phase);
    var issue := NewIssue(tx.cmd, tx.event.occurredAt);
    && (!tx.phase.Begun? ==> tx.cmd.workspace == tx.auth.workspace)
    && w.records == (if n == 0 then map[] else map[TxKey(tx) :=
         Record(tx.cmd.fingerprint, if n == 7 then Response(issue) else Reserving, tx.expiresAt, tx.createdAt)])
    && w.issues == (if n < 4 then map[] else map[tx.cmd.issueId := issue])
    && (n < 5 ==> w.activities == map[])
    && (n >= 5 ==> exists a :: a in w.activities && w.activities == map[a := NewActivity(tx.cmd, tx.event)])
    && (n < 6 ==> w.outbox == map[])
    && (n >= 6 ==> exists o :: o in w.outbox && w.outbox == map[o := NewOutboxRow(tx.cmd, tx.event)])
  }

  // What it has checked or locked still holds of the committed tables.
  ghost predicate ChecksHold(db: Db, tx: Tx) {
    var n := Rank(tx.phase);
    && (tx.phase.Lost? ==> TxKey(tx) in db.records && db.records[TxKey(tx)] == tx.phase.stored)
    && (n >= 1 ==> TxKey(tx) !in db.records)
    && (n >= 2 ==> EnsureProjectExists(db, tx.cmd).None?)
    && (n >= 3 ==> EnsureMilestoneBelongsToProject(db, tx.cmd).None?)
  }

  // No committed row has an id the transaction is about to commit.
  ghost predicate IdsFree(db: Db, w: Writes) {
    && w.issues.Keys !! db.issues.Keys
    && w.activities.Keys !! db.activities.Keys
    && (forall o :: o in w.outbox ==> !Outbox.InsertConflicts(db.outbox, o, w.outbox[o].event))
  }

  ghost predicate LocksOk(db: Db, tx: Tx) {
    ChecksHold(db, tx) && IdsFree(db, tx.writes)
  }

  // Two open transactions never hold the same key or the same pending id.
  ghost predicate Compatible(a: Tx, b: Tx) {
    && (!a.phase.Begun? && !b.phase.Begun? ==> TxKey(a) != TxKey(b))
    && a.writes.issues.Keys !! b.writes.issues.Keys
    && a.writes.activities.Keys !! b.writes.activities.Keys
    && (forall o :: o in b.writes.outbox ==> !Outbox.InsertConflicts(a.writes.outbox, o, b.writes.outbox[o].event))
  }

  ghost predicate TxsOk(s: State) {
    && (forall t :: t in s.txs ==>
          WritesOk(s.txs[t]) && LocksOk(s.db, s.txs[t]) && s.txs[t].auth.workspace == t.workspace)
    && (forall t, u :: t in s.txs && u in s.txs && t != u ==> Compatible(s.txs[t], s.txs[u]))
  }

  ghost predicate Inv(s: State) {
    NoPlaceholder(s.db) && TxsOk(s)
  }

  // ----- one statement of one transaction

  ghost predicate Committing(tx: Tx, action: Action) { action.Commit? && tx.phase.Finalized? }

  ghost predicate PeersOk(peers: Peers, tx: Tx) {
    forall p :: p in peers ==> Compatible(tx, peers[p]) && Compatible(peers[p], tx)
  }

  // A transaction that goes on keeps its shape, its locks, and its distance from the others.
  ghost predicate GoesOn(db: Db, peers: Peers, tx: Tx, tx': Tx) {
    && tx'.auth == tx.auth && tx'.cmd == tx.cmd && tx'.event == tx.event && tx'.expiresAt == tx.expiresAt
    && WritesOk(tx') && LocksOk(db, tx') && PeersOk(peers, tx')
  }

  // A transaction that ends either commits a whole creation, or changes nothing and reports
  // what the atomic step reports, or a failure of the database.
  ghost predicate Ends(db: Db, tx: Tx, writes: Writes, result: CreateResult, activityId: Uuid, outboxId: Uuid)
    requires NoPlaceholder(db)
  {
    if result.Created? then
      && writes == FullWrites(tx.cmd, tx.event, tx.createdAt, tx.expiresAt, activityId, outboxId)
      && writes == tx.writes
      && result == Created(NewIssue(tx.cmd, tx.event.occurredAt))
      && activityId !in db.activities
      && !Outbox.InsertConflicts(db.outbox, outboxId, OutboxEvent(tx.cmd, tx.event))
    else
      && writes == NO_WRITES
      && (|| result == Rejected(Database)
          || (Abs(db), result) == AtomicCreate(Abs(db), tx.cmd, tx.event.occurredAt, tx.expiresAt))
  }

  ghost predicate OutcomeOk(
    db: Db, peers: Peers, tx: Tx, action: Action, outcome: Outcome, activityId: Uuid, outboxId: Uuid)
    requires NoPlaceholder(db)
  {
    match outcome
    case Blocked => !Committing(tx, action)
    case Continue(tx') => !Committing(tx, action) && GoesOn(db, peers, tx, tx')
    case Finish(writes, result) =>
      (result.Created? <==> Committing(tx, action)) && Ends(db, tx, writes, result, activityId, outboxId)
  }

  ghost predicate Ready(db: Db, peers: Peers, tx: Tx) {
    NoPlaceholder(db) && WritesOk(tx) && LocksOk(db, tx) && PeersOk(peers, tx)
  }

  lemma ReserveOk(db: Db, peers: Peers, tx: Tx)
    requires Ready(db, peers, tx) && tx.phase.Begun?
    ensures OutcomeOk(db, peers, tx, Reserve, DoReserve(db, peers, tx), 0, 0)
  {
    var out := DoReserve(db, peers, tx);
    if out.Continue? {
      forall p | p in peers ensures Compatible(out.tx, peers[p]) && Compatible(peers[p], out.tx) {
        assert !KeyLocked(peers, TxKey(tx));
      }
    }
  }

  lemma EnsureProjectOk(db: Db, peers: Peers, tx: Tx)
    requires Ready(db, peers, tx) && tx.phase.Won?
    ensures OutcomeOk(db, peers, tx, EnsureProject, DoEnsureProject(db, tx), 0, 0)
  {
    PreconditionIsAtomic(db, tx.cmd, tx.event.occurredAt, tx.expiresAt);
  }

  lemma EnsureMilestoneOk(db: Db, peers: Peers, tx: Tx)
    requires Ready(db, peers, tx) && tx.phase.ProjectChecked?
    ensures OutcomeOk(db, peers, tx, EnsureMilestone, DoEnsureMilestone(db, tx), 0, 0)
  {
    PreconditionIsAtomic(db, tx.cmd, tx.event.occurredAt, tx.expiresAt);
  }

  lemma InsertIssueOk(db: Db, peers: Peers, tx: Tx)
    requires Ready(db, peers, tx) && tx.phase.MilestoneChecked?
    ensures OutcomeOk(db, peers, tx, InsertIssue, DoInsertIssue(db, peers, tx), 0, 0)
  {
    InsertedRowDecodes(tx.cmd, tx.event.occurredAt);
    var out := DoInsertIssue(db, peers, tx);
    if out.Continue? {
      forall p | p in peers ensures Compatible(out.tx, peers[p]) && Compatible(peers[p], out.tx) {
        assert !IssuePending(peers, tx.cmd.issueId);
      }
    }
  }

  lemma InsertActivityOk(db: Db, peers: Peers, tx: Tx, id: Uuid)
    requires Ready(db, peers, tx) && tx.phase.IssueInserted?
    ensures OutcomeOk(db, peers, tx, InsertActivity(id), DoInsertActivity(db, peers, tx, id), 0, 0)
  {
    var out := DoInsertActivity(db, peers, tx, id);
    if out.Continue? {
      var w := out.tx.writes.activities;
      assert id in w && w == map[id := NewActivity(tx.cmd, tx.event)];
      forall p | p in peers ensures Compatible(out.tx, peers[p]) && Compatible(peers[p], out.tx) {
        assert !ActivityPending(peers, id);
      }
    }
  }

  lemma InsertOutboxOk(db: Db, peers: Peers, tx: Tx, id: Uuid)
    requires Ready(db, peers, tx) && tx.phase.ActivityInserted?
    ensures OutcomeOk(db, peers, tx, InsertOutbox(id), DoInsertOutbox(db, peers, tx, id), 0, 0)
  {
    var out := DoInsertOutbox(db, peers, tx, id);
    if out.Continue? {
      var w := out.tx.writes.outbox;
      assert id in w && w == map[id := NewOutboxRow(tx.cmd, tx.event)];
      forall p | p in peers ensures Compatible(out.tx, peers[p]) && Compatible(peers[p], out.tx) {
        assert !OutboxPending(peers, id, OutboxEvent(tx.cmd, tx.event));
        assert !Outbox.InsertConflicts(peers[p].writes.outbox, id, OutboxEvent(tx.cmd, tx.event));
      }
    }
  }

  lemma FinalizeOk(db: Db, peers: Peers, tx: Tx)
    requires Ready(db, peers, tx) && tx.phase.OutboxInserted?
    ensures OutcomeOk(db, peers, tx, Finalize, DoFinalize(tx), 0, 0)
  {
  }

  lemma CommitOk(db: Db, peers: Peers, tx: Tx, action: Action) returns (activityId: Uuid, outboxId: Uuid)
    requires Ready(db, peers, tx) && (tx.phase.Lost? || tx.phase.Finalized?) && action.Commit?
    ensures OutcomeOk(db, peers, tx, action, DoCommit(tx), activityId, outboxId)
  {
    activityId, outboxId := 0, 0;
    if tx.phase.Lost? {
      StoredBranchIsAtomic(db, tx.cmd, tx.event.occurredAt, tx.expiresAt);
    } else {
      activityId :| activityId in tx.writes.activities
        && tx.writes.activities == map[activityId := NewActivity(tx.cmd, tx.event)];
      outboxId :| outboxId in tx.writes.outbox && tx.writes.outbox == map[outboxId := NewOutboxRow(tx.cmd, tx.event)];
    }
  }

  // ----- why a statement fails, and why it waits

  // The record would be another tenant's, or the row's id or event is taken.
  ghost predicate Refused(db: Db, tx: Tx, action: Action) {
    || (action.Reserve? && tx.cmd.workspace != tx.auth.workspace)
    || (action.InsertIssue? && tx.cmd.issueId in db.issues)
    || (action.InsertActivity? && action.id in db.activities)
    || (action.InsertOutbox? &&
        (action.id in db.outbox || exists o :: o in db.outbox && db.outbox[o].event.eventId == tx.event.eventId))
  }

  // Another open transaction has the key, or has written a row with the id or the event.
  ghost predicate HasFirst(peer: Tx, tx: Tx, action: Action) {
    || (action.Reserve? && !peer.phase.Begun?
        && peer.cmd.workspace == tx.cmd.workspace && peer.cmd.key == tx.cmd.key)
    || (action.InsertIssue? && tx.cmd.issueId in peer.writes.issues)
    || (action.InsertActivity? && action.id in peer.writes.activities)
    || (action.InsertOutbox? &&
        (|| action.id in peer.writes.outbox
         || exists o :: o in peer.writes.outbox && peer.writes.outbox[o].event.eventId == tx.event.eventId))
  }

  ghost predicate Waits(peers: Peers, tx: Tx, action: Action) {
    exists p :: p in peers && HasFirst(peers[p], tx, action)
  }

  lemma WaitsWhenBlocked(db: Db, peers: Peers, tx: Tx, action: Action)
    requires Ready(db, peers, tx) && InOrder(tx.phase, action)
    ensures Advance(db, peers, tx, action).Blocked? <==>
      Waits(peers, tx, action) && (action.Reserve? ==> tx.cmd.workspace == tx.auth.workspace)
  {
    if action.InsertOutbox? && OutboxPending(peers, action.id, OutboxEvent(tx.cmd, tx.event)) {
      var p :| p in peers && Outbox.InsertConflicts(peers[p].writes.outbox, action.id, OutboxEvent(tx.cmd, tx.event));
      assert HasFirst(peers[p], tx, action);
    }
    if Waits(peers, tx, action) {
      var p :| p in peers && HasFirst(peers[p], tx, action);
      assert action.InsertOutbox? ==>
        Outbox.InsertConflicts(peers[p].writes.outbox, action.id, OutboxEvent(tx.cmd, tx.event));
    }
  }

  // A statement whose turn it is waits exactly when another transaction has first what it
  // needs; it fails with an error of the database exactly when it is aborted or refused; and
  // a commit answers what the atomic step answers.
  lemma AdvanceExplained(db: Db, peers: Peers, tx: Tx, action: Action)
    requires Ready(db, peers, tx) && InOrder(tx.phase, action)
    ensures var out := Advance(db, peers, tx, action);
      && (out.Blocked? <==> Waits(peers, tx, action) && (action.Reserve? ==> tx.cmd.workspace == tx.auth.workspace))
      && (out.Finish? && out.result == Rejected(Database) <==>
            action.Abort? || (Refused(db, tx, action) && !out.Blocked?))
      && (action.Commit? ==>
            && out.Finish?
            && out.result == AtomicCreate(Abs(db), tx.cmd, tx.event.occurredAt, tx.expiresAt).1)
  {
    WaitsWhenBlocked(db, peers, tx, action);
    if action.Commit? {
      var a, o := CommitOk(db, peers, tx, action);
    }
  }

  lemma AdvanceOk(db: Db, peers: Peers, tx: Tx, action: Action) returns (activityId: Uuid, outboxId: Uuid)
    requires Ready(db, peers, tx)
    ensures OutcomeOk(db, peers, tx, action, Advance(db, peers, tx, action), activityId, outboxId)
  {
    activityId, outboxId := 0, 0;
    if InOrder(tx.phase, action) {
      match action {
        case Reserve => ReserveOk(db, peers, tx);
        case EnsureProject => EnsureProjectOk(db, peers, tx);
        case EnsureMilestone => EnsureMilestoneOk(db, peers, tx);
        case InsertIssue => InsertIssueOk(db, peers, tx);
        case InsertActivity(id) => InsertActivityOk(db, peers, tx, id);
        case InsertOutbox(id) => InsertOutboxOk(db, peers, tx, id);
        case Finalize => FinalizeOk(db, peers, tx);
        case Commit(_, _) => activityId, outboxId := CommitOk(db, peers, tx, action);
        case Abort =>
      }
    }
  }

  // ----- its effect on the system

  // Not at all, or by committing one creation whole.
  ghost predicate Quiet(s: State, s': State) {
    s'.db == s.db && s'.hist == s.hist
  }

  ghost predicate CommitsOne(s: State, s': State, tx: Tx, activityId: Uuid, outboxId: Uuid) {
    && CreatedRows(s.db, s'.db, tx.cmd, tx.event, tx.createdAt, tx.expiresAt, activityId, outboxId)
    && s'.hist == s.hist.(created := s.hist.created + multiset{TxKey(tx)},
                          lastExpiry := s.hist.lastExpiry[TxKey(tx) := tx.expiresAt])
  }

  lemma CommitKeepsIdsFree(before: Db, after: Db, cmd: Command, event: CreatedEvent, now: Time, expiresAt: Time,
                           activityId: Uuid, outboxId: Uuid, w: Writes)
    requires CreatedRows(before, after, cmd, event, now, expiresAt, activityId, outboxId)
    requires IdsFree(before, w)
    requires cmd.issueId !in w.issues && activityId !in w.activities
    requires forall o :: o in w.outbox ==> o != outboxId && w.outbox[o].event.eventId != event.eventId
    ensures IdsFree(after, w)
  {
    forall o | o in w.outbox ensures !Outbox.InsertConflicts(after.outbox, o, w.outbox[o].event) {
      assert !Outbox.InsertConflicts(before.outbox, o, w.outbox[o].event);
    }
  }

  lemma CommitKeepsLocks(db: Db, after: Db, tx: Tx, u: Tx, activityId: Uuid, outboxId: Uuid)
    requires !tx.phase.Begun? && LocksOk(db, u)
    requires Compatible(tx, u)
    requires tx.writes == FullWrites(tx.cmd, tx.event, tx.createdAt, tx.expiresAt, activityId, outboxId)
    requires CreatedRows(db, after, tx.cmd, tx.event, tx.createdAt, tx.expiresAt, activityId, outboxId)
    ensures LocksOk(after, u)
  {
    assert tx.cmd.issueId in tx.writes.issues && activityId in tx.writes.activities;
    assert outboxId in tx.writes.outbox && tx.writes.outbox[outboxId].event == OutboxEvent(tx.cmd, tx.event);
    forall o | o in u.writes.outbox ensures o != outboxId && u.writes.outbox[o].event.eventId != tx.event.eventId {
      assert !Outbox.InsertConflicts(tx.writes.outbox, o, u.writes.outbox[o].event);
    }
    CommitKeepsIdsFree(db, after, tx.cmd, tx.event, tx.createdAt, tx.expiresAt, activityId, outboxId, u.writes);
    assert ChecksHold(after, u);
  }

  lemma CommittedTxsOk(s: State, s': State, id: TxId, a: Uuid, o: Uuid)
    requires TxsOk(s) && id in s.txs && s.txs[id].phase.Finalized? && s'.txs == s.txs - {id}
    requires var tx := s.txs[id];
      && tx.writes == FullWrites(tx.cmd, tx.event, tx.createdAt, tx.expiresAt, a, o)
      && CreatedRows(s.db, s'.db, tx.cmd, tx.event, tx.createdAt, tx.expiresAt, a, o)
    ensures TxsOk(s')
  {
    forall u | u in s'.txs
      ensures WritesOk(s'.txs[u]) && LocksOk(s'.db, s'.txs[u]) && s'.txs[u].auth.workspace == u.workspace
    {
      CommitKeepsLocks(s.db, s'.db, s.txs[id], s.txs[u], a, o);
    }
  }

  lemma GoesOnKeepsTxs(s: State, s': State, id: TxId, tx': Tx)
    requires TxsOk(s) && id in s.txs && s' == s.(txs := s.txs[id := tx'])
    requires GoesOn(s.db, s.txs - {id}, s.txs[id], tx')
    ensures TxsOk(s')
  {
    forall u | u in s'.txs && u != id
      ensures Compatible(s'.txs[id], s'.txs[u]) && Compatible(s'.txs[u], s'.txs[id])
    {
      assert u in s.txs - {id} && (s.txs - {id})[u] == s.txs[u];
    }
  }

  lemma ResumeOk(s: State, id: TxId, action: Action, outcome: Outcome, activityId: Uuid, outboxId: Uuid)
    requires Inv(s) && id in s.txs
    requires OutcomeOk(s.db, s.txs - {id}, s.txs[id], action, outcome, activityId, outboxId)
    ensures var s' := Resume(s, id, s.txs[id], outcome);
      && Inv(s')
      && (!Committing(s.txs[id], action) ==> Quiet(s, s'))
      && (Committing(s.txs[id], action) ==> CommitsOne(s, s', s.txs[id], activityId, outboxId))
  {
    var tx, s' := s.txs[id], Resume(s, id, s.txs[id], outcome);
    match outcome
    case Blocked =>
    case Continue(tx') => GoesOnKeepsTxs(s, s', id, tx');
    case Finish(writes, result) =>
      if result.Created? {
        MergeCreatesRows(s.db, tx.cmd, tx.event, tx.createdAt, tx.expiresAt, activityId, outboxId);
        CommittedTxsOk(s, s', id, activityId, outboxId);
      } else {
        assert Merge(s.db, NO_WRITES) == s.db;
      }
  }

  lemma BeginKeepsInv(s: State, id: TxId, action: Action)
    requires Inv(s) && action.Begin?
    ensures Inv(NextCreate(s, id, action))
  {
    if id !in s.txs && id.workspace == action.auth.workspace {
      var s' := NextCreate(s, id, action);
      var tx := s'.txs[id];
      assert WritesOk(tx) && LocksOk(s.db, tx);
      forall u | u in s.txs ensures Compatible(tx, s.txs[u]) && Compatible(s.txs[u], tx) {
        assert tx.writes == NO_WRITES;
      }
      forall t | t in s'.txs
        ensures WritesOk(s'.txs[t]) && LocksOk(s'.db, s'.txs[t]) && s'.txs[t].auth.workspace == t.workspace
      {
        assert t != id ==> s'.txs[t] == s.txs[t];
      }
    }
  }

  lemma CreateStep(s: State, id: TxId, action: Action) returns (activityId: Uuid, outboxId: Uuid)
    requires Inv(s)
    ensures Inv(NextCreate(s, id, action))
    ensures !(id in s.txs && Committing(s.txs[id], action)) ==> Quiet(s, NextCreate(s, id, action))
    ensures id in s.txs && Committing(s.txs[id], action) ==>
      && CommitsOne(s, NextCreate(s, id, action), s.txs[id], activityId, outboxId)
      && s.txs[id].writes.outbox == map[outboxId := NewOutboxRow(s.txs[id].cmd, s.txs[id].event)]
    ensures id in s.txs && !action.Begin? ==>
      OutcomeOk(s.db, s.txs - {id}, s.txs[id], action, Advance(s.db, s.txs - {id}, s.txs[id], action),
                activityId, outboxId)
  {
    activityId, outboxId := 0, 0;
    if action.Begin? {
      BeginKeepsInv(s, id, action);
    } else if id in s.txs {
      activityId, outboxId := AdvanceOk(s.db, s.txs - {id}, s.txs[id], action);
      ResumeOk(s, id, action, Advance(s.db, s.txs - {id}, s.txs[id], action), activityId, outboxId);
    }
  }

  // The worker's statements never insert, so they cannot take a pending id.
  lemma OutboxStepFacts(rows: Outbox.Table, step: Outbox.Step)
    requires !step.Insert?
    ensures var after := Outbox.Apply(rows, step);
      && after.Keys <= rows.Keys
      && (forall o :: o in after ==> after[o].event == rows[o].event && after[o].workspace == rows[o].workspace)
      && (forall o :: o in rows && o !in after ==> rows[o].Terminal())
  {
  }

  lemma WorkerKeepsInv(s: State, step: Outbox.Step)
    requires Inv(s)
    ensures Inv(NextWorker(s, step))
  {
    if !step.Insert? {
      OutboxStepFacts(s.db.outbox, step);
      var s' := NextWorker(s, step);
      forall t | t in s'.txs ensures LocksOk(s'.db, s'.txs[t]) {
        var w := s'.txs[t].writes;
        assert IdsFree(s.db, w);
        forall o | o in w.outbox ensures !Outbox.InsertConflicts(s'.db.outbox, o, w.outbox[o].event) {
          assert !Outbox.InsertConflicts(s.db.outbox, o, w.outbox[o].event);
        }
      }
    }
  }

  lemma PurgeKeepsInv(s: State, workspace: Uuid, before: Time)
    requires Inv(s)
    ensures Inv(NextPurge(s, workspace, before))
  {
    var s' := NextPurge(s, workspace, before);
    forall t | t in s'.txs ensures LocksOk(s'.db, s'.txs[t]) {
    }
  }

  lemma AddProjectKeepsInv(s: State, workspace: Uuid, id: Uuid)
    requires Inv(s)
    ensures Inv(NextAddProject(s, workspace, id))
  {
    var s' := NextAddProject(s, workspace, id);
    forall t | t in s'.txs ensures LocksOk(s'.db, s'.txs[t]) {
      assert IdsFree(s'.db, s.txs[t].writes) by { assert IdsFree(s.db, s.txs[t].writes); }
    }
  }

  lemma AddMilestoneKeepsInv(s: State, workspace: Uuid, id: Uuid, project: Uuid)
    requires Inv(s)
    ensures Inv(NextAddMilestone(s, workspace, id, project))
  {
    var s' := NextAddMilestone(s, workspace, id, project);
    forall t | t in s'.txs ensures LocksOk(s'.db, s'.txs[t]) {
      assert IdsFree(s'.db, s.txs[t].writes) by { assert IdsFree(s.db, s.txs[t].writes); }
    }
  }

  lemma NextKeepsInv(s: State, step: Step)
    requires Inv(s)
    ensures Inv(Next(s, step))
  {
    if step.Create? {
      assert Next(s, step) == NextCreate(s, step.tx, step.action);
      var a, o := CreateStep(s, step.tx, step.action);
    } else if step.Worker? {
      assert Next(s, step) == NextWorker(s, step.step);
      WorkerKeepsInv(s, step.step);
    } else if step.Published? {
      assert Next(s, step) == s;
    } else if step.PurgeRecords? {
      assert Next(s, step) == NextPurge(s, step.workspace, Cutoff(step));
      PurgeKeepsInv(s, step.workspace, Cutoff(step));
    } else if step.AddProject? {
      assert Next(s, step) == NextAddProject(s, step.workspace, step.id);
      AddProjectKeepsInv(s, step.workspace, step.id);
    } else {
      assert Next(s, step) == NextAddMilestone(s, step.workspace, step.id, step.project);
      AddMilestoneKeepsInv(s, step.workspace, step.id, step.project);
    }
  }

  // No interleaving ever commits a placeholder, lets two transactions hold one key, or lets
  // the tables move under what an open transaction has checked.
  lemma {:induction false} RunKeepsInv(s: State, steps: seq<Step>)
    requires Inv(s)
    ensures Inv(Run(s, steps))
    decreases |steps|
  {
    if steps != [] {
      NextKeepsInv(s, steps[0]);
      RunKeepsInv(Next(s, steps[0]), steps[1..]);
    }
  }
}
