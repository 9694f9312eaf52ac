// Concurrent issue creation over shared tables, interleaved statement by statement with the
// outbox worker and the retention purges.
module System {
  import opened Base
  import opened Issues
  import opened IssueStore
  import Outbox

  const SEVEN_DAYS: Time := 7 * 24 * 3600 * SECOND

  // The last statement a create transaction has executed.
  datatype Phase =
    | Begun
    | Lost(stored: Record)
    | Won
    | ProjectChecked
    | MilestoneChecked
    | IssueInserted
    | ActivityInserted
    | OutboxInserted
    | Finalized

  datatype Tx = Tx(
    auth: Auth, cmd: Command, event: CreatedEvent, createdAt: Time, expiresAt: Time, phase: Phase, writes: Writes)

  datatype TxId = TxId(workspace: Uuid, number: nat)

  datatype Action =
    | Begin(auth: Auth, cmd: Command, event: CreatedEvent, createdAt: Time, sampledAt: Time)
    | Reserve
    | EnsureProject
    | EnsureMilestone
    | InsertIssue
    | InsertActivity(id: Uuid)
    | InsertOutbox(id: Uuid)
    | Finalize
    | Commit(now: Time, acknowledged: bool)
    | Abort

  datatype Outcome = Blocked | Continue(tx: Tx) | Finish(writes: Writes, result: CreateResult)

  function RollBack(e: StoreError): Outcome { Finish(NO_WRITES, Rejected(e)) }

  // ----- what other open transactions hold

  type Peers = map<TxId, Tx>

  function TxKey(tx: Tx): RecordKey { KeyOf(tx.cmd) }

  // A reserving statement locks the record's key, whether it inserted it or found it.
  predicate KeyLocked(peers: Peers, k: RecordKey) {
    exists p :: p in peers && !peers[p].phase.Begun? && TxKey(peers[p]) == k
  }

  predicate IssuePending(peers: Peers, id: Uuid) {
    exists p :: p in peers && id in peers[p].writes.issues
  }

  predicate ActivityPending(peers: Peers, id: Uuid) {
    exists p :: p in peers && id in peers[p].writes.activities
  }

  predicate OutboxPending(peers: Peers, id: Uuid, event: Outbox.Event) {
    exists p :: p in peers && Outbox.InsertConflicts(peers[p].writes.outbox, id, event)
  }

  // ----- one statement of one transaction
  // A statement whose key or id another open transaction holds waits for that one to end.

  function DoReserve(db: Db, peers: Peers, tx: Tx): Outcome {
    if tx.cmd.workspace != tx.auth.workspace then RollBack(Database)
    else if KeyLocked(peers, TxKey(tx)) then Blocked
    else if TxKey(tx) in db.records then Continue(tx.(phase := Lost(db.records[TxKey(tx)])))
    else Continue(tx.(phase := Won, writes := tx.writes.(records :=
      tx.writes.records[TxKey(tx) := Record(tx.cmd.fingerprint, Reserving, tx.expiresAt, tx.createdAt)])))
  }

  function DoEnsureProject(db: Db, tx: Tx): Outcome {
    var e := EnsureProjectExists(db, tx.cmd);
    if e.Some? then RollBack(e.value) else Continue(tx.(phase := ProjectChecked))
  }

  function DoEnsureMilestone(db: Db, tx: Tx): Outcome {
    var e := EnsureMilestoneBelongsToProject(db, tx.cmd);
    if e.Some? then RollBack(e.value) else Continue(tx.(phase := MilestoneChecked))
  }

  function DoInsertIssue(db: Db, peers: Peers, tx: Tx): Outcome {
    if IssuePending(peers, tx.cmd.issueId) then Blocked
    else if tx.cmd.issueId in db.issues then RollBack(Database)
    else
      match MapIssueRow(InsertedRow(tx.cmd, tx.event.occurredAt))
      case Failure(e) => RollBack(e)
      case Success(issue) => Continue(tx.(phase := IssueInserted, writes := tx.writes.(issues :=
        tx.writes.issues[tx.cmd.issueId := issue])))
  }

  function DoInsertActivity(db: Db, peers: Peers, tx: Tx, id: Uuid): Outcome {
    if ActivityPending(peers, id) then Blocked
    else if id in db.activities then RollBack(Database)
    else Continue(tx.(phase := ActivityInserted, writes := tx.writes.(activities :=
      tx.writes.activities[id := NewActivity(tx.cmd, tx.event)])))
  }

  function DoInsertOutbox(db: Db, peers: Peers, tx: Tx, id: Uuid): Outcome {
    if OutboxPending(peers, id, OutboxEvent(tx.cmd, tx.event)) then Blocked
    else if Outbox.InsertConflicts(db.outbox, id, OutboxEvent(tx.cmd, tx.event)) then RollBack(Database)
    else Continue(tx.(phase := OutboxInserted, writes := tx.writes.(outbox :=
      tx.writes.outbox[id := NewOutboxRow(tx.cmd, tx.event)])))
  }

  function DoFinalize(tx: Tx): Outcome {
    if tx.cmd.issueId !in tx.writes.issues || TxKey(tx) !in tx.writes.records then RollBack(Database)
    else
      var record := tx.writes.records[TxKey(tx)].(payload := Response(tx.writes.issues[tx.cmd.issueId]));
      Continue(tx.(phase := Finalized, writes := tx.writes.(records := tx.writes.records[TxKey(tx) := record])))
  }

  // Whether or not its acknowledgement reaches the caller.
  function DoCommit(tx: Tx): Outcome {
    match tx.phase
    case Lost(stored) => Finish(tx.writes, BranchOnStoredFingerprint(tx.cmd, stored))
    case Finalized =>
      if tx.cmd.issueId !in tx.writes.issues then RollBack(Database)
      else Finish(tx.writes, Created(tx.writes.issues[tx.cmd.issueId]))
    case _ => Blocked
  }

  // The statements run in this order only; a transaction may abort before any of them.
  predicate InOrder(phase: Phase, action: Action) {
    match action
    case Begin(_, _, _, _, _) => false
    case Reserve => phase.Begun?
    case EnsureProject => phase.Won?
    case EnsureMilestone => phase.ProjectChecked?
    case InsertIssue => phase.MilestoneChecked?
    case InsertActivity(_) => phase.IssueInserted?
    case InsertOutbox(_) => phase.ActivityInserted?
    case Finalize => phase.OutboxInserted?
    case Commit(_, _) => phase.Lost? || phase.Finalized?
    case Abort => true
  }

  function Advance(db: Db, peers: Peers, tx: Tx, action: Action): Outcome {
    if !InOrder(tx.phase, action) then Blocked
    else
      match action
      case Begin(_, _, _, _, _) => Blocked
      case Reserve => DoReserve(db, peers, tx)
      case EnsureProject => DoEnsureProject(db, tx)
      case EnsureMilestone => DoEnsureMilestone(db, tx)
      case InsertIssue => DoInsertIssue(db, peers, tx)
      case InsertActivity(id) => DoInsertActivity(db, peers, tx, id)
      case InsertOutbox(id) => DoInsertOutbox(db, peers, tx, id)
      case Finalize => DoFinalize(tx)
      case Commit(_, _) => DoCommit(tx)
      case Abort => RollBack(Database)
  }

  // ----- the whole system

  // What has happened, for the statements about whole runs.
  datatype History = History(
    purgedRows: set<Outbox.Row>,
    created: multiset<RecordKey>,
    purgedKeys: multiset<RecordKey>,
    lastExpiry: map<RecordKey, Time>)

  datatype State = State(db: Db, txs: Peers, hist: History)

  const INIT := State(Db(map[], map[], map[], map[], map[], map[]), map[],
                      History({}, multiset{}, multiset{}, map[]))

  // Published: a publish of the row, leased under the token, has returned Ok. It changes nothing here.
  datatype Step =
    | Create(tx: TxId, action: Action)
    | Worker(step: Outbox.Step)
    | Published(id: Uuid, token: Uuid)
    | PurgeRecords(workspace: Uuid, now: Time, retention: Time)
    | AddProject(workspace: Uuid, id: Uuid)
    | AddMilestone(workspace: Uuid, id: Uuid, project: Uuid)

  // The purge waits for the row lock of a transaction that found the record.
  predicate PurgeBlocked(s: State, workspace: Uuid, before: Time) {
    exists t :: t in s.txs && s.txs[t].phase.Lost?
      && TxKey(s.txs[t]) in s.db.records && Expired(TxKey(s.txs[t]), s.db.records[TxKey(s.txs[t])], workspace, before)
  }

  function Finished(s: State, id: TxId, tx: Tx, writes: Writes, result: CreateResult): State {
    State(Merge(s.db, writes), s.txs - {id},
      if result.Created? then
        s.hist.(created := s.hist.created + multiset{TxKey(tx)},
                lastExpiry := s.hist.lastExpiry[TxKey(tx) := tx.expiresAt])
      else s.hist)
  }

  function Resume(s: State, id: TxId, tx: Tx, outcome: Outcome): State {
    match outcome
    case Blocked => s
    case Continue(tx') => s.(txs := s.txs[id := tx'])
    case Finish(writes, result) => Finished(s, id, tx, writes, result)
  }

  function NextCreate(s: State, id: TxId, action: Action): State {
    if action.Begin? then
      if id in s.txs || id.workspace != action.auth.workspace then s
      else s.(txs := s.txs[id := Tx(action.auth, action.cmd, action.event, action.createdAt,
                                    action.sampledAt + SEVEN_DAYS, Begun, NO_WRITES)])
    else if id !in s.txs then s
    else Resume(s, id, s.txs[id], Advance(s.db, s.txs - {id}, s.txs[id], action))
  }

  // Workers lease, complete and purge; rows are inserted by creations only.
  function NextWorker(s: State, step: Outbox.Step): State {
    if step.Insert? then s
    else
      var after := Outbox.Apply(s.db.outbox, step);
      var gone := set o | o in s.db.outbox && o !in after :: s.db.outbox[o];
      s.(db := s.db.(outbox := after), hist := s.hist.(purgedRows := s.hist.purgedRows + gone))
  }

  function NextPurge(s: State, workspace: Uuid, before: Time): State {
    if PurgeBlocked(s, workspace, before) then s
    else
      var kept := Remaining(s.db.records, workspace, before);
      s.(db := s.db.(records := kept),
         hist := s.hist.(purgedKeys := s.hist.purgedKeys + multiset(s.db.records.Keys - kept.Keys)))
  }

  function NextAddProject(s: State, workspace: Uuid, id: Uuid): State {
    if id in s.db.projects then s else s.(db := s.db.(projects := s.db.projects[id := workspace]))
  }

  predicate MilestoneInsertable(db: Db, workspace: Uuid, id: Uuid, project: Uuid) {
    id !in db.milestones && project in db.projects && db.projects[project] == workspace
  }

  function NextAddMilestone(s: State, workspace: Uuid, id: Uuid, project: Uuid): State {
    if !MilestoneInsertable(s.db, workspace, id, project) then s
    else s.(db := s.db.(milestones := s.db.milestones[id := Milestone(workspace, project)]))
  }

  // The purge removes the records that expired before this.
  function Cutoff(step: Step): Time
    requires step.PurgeRecords?
  {
    step.now - step.retention
  }

  function Next(s: State, step: Step): State {
    match step
    case Create(id, action) => NextCreate(s, id, action)
    case Worker(ws) => NextWorker(s, ws)
    case Published(_, _) => s
    case PurgeRecords(workspace, _, _) => NextPurge(s, workspace, Cutoff(step))
    case AddProject(workspace, id) => NextAddProject(s, workspace, id)
    case AddMilestone(workspace, id, project) => NextAddMilestone(s, workspace, id, project)
  }

  function Run(s: State, steps: seq<Step>): State
    decreases |steps|
  {
    if steps == [] then s else Run(Next(s, steps[0]), steps[1..])
  }

  lemma {:induction false} RunSplit(s: State, a: seq<Step>, b: seq<Step>)
    ensures Run(s, a + b) == Run(Run(s, a), b)
    decreases |a|
  {
    if a == [] {
      assert a + b == b;
    } else {
      assert (a + b)[0] == a[0] && (a + b)[1..] == a[1..] + b;
      RunSplit(Next(s, a[0]), a[1..], b);
    }
  }
}
