// Tenant independence: what one workspace sees of a mixed run is its own run alone.
module Tenancy {
  import opened Base
  import opened Issues
  import opened IssueStore
  import opened System
  import opened SystemInvariant
  import Outbox

  // ----- one tenant's part of the state, as the row-level policies show it

  function Projects(m: map<Uuid, Uuid>, w: Uuid): map<Uuid, Uuid> {
    map k | k in m && m[k] == w :: m[k]
  }

  function Milestones(m: map<Uuid, Milestone>, w: Uuid): map<Uuid, Milestone> {
    map k | k in m && m[k].workspace == w :: m[k]
  }

  function IssuesOf(m: map<Uuid, Issue>, w: Uuid): map<Uuid, Issue> {
    map k | k in m && m[k].workspace == w :: m[k]
  }

  function Activities(m: map<Uuid, Activity>, w: Uuid): map<Uuid, Activity> {
    map k | k in m && m[k].workspace == w :: m[k]
  }

  function Rows(m: Outbox.Table, w: Uuid): Outbox.Table {
    map k | k in m && m[k].workspace == w :: m[k]
  }

  function Records(m: map<RecordKey, Record>, w: Uuid): map<RecordKey, Record> {
    map k | k in m && k.workspace == w :: m[k]
  }

  function DbOf(db: Db, w: Uuid): Db {
    Db(Projects(db.projects, w), Milestones(db.milestones, w), IssuesOf(db.issues, w),
       Activities(db.activities, w), Rows(db.outbox, w), Records(db.records, w))
  }

  function TxsOf(txs: Peers, w: Uuid): Peers {
    map t | t in txs && t.workspace == w :: txs[t]
  }

  // The other state is the tenant's part of this one.
  ghost predicate PartOf(s: State, p: State, w: Uuid) {
    && p.db == DbOf(s.db, w)
    && p.txs == TxsOf(s.txs, w)
  }

  // ----- whose step it is; a publish answers a message, not a tenant

  predicate IsOf(step: Step, w: Uuid) {
    match step
    case Create(tx, _) => tx.workspace == w
    case Worker(Insert(_, workspace, _)) => workspace == w
    case Worker(ws) => ws.auth.workspace == w
    case Published(_, _) => true
    case PurgeRecords(workspace, _, _) => workspace == w
    case AddProject(workspace, _) => workspace == w
    case AddMilestone(workspace, _, _) => workspace == w
  }

  function Only(steps: seq<Step>, w: Uuid): seq<Step>
    decreases |steps|
  {
    if steps == [] then []
    else if IsOf(steps[0], w) then [steps[0]] + Only(steps[1..], w)
    else Only(steps[1..], w)
  }

  // No id is generated for two tenants.
  ghost predicate ApartStep(step: Step, owner: Uuid -> Uuid) {
    match step
    case Create(tx, Begin(_, cmd, event, _, _)) =>
      owner(cmd.issueId) == tx.workspace && owner(event.eventId) == tx.workspace
    case Create(tx, InsertActivity(id)) => owner(id) == tx.workspace
    case Create(tx, InsertOutbox(id)) => owner(id) == tx.workspace
    case AddProject(workspace, id) => owner(id) == workspace
    case AddMilestone(workspace, id, _) => owner(id) == workspace
    case _ => true
  }

  ghost predicate Apart(steps: seq<Step>, owner: Uuid -> Uuid) {
    forall i :: 0 <= i < |steps| ==> ApartStep(steps[i], owner)
  }

  // Every row and every open transaction has only its own tenant's ids.
  ghost predicate Placed(db: Db, owner: Uuid -> Uuid) {
    && (forall id :: id in db.projects ==> db.projects[id] == owner(id))
    && (forall id :: id in db.milestones ==> db.milestones[id].workspace == owner(id))
    && (forall id :: id in db.issues ==> db.issues[id].workspace == owner(id))
    && (forall id :: id in db.activities ==> db.activities[id].workspace == owner(id))
    && (forall id :: id in db.outbox ==>
          db.outbox[id].workspace == owner(id) && owner(db.outbox[id].event.eventId) == owner(id))
  }

  ghost predicate TxPlaced(tx: Tx, w: Uuid, owner: Uuid -> Uuid) {
    && tx.auth.workspace == w
    && owner(tx.cmd.issueId) == w && owner(tx.event.eventId) == w
    && (forall id :: id in tx.writes.activities ==> owner(id) == w)
    && (forall id :: id in tx.writes.outbox ==> owner(id) == w)
  }

  ghost predicate AllPlaced(s: State, owner: Uuid -> Uuid) {
    && Placed(s.db, owner)
    && forall t :: t in s.txs ==> TxPlaced(s.txs[t], t.workspace, owner)
  }

  // ----- the outbox statements, tenant by tenant

  lemma OtherTenantsStep(rows: Outbox.Table, step: Outbox.Step, w: Uuid)
    requires !step.Insert? && step.auth.workspace != w
    ensures Rows(Outbox.Apply(rows, step), w) == Rows(rows, w)
  {
    var after := Outbox.Apply(rows, step);
    assert Rows(after, w).Keys == Rows(rows, w).Keys;
  }

  lemma OwnStep(rows: Outbox.Table, step: Outbox.Step, w: Uuid)
    requires !step.Insert? && step.auth.workspace == w
    ensures Rows(Outbox.Apply(rows, step), w) == Outbox.Apply(Rows(rows, w), step)
    ensures step.MarkDelivered? ==> (Outbox.Succeeds(rows, step) <==> Outbox.Succeeds(Rows(rows, w), step))
  {
    if step.Lease? {
      assert Outbox.EligibleKeys(rows, w, step.now, step.locked)
          == Outbox.EligibleKeys(Rows(rows, w), w, step.now, step.locked);
      assert Outbox.Candidates(rows, step) == Outbox.Candidates(Rows(rows, w), step);
    }
  }

  lemma WorkerKeepsPart(s: State, p: State, step: Outbox.Step, w: Uuid)
    requires PartOf(s, p, w)
    ensures PartOf(NextWorker(s, step), if IsOf(Worker(step), w) then NextWorker(p, step) else p, w)
  {
    if !step.Insert? {
      if step.auth.workspace == w {
        OwnStep(s.db.outbox, step, w);
      } else {
        OtherTenantsStep(s.db.outbox, step, w);
      }
    }
  }

  // ----- one statement of one of the tenant's transactions sees the same in both

  ghost predicate PeersPlaced(peers: Peers, owner: Uuid -> Uuid) {
    forall t :: t in peers ==> WritesOk(peers[t]) && TxPlaced(peers[t], t.workspace, owner)
  }

  lemma SameKeyLocks(peers: Peers, k: RecordKey, owner: Uuid -> Uuid)
    requires PeersPlaced(peers, owner)
    ensures KeyLocked(peers, k) <==> KeyLocked(TxsOf(peers, k.workspace), k)
  {
    var own := TxsOf(peers, k.workspace);
    if KeyLocked(peers, k) {
      var t :| t in peers && !peers[t].phase.Begun? && TxKey(peers[t]) == k;
      assert t in own && own[t] == peers[t];
    }
    if KeyLocked(own, k) {
      var t :| t in own && !own[t].phase.Begun? && TxKey(own[t]) == k;
      assert t in peers && own[t] == peers[t];
    }
  }

  lemma SameIssuePending(peers: Peers, id: Uuid, owner: Uuid -> Uuid)
    requires PeersPlaced(peers, owner)
    ensures IssuePending(peers, id) <==> IssuePending(TxsOf(peers, owner(id)), id)
  {
    var own := TxsOf(peers, owner(id));
    if IssuePending(peers, id) {
      var t :| t in peers && id in peers[t].writes.issues;
      assert t in own && own[t] == peers[t];
    }
    if IssuePending(own, id) {
      var t :| t in own && id in own[t].writes.issues;
      assert t in peers && own[t] == peers[t];
    }
  }

  lemma SameActivityPending(peers: Peers, id: Uuid, owner: Uuid -> Uuid)
    requires PeersPlaced(peers, owner)
    ensures ActivityPending(peers, id) <==> ActivityPending(TxsOf(peers, owner(id)), id)
  {
    var own := TxsOf(peers, owner(id));
    if ActivityPending(peers, id) {
      var t :| t in peers && id in peers[t].writes.activities;
      assert t in own && own[t] == peers[t];
    }
    if ActivityPending(own, id) {
      var t :| t in own && id in own[t].writes.activities;
      assert t in peers && own[t] == peers[t];
    }
  }

  lemma SameOutboxPending(peers: Peers, id: Uuid, event: Outbox.Event, owner: Uuid -> Uuid)
    requires PeersPlaced(peers, owner) && owner(event.eventId) == owner(id)
    ensures OutboxPending(peers, id, event) <==> OutboxPending(TxsOf(peers, owner(id)), id, event)
  {
    var own := TxsOf(peers, owner(id));
    if OutboxPending(peers, id, event) {
      var t :| t in peers && Outbox.InsertConflicts(peers[t].writes.outbox, id, event);
      ConflictIsOwn(peers[t], t.workspace, id, event, owner);
      assert t in own && own[t] == peers[t];
    }
    if OutboxPending(own, id, event) {
      var t :| t in own && Outbox.InsertConflicts(own[t].writes.outbox, id, event);
      assert t in peers && own[t] == peers[t];
    }
  }

  lemma ConflictIsOwn(tx: Tx, w: Uuid, id: Uuid, event: Outbox.Event, owner: Uuid -> Uuid)
    requires WritesOk(tx) && TxPlaced(tx, w, owner) && owner(event.eventId) == owner(id)
    requires Outbox.InsertConflicts(tx.writes.outbox, id, event)
    ensures owner(id) == w
  {
    if id !in tx.writes.outbox {
      var o :| o in tx.writes.outbox && tx.writes.outbox[o].event.eventId == event.eventId;
      assert tx.writes.outbox[o] == NewOutboxRow(tx.cmd, tx.event);
    }
  }

  lemma SameOutboxConflicts(rows: Outbox.Table, id: Uuid, event: Outbox.Event, owner: Uuid -> Uuid)
    requires owner(event.eventId) == owner(id)
    requires forall o :: o in rows ==> rows[o].workspace == owner(o) && owner(rows[o].event.eventId) == owner(o)
    ensures Outbox.InsertConflicts(rows, id, event) <==> Outbox.InsertConflicts(Rows(rows, owner(id)), id, event)
  {
    var own := Rows(rows, owner(id));
    if id !in rows && Outbox.InsertConflicts(rows, id, event) {
      var o :| o in rows && rows[o].event.eventId == event.eventId;
      assert o in own && own[o] == rows[o];
    }
    if id !in own && Outbox.InsertConflicts(own, id, event) {
      var o :| o in own && own[o].event.eventId == event.eventId;
      assert o in rows;
    }
  }

  lemma ReserveAgrees(db: Db, peers: Peers, tx: Tx, w: Uuid, owner: Uuid -> Uuid)
    requires PeersPlaced(peers, owner) && tx.auth.workspace == w
    ensures DoReserve(db, peers, tx) == DoReserve(DbOf(db, w), TxsOf(peers, w), tx)
  {
    if tx.cmd.workspace == w {
      SameKeyLocks(peers, TxKey(tx), owner);
    }
  }

  lemma ChecksAgree(db: Db, tx: Tx)
    ensures DoEnsureProject(db, tx) == DoEnsureProject(DbOf(db, tx.cmd.workspace), tx)
    ensures DoEnsureMilestone(db, tx) == DoEnsureMilestone(DbOf(db, tx.cmd.workspace), tx)
  {
    var own := DbOf(db, tx.cmd.workspace);
    assert EnsureProjectExists(db, tx.cmd) == EnsureProjectExists(own, tx.cmd);
    assert EnsureMilestoneBelongsToProject(db, tx.cmd) == EnsureMilestoneBelongsToProject(own, tx.cmd);
  }

  lemma InsertIssueAgrees(db: Db, peers: Peers, tx: Tx, owner: Uuid -> Uuid)
    requires Placed(db, owner) && PeersPlaced(peers, owner)
    ensures var w := owner(tx.cmd.issueId);
      DoInsertIssue(db, peers, tx) == DoInsertIssue(DbOf(db, w), TxsOf(peers, w), tx)
  {
    var w := owner(tx.cmd.issueId);
    SameIssuePending(peers, tx.cmd.issueId, owner);
    assert tx.cmd.issueId in db.issues <==> tx.cmd.issueId in IssuesOf(db.issues, w);
  }

  lemma InsertActivityAgrees(db: Db, peers: Peers, tx: Tx, id: Uuid, owner: Uuid -> Uuid)
    requires Placed(db, owner) && PeersPlaced(peers, owner)
    ensures DoInsertActivity(db, peers, tx, id)
         == DoInsertActivity(DbOf(db, owner(id)), TxsOf(peers, owner(id)), tx, id)
  {
    SameActivityPending(peers, id, owner);
    assert id in db.activities <==> id in Activities(db.activities, owner(id));
  }

  lemma InsertOutboxAgrees(db: Db, peers: Peers, tx: Tx, id: Uuid, owner: Uuid -> Uuid)
    requires Placed(db, owner) && PeersPlaced(peers, owner) && owner(tx.event.eventId) == owner(id)
    ensures DoInsertOutbox(db, peers, tx, id) == DoInsertOutbox(DbOf(db, owner(id)), TxsOf(peers, owner(id)), tx, id)
  {
    SameOutboxPending(peers, id, OutboxEvent(tx.cmd, tx.event), owner);
    SameOutboxConflicts(db.outbox, id, OutboxEvent(tx.cmd, tx.event), owner);
  }

  lemma AdvanceAgrees(db: Db, peers: Peers, tx: Tx, action: Action, id: TxId, owner: Uuid -> Uuid)
    requires Placed(db, owner) && PeersPlaced(peers, owner)
    requires WritesOk(tx) && TxPlaced(tx, id.workspace, owner)
    requires ApartStep(Create(id, action), owner)
    ensures Advance(db, peers, tx, action) == Advance(DbOf(db, id.workspace), TxsOf(peers, id.workspace), tx, action)
  {
    if InOrder(tx.phase, action) {
      match action
      case Reserve => ReserveAgrees(db, peers, tx, id.workspace, owner);
      case EnsureProject => ChecksAgree(db, tx);
      case EnsureMilestone => ChecksAgree(db, tx);
      case InsertIssue => InsertIssueAgrees(db, peers, tx, owner);
      case InsertActivity(a) => InsertActivityAgrees(db, peers, tx, a, owner);
      case InsertOutbox(o) => InsertOutboxAgrees(db, peers, tx, o, owner);
      case _ =>
    }
  }

  // ----- what the statement leaves belongs to the same tenant

  ghost predicate WritesPlaced(v: Writes, w: Uuid, owner: Uuid -> Uuid) {
    && (forall id :: id in v.issues ==> v.issues[id].workspace == w && owner(id) == w)
    && (forall id :: id in v.activities ==> v.activities[id].workspace == w && owner(id) == w)
    && (forall id :: id in v.outbox ==>
          v.outbox[id].workspace == w && owner(id) == w && owner(v.outbox[id].event.eventId) == w)
    && (forall k :: k in v.records ==> k.workspace == w)
  }

  ghost predicate OutcomePlaced(outcome: Outcome, w: Uuid, owner: Uuid -> Uuid) {
    match outcome
    case Blocked => true
    case Continue(tx) => TxPlaced(tx, w, owner)
    case Finish(writes, _) => WritesPlaced(writes, w, owner)
  }

  lemma TxWritesPlaced(tx: Tx, w: Uuid, owner: Uuid -> Uuid)
    requires WritesOk(tx) && TxPlaced(tx, w, owner)
    ensures WritesPlaced(tx.writes, w, owner)
  {
    forall id | id in tx.writes.activities ensures tx.writes.activities[id].workspace == w {
      assert tx.writes.activities[id] == NewActivity(tx.cmd, tx.event);
    }
    forall id | id in tx.writes.outbox
      ensures tx.writes.outbox[id].workspace == w && owner(tx.writes.outbox[id].event.eventId) == w
    {
      assert tx.writes.outbox[id] == NewOutboxRow(tx.cmd, tx.event);
    }
  }

  lemma AdvancePlaced(db: Db, peers: Peers, tx: Tx, action: Action, id: TxId, owner: Uuid -> Uuid)
    requires WritesOk(tx) && TxPlaced(tx, id.workspace, owner)
    requires ApartStep(Create(id, action), owner)
    ensures OutcomePlaced(Advance(db, peers, tx, action), id.workspace, owner)
  {
    TxWritesPlaced(tx, id.workspace, owner);
  }

  lemma MergePlaced(db: Db, v: Writes, u: Uuid, owner: Uuid -> Uuid)
    requires Placed(db, owner) && WritesPlaced(v, u, owner)
    ensures Placed(Merge(db, v), owner)
  {
  }

  // A tenant's writes show in its own part of a table, and in no other.
  lemma MergeIssues(m: map<Uuid, Issue>, n: map<Uuid, Issue>, w: Uuid)
    ensures (forall k :: k in n ==> n[k].workspace == w) ==> IssuesOf(m + n, w) == IssuesOf(m, w) + n
    ensures (forall k :: k in n ==> n[k].workspace != w && (k in m ==> m[k].workspace != w)) ==>
      IssuesOf(m + n, w) == IssuesOf(m, w)
  {
  }

  lemma MergeActivities(m: map<Uuid, Activity>, n: map<Uuid, Activity>, w: Uuid)
    ensures (forall k :: k in n ==> n[k].workspace == w) ==> Activities(m + n, w) == Activities(m, w) + n
    ensures (forall k :: k in n ==> n[k].workspace != w && (k in m ==> m[k].workspace != w)) ==>
      Activities(m + n, w) == Activities(m, w)
  {
  }

  lemma MergeRows(m: Outbox.Table, n: Outbox.Table, w: Uuid)
    ensures (forall k :: k in n ==> n[k].workspace == w) ==> Rows(m + n, w) == Rows(m, w) + n
    ensures (forall k :: k in n ==> n[k].workspace != w && (k in m ==> m[k].workspace != w)) ==>
      Rows(m + n, w) == Rows(m, w)
  {
  }

  lemma MergeRecords(m: map<RecordKey, Record>, n: map<RecordKey, Record>, w: Uuid)
    ensures (forall k :: k in n ==> k.workspace == w) ==> Records(m + n, w) == Records(m, w) + n
    ensures (forall k :: k in n ==> k.workspace != w) ==> Records(m + n, w) == Records(m, w)
  {
  }

  lemma MergeShows(db: Db, v: Writes, u: Uuid, w: Uuid, owner: Uuid -> Uuid)
    requires Placed(db, owner) && WritesPlaced(v, u, owner)
    ensures DbOf(Merge(db, v), w) == if u == w then Merge(DbOf(db, w), v) else DbOf(db, w)
  {
    MergeIssues(db.issues, v.issues, w);
    MergeActivities(db.activities, v.activities, w);
    MergeRows(db.outbox, v.outbox, w);
    MergeRecords(db.records, v.records, w);
  }

  lemma ResumePlaced(s: State, id: TxId, outcome: Outcome, owner: Uuid -> Uuid)
    requires AllPlaced(s, owner) && id in s.txs && OutcomePlaced(outcome, id.workspace, owner)
    ensures AllPlaced(Resume(s, id, s.txs[id], outcome), owner)
  {
    if outcome.Finish? {
      MergePlaced(s.db, outcome.writes, id.workspace, owner);
    }
  }

  lemma ResumeOwn(s: State, p: State, id: TxId, outcome: Outcome, owner: Uuid -> Uuid)
    requires PartOf(s, p, id.workspace) && Placed(s.db, owner)
    requires id in s.txs && OutcomePlaced(outcome, id.workspace, owner)
    ensures PartOf(Resume(s, id, s.txs[id], outcome), Resume(p, id, s.txs[id], outcome), id.workspace)
  {
    match outcome
    case Blocked =>
    case Continue(tx) => TxsWithOneMore(s.txs, id, tx, id.workspace);
    case Finish(writes, _) =>
      MergeShows(s.db, writes, id.workspace, id.workspace, owner);
      TxsWithOneLess(s.txs, id, id.workspace);
  }

  lemma ResumeOther(s: State, p: State, id: TxId, outcome: Outcome, w: Uuid, owner: Uuid -> Uuid)
    requires PartOf(s, p, w) && Placed(s.db, owner) && w != id.workspace
    requires id in s.txs && OutcomePlaced(outcome, id.workspace, owner)
    ensures PartOf(Resume(s, id, s.txs[id], outcome), p, w)
  {
    match outcome
    case Blocked =>
    case Continue(tx) => TxsWithOneMore(s.txs, id, tx, w);
    case Finish(writes, _) =>
      MergeShows(s.db, writes, id.workspace, w, owner);
      TxsWithOneLess(s.txs, id, w);
  }

  lemma TxsWithOneLess(txs: Peers, id: TxId, w: Uuid)
    ensures TxsOf(txs - {id}, w) == TxsOf(txs, w) - {id}
  {
  }

  lemma InvPlacesPeers(s: State, id: TxId, owner: Uuid -> Uuid)
    requires Inv(s) && AllPlaced(s, owner) && id in s.txs
    ensures PeersPlaced(s.txs - {id}, owner) && WritesOk(s.txs[id]) && TxPlaced(s.txs[id], id.workspace, owner)
  {
  }

  lemma OwnAdvance(s: State, p: State, id: TxId, action: Action, owner: Uuid -> Uuid)
    requires PartOf(s, p, id.workspace) && Inv(s) && AllPlaced(s, owner) && ApartStep(Create(id, action), owner)
    requires id in s.txs
    ensures id in p.txs && p.txs[id] == s.txs[id]
    ensures Advance(p.db, p.txs - {id}, s.txs[id], action) == Advance(s.db, s.txs - {id}, s.txs[id], action)
  {
    var peers := s.txs - {id};
    TxsWithOneLess(s.txs, id, id.workspace);
    InvPlacesPeers(s, id, owner);
    AdvanceAgrees(s.db, peers, s.txs[id], action, id, owner);
  }

  lemma OwnCreate(s: State, p: State, id: TxId, action: Action, outcome: Outcome, owner: Uuid -> Uuid)
    requires PartOf(s, p, id.workspace) && Placed(s.db, owner) && !action.Begin? && id in s.txs
    requires outcome == Advance(s.db, s.txs - {id}, s.txs[id], action)
    requires id in p.txs && p.txs[id] == s.txs[id]
    requires outcome == Advance(p.db, p.txs - {id}, p.txs[id], action)
    requires OutcomePlaced(outcome, id.workspace, owner)
    ensures PartOf(NextCreate(s, id, action), NextCreate(p, id, action), id.workspace)
  {
    ResumeOwn(s, p, id, outcome, owner);
  }

  lemma CreateKeepsPart(s: State, p: State, id: TxId, action: Action, w: Uuid, owner: Uuid -> Uuid)
    requires PartOf(s, p, w) && Inv(s) && AllPlaced(s, owner) && ApartStep(Create(id, action), owner)
    requires !action.Begin? && id in s.txs
    ensures PartOf(NextCreate(s, id, action), if id.workspace == w then NextCreate(p, id, action) else p, w)
  {
    var tx, outcome := s.txs[id], Advance(s.db, s.txs - {id}, s.txs[id], action);
    AdvancePlaced(s.db, s.txs - {id}, tx, action, id, owner);
    if id.workspace == w {
      OwnAdvance(s, p, id, action, owner);
      OwnCreate(s, p, id, action, outcome, owner);
    } else {
      ResumeOther(s, p, id, outcome, w, owner);
    }
  }

  lemma AnyCreateKeepsPart(s: State, p: State, id: TxId, action: Action, w: Uuid, owner: Uuid -> Uuid)
    requires PartOf(s, p, w) && Inv(s) && AllPlaced(s, owner) && ApartStep(Create(id, action), owner)
    ensures PartOf(NextCreate(s, id, action), if id.workspace == w then NextCreate(p, id, action) else p, w)
  {
    if action.Begin? {
      BeginKeepsPart(s, p, id, action, w, owner);
    } else if id in s.txs {
      CreateKeepsPart(s, p, id, action, w, owner);
    }
  }

  lemma AnyCreateKeepsPlaced(s: State, id: TxId, action: Action, owner: Uuid -> Uuid)
    requires Inv(s) && AllPlaced(s, owner) && ApartStep(Create(id, action), owner)
    ensures AllPlaced(NextCreate(s, id, action), owner)
  {
    if !action.Begin? && id in s.txs {
      var outcome := Advance(s.db, s.txs - {id}, s.txs[id], action);
      AdvancePlaced(s.db, s.txs - {id}, s.txs[id], action, id, owner);
      ResumePlaced(s, id, outcome, owner);
    }
  }

  lemma TxsWithOneMore(txs: Peers, id: TxId, tx: Tx, w: Uuid)
    ensures TxsOf(txs[id := tx], w) == if id.workspace == w then TxsOf(txs, w)[id := tx] else TxsOf(txs, w)
  {
  }

  lemma BeginKeepsPart(s: State, p: State, id: TxId, action: Action, w: Uuid, owner: Uuid -> Uuid)
    requires PartOf(s, p, w) && AllPlaced(s, owner) && ApartStep(Create(id, action), owner) && action.Begin?
    ensures PartOf(NextCreate(s, id, action), if id.workspace == w then NextCreate(p, id, action) else p, w)
  {
    if id !in s.txs && id.workspace == action.auth.workspace {
      var tx := Tx(action.auth, action.cmd, action.event, action.createdAt, action.sampledAt + SEVEN_DAYS,
                   Begun, NO_WRITES);
      assert NextCreate(s, id, action) == s.(txs := s.txs[id := tx]);
      TxsWithOneMore(s.txs, id, tx, w);
    }
  }

  // ----- the other statements

  lemma PurgeKeepsPart(s: State, p: State, workspace: Uuid, before: Time, w: Uuid)
    requires PartOf(s, p, w) && Inv(s)
    ensures PartOf(NextPurge(s, workspace, before), if workspace == w then NextPurge(p, workspace, before) else p, w)
  {
    if workspace == w {
      SamePurgeBlocked(s, p, before, w);
      assert Records(Remaining(s.db.records, w, before), w) == Remaining(Records(s.db.records, w), w, before);
    } else {
      assert Records(Remaining(s.db.records, workspace, before), w) == Records(s.db.records, w);
    }
  }

  lemma SamePurgeBlocked(s: State, p: State, before: Time, w: Uuid)
    requires PartOf(s, p, w) && Inv(s)
    ensures PurgeBlocked(s, w, before) <==> PurgeBlocked(p, w, before)
  {
    if PurgeBlocked(s, w, before) {
      var t :| t in s.txs && s.txs[t].phase.Lost?
        && TxKey(s.txs[t]) in s.db.records && Expired(TxKey(s.txs[t]), s.db.records[TxKey(s.txs[t])], w, before);
      assert t in p.txs && p.txs[t] == s.txs[t];
    }
    if PurgeBlocked(p, w, before) {
      var t :| t in p.txs && p.txs[t].phase.Lost?
        && TxKey(p.txs[t]) in p.db.records && Expired(TxKey(p.txs[t]), p.db.records[TxKey(p.txs[t])], w, before);
      assert t in s.txs && p.txs[t] == s.txs[t];
    }
  }

  lemma ProjectsWithOneMore(projects: map<Uuid, Uuid>, id: Uuid, workspace: Uuid, w: Uuid)
    requires id !in projects
    ensures Projects(projects[id := workspace], w)
         == if workspace == w then Projects(projects, w)[id := w] else Projects(projects, w)
  {
  }

  lemma AddProjectKeepsPart(s: State, p: State, workspace: Uuid, id: Uuid, w: Uuid, owner: Uuid -> Uuid)
    requires PartOf(s, p, w) && Placed(s.db, owner) && owner(id) == workspace
    ensures PartOf(NextAddProject(s, workspace, id), if workspace == w then NextAddProject(p, workspace, id) else p, w)
  {
    if id !in s.db.projects {
      ProjectsWithOneMore(s.db.projects, id, workspace, w);
    }
  }

  lemma AddMilestoneKeepsPart(
    s: State, p: State, workspace: Uuid, id: Uuid, project: Uuid, w: Uuid, owner: Uuid -> Uuid)
    requires PartOf(s, p, w) && Placed(s.db, owner) && owner(id) == workspace
    ensures PartOf(NextAddMilestone(s, workspace, id, project),
                   if workspace == w then NextAddMilestone(p, workspace, id, project) else p, w)
  {
    if MilestoneInsertable(s.db, workspace, id, project) {
      var m := Milestone(workspace, project);
      var before, after := s.db.milestones, s.db.milestones[id := m];
      assert Milestones(after, w) == if workspace == w then Milestones(before, w)[id := m] else Milestones(before, w);
    }
  }

  lemma WorkerKeepsPlaced(s: State, step: Outbox.Step, owner: Uuid -> Uuid)
    requires Placed(s.db, owner)
    ensures Placed(NextWorker(s, step).db, owner)
  {
    if !step.Insert? {
      OutboxStepFacts(s.db.outbox, step);
    }
  }

  lemma NextKeepsPlaced(s: State, step: Step, owner: Uuid -> Uuid)
    requires Inv(s) && AllPlaced(s, owner) && ApartStep(step, owner)
    ensures AllPlaced(Next(s, step), owner)
  {
    match step
    case Create(id, action) => AnyCreateKeepsPlaced(s, id, action, owner);
    case Worker(ws) => WorkerKeepsPlaced(s, ws, owner);
    case _ =>
  }

  lemma NextKeepsPart(s: State, p: State, step: Step, s': State, p': State, w: Uuid, owner: Uuid -> Uuid)
    requires PartOf(s, p, w) && Inv(s) && AllPlaced(s, owner) && ApartStep(step, owner)
    requires s' == Next(s, step) && p' == (if IsOf(step, w) then Next(p, step) else p)
    ensures PartOf(s', p', w)
  {
    if step.Create? {
      assert s' == NextCreate(s, step.tx, step.action);
      assert p' == if step.tx.workspace == w then NextCreate(p, step.tx, step.action) else p;
      AnyCreateKeepsPart(s, p, step.tx, step.action, w, owner);
    } else if step.Worker? {
      assert s' == NextWorker(s, step.step);
      assert p' == if IsOf(Worker(step.step), w) then NextWorker(p, step.step) else p;
      WorkerKeepsPart(s, p, step.step, w);
    } else if step.Published? {
      assert s' == s && p' == p;
    } else if step.PurgeRecords? {
      assert s' == NextPurge(s, step.workspace, Cutoff(step));
      assert p' == if step.workspace == w then NextPurge(p, step.workspace, Cutoff(step)) else p;
      PurgeKeepsPart(s, p, step.workspace, Cutoff(step), w);
    } else if step.AddProject? {
      assert s' == NextAddProject(s, step.workspace, step.id);
      assert p' == if step.workspace == w then NextAddProject(p, step.workspace, step.id) else p;
      AddProjectKeepsPart(s, p, step.workspace, step.id, w, owner);
    } else {
      assert s' == NextAddMilestone(s, step.workspace, step.id, step.project);
      assert p' == if step.workspace == w then NextAddMilestone(p, step.workspace, step.id, step.project) else p;
      AddMilestoneKeepsPart(s, p, step.workspace, step.id, step.project, w, owner);
    }
  }

  lemma {:induction false} RunKeepsPart(s: State, p: State, steps: seq<Step>, w: Uuid, owner: Uuid -> Uuid)
    requires PartOf(s, p, w) && Inv(s) && AllPlaced(s, owner) && Apart(steps, owner)
    ensures PartOf(Run(s, steps), Run(p, Only(steps, w)), w)
    decreases |steps|
  {
    if steps != [] {
      NextKeepsInv(s, steps[0]);
      var p' := if IsOf(steps[0], w) then Next(p, steps[0]) else p;
      NextKeepsPart(s, p, steps[0], Next(s, steps[0]), p', w, owner);
      NextKeepsPlaced(s, steps[0], owner);
      RunKeepsPart(Next(s, steps[0]), p', steps[1..], w, owner);
      if IsOf(steps[0], w) {
        assert Only(steps, w)[0] == steps[0] && Only(steps, w)[1..] == Only(steps[1..], w);
      }
    }
  }

  // However the tenants' statements interleave, one tenant's rows and open transactions are
  // those of the run in which only its own statements are executed.
  lemma {:induction false} TenantsAreIndependent(steps: seq<Step>, w: Uuid, owner: Uuid -> Uuid)
    requires Apart(steps, owner)
    ensures Run(INIT, Only(steps, w)).db == DbOf(Run(INIT, steps).db, w)
    ensures Run(INIT, Only(steps, w)).txs == TxsOf(Run(INIT, steps).txs, w)
  {
    assert DbOf(INIT.db, w) == INIT.db && TxsOf(INIT.txs, w) == INIT.txs;
    RunKeepsPart(INIT, INIT, steps, w, owner);
  }
}
