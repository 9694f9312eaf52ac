// Every interleaving of create transactions behaves like one atomic map.
module SystemRefinement {
  import opened Base
  import opened Issues
  import opened IssueStore
  import opened System
  import opened SystemInvariant
  import Outbox

  // Why the database failed a call, if it did.
  datatype Cause = NoCause | Aborted | Refusal | LostAcknowledgement

  // What a client or an operator can observe happening, at the moment it takes effect.
  datatype Op =
    | Call(cmd: Command, occurredAt: Time, expiresAt: Time, cause: Cause, answer: CreateResult)
    | Purge(workspace: Uuid, before: Time)
    | ProjectAdded(id: Uuid, workspace: Uuid)
    | MilestoneAdded(id: Uuid, milestone: Milestone)

  ghost function SpecStep(spec: Spec, op: Op): Spec {
    match op
    case Call(cmd, occurredAt, expiresAt, cause, _) =>
      if cause.Aborted? || cause.Refusal? then spec else AtomicCreate(spec, cmd, occurredAt, expiresAt).0
    case Purge(workspace, before) =>
      spec.(entries := map k | k in spec.entries
                         && !(k.workspace == workspace && spec.entries[k].expiresAt < before) :: spec.entries[k])
    case ProjectAdded(id, workspace) => spec.(projects := spec.projects[id := workspace])
    case MilestoneAdded(id, milestone) => spec.(milestones := spec.milestones[id := milestone])
  }

  // A call the database did not fail answers what the atomic step gives. One it failed answers
  // with an error: aborted or refused it has changed nothing; when the acknowledgement of its
  // commit was lost, the atomic step is taken all the same.
  ghost predicate Legal(spec: Spec, op: Op) {
    op.Call? ==>
      op.answer ==
        if op.cause.NoCause? then AtomicCreate(spec, op.cmd, op.occurredAt, op.expiresAt).1 else Rejected(Database)
  }

  // The cause, read off the statement that ended the call.
  ghost function CauseOf(db: Db, tx: Tx, action: Action): Cause {
    if action.Abort? then Aborted
    else if action.Commit? then (if action.acknowledged then NoCause else LostAcknowledgement)
    else if Refused(db, tx, action) then Refusal
    else NoCause
  }

  // What the caller is told: a lost acknowledgement looks like any error of the database.
  function AnswerTo(action: Action, result: CreateResult): CreateResult {
    if action.Commit? && !action.acknowledged then Rejected(Database) else result
  }

  ghost function CallOf(db: Db, tx: Tx, action: Action, result: CreateResult): Op {
    Call(tx.cmd, tx.event.occurredAt, tx.expiresAt, CauseOf(db, tx, action), AnswerTo(action, result))
  }

  ghost function EmitCreate(s: State, id: TxId, action: Action): seq<Op> {
    if action.Begin? || id !in s.txs then []
    else
      match Advance(s.db, s.txs - {id}, s.txs[id], action)
      case Finish(_, result) => [CallOf(s.db, s.txs[id], action, result)]
      case _ => []
  }

  ghost function EmitPurge(s: State, workspace: Uuid, before: Time): seq<Op> {
    if PurgeBlocked(s, workspace, before) then [] else [Purge(workspace, before)]
  }

  ghost function Emit(s: State, step: Step): seq<Op> {
    match step
    case Create(id, action) => EmitCreate(s, id, action)
    case PurgeRecords(workspace, _, _) => EmitPurge(s, workspace, Cutoff(step))
    case AddProject(workspace, id) => if id in s.db.projects then [] else [ProjectAdded(id, workspace)]
    case AddMilestone(workspace, id, project) =>
      if !MilestoneInsertable(s.db, workspace, id, project) then []
      else [MilestoneAdded(id, Milestone(workspace, project))]
    case _ => []
  }

  ghost function Emitted(s: State, steps: seq<Step>): seq<Op>
    decreases |steps|
  {
    if steps == [] then [] else Emit(s, steps[0]) + Emitted(Next(s, steps[0]), steps[1..])
  }

  ghost function SpecRun(spec: Spec, ops: seq<Op>): Spec
    decreases |ops|
  {
    if ops == [] then spec else SpecRun(SpecStep(spec, ops[0]), ops[1..])
  }

  ghost predicate LegalRun(spec: Spec, ops: seq<Op>)
    decreases |ops|
  {
    ops == [] || (Legal(spec, ops[0]) && LegalRun(SpecStep(spec, ops[0]), ops[1..]))
  }

  ghost predicate Refines(s: State, s': State, ops: seq<Op>)
    requires NoPlaceholder(s.db) && NoPlaceholder(s'.db)
  {
    && (ops == [] ==> Abs(s'.db) == Abs(s.db))
    && (ops != [] ==> |ops| == 1 && Legal(Abs(s.db), ops[0]) && Abs(s'.db) == SpecStep(Abs(s.db), ops[0]))
  }

  lemma FinishRefines(
    s: State, s': State, id: TxId, action: Action, writes: Writes, result: CreateResult, a: Uuid, o: Uuid)
    requires Inv(s) && Inv(s') && id in s.txs
    requires OutcomeOk(s.db, s.txs - {id}, s.txs[id], action, Finish(writes, result), a, o)
    requires !Committing(s.txs[id], action) ==> Quiet(s, s')
    requires Committing(s.txs[id], action) ==> CommitsOne(s, s', s.txs[id], a, o)
    requires CauseOf(s.db, s.txs[id], action).NoCause? || CauseOf(s.db, s.txs[id], action).LostAcknowledgement?
      <==> result != Rejected(Database)
    requires action.Commit? ==>
      result == AtomicCreate(Abs(s.db), s.txs[id].cmd, s.txs[id].event.occurredAt, s.txs[id].expiresAt).1
    ensures Refines(s, s', [CallOf(s.db, s.txs[id], action, result)])
  {
    if result.Created? {
      var tx := s.txs[id];
      CreatedRowsAreAtomic(s.db, s'.db, tx.cmd, tx.event, tx.createdAt, tx.expiresAt, a, o);
    }
  }

  lemma CreateRefines(s: State, id: TxId, action: Action)
    requires Inv(s)
    ensures Inv(NextCreate(s, id, action))
    ensures Refines(s, NextCreate(s, id, action), EmitCreate(s, id, action))
  {
    var s' := NextCreate(s, id, action);
    var a, o := CreateStep(s, id, action);
    if !action.Begin? && id in s.txs {
      match Advance(s.db, s.txs - {id}, s.txs[id], action)
      case Finish(writes, result) =>
        AdvanceExplained(s.db, s.txs - {id}, s.txs[id], action);
        FinishRefines(s, s', id, action, writes, result, a, o);
      case _ =>
    }
  }

  lemma PurgeRefines(s: State, s': State, workspace: Uuid, before: Time)
    requires Inv(s) && Inv(s')
    requires s'.db == s.db.(records := Remaining(s.db.records, workspace, before))
    ensures Refines(s, s', [Purge(workspace, before)])
  {
    var left, right := Abs(s'.db).entries, SpecStep(Abs(s.db), Purge(workspace, before)).entries;
    assert left.Keys == right.Keys;
    assert left == right;
  }

  lemma PurgeStepRefines(s: State, workspace: Uuid, before: Time)
    requires Inv(s)
    ensures Inv(NextPurge(s, workspace, before))
    ensures Refines(s, NextPurge(s, workspace, before), EmitPurge(s, workspace, before))
  {
    PurgeKeepsInv(s, workspace, before);
    if !PurgeBlocked(s, workspace, before) {
      PurgeRefines(s, NextPurge(s, workspace, before), workspace, before);
    }
  }

  lemma OtherStepRefines(s: State, step: Step)
    requires Inv(s) && Inv(Next(s, step)) && !step.Create? && !step.PurgeRecords?
    ensures Refines(s, Next(s, step), Emit(s, step))
  {
    assert Next(s, step).db.records == s.db.records;
  }

  lemma NextRefines(s: State, step: Step)
    requires Inv(s)
    ensures Inv(Next(s, step))
    ensures Refines(s, Next(s, step), Emit(s, step))
  {
    if step.Create? {
      assert Next(s, step) == NextCreate(s, step.tx, step.action)
          && Emit(s, step) == EmitCreate(s, step.tx, step.action);
      CreateRefines(s, step.tx, step.action);
    } else if step.PurgeRecords? {
      var before := Cutoff(step);
      assert Next(s, step) == NextPurge(s, step.workspace, before)
          && Emit(s, step) == EmitPurge(s, step.workspace, before);
      PurgeStepRefines(s, step.workspace, before);
    } else {
      NextKeepsInv(s, step);
      OtherStepRefines(s, step);
    }
  }

  lemma {:induction false} SpecRunSplit(spec: Spec, a: seq<Op>, b: seq<Op>)
    requires |a| <= 1
    ensures SpecRun(spec, a + b) == SpecRun(SpecRun(spec, a), b)
    ensures LegalRun(spec, a + b) <==> LegalRun(spec, a) && LegalRun(SpecRun(spec, a), b)
  {
    if a == [] {
      assert a + b == b;
    } else {
      assert (a + b)[0] == a[0] && (a + b)[1..] == b && a[1..] == [];
    }
  }

  // No purge among these removes an entry of the key that expires then.
  ghost predicate NotPurged(ops: seq<Op>, k: RecordKey, expiresAt: Time) {
    forall i :: 0 <= i < |ops| && ops[i].Purge? && ops[i].workspace == k.workspace ==> ops[i].before <= expiresAt
  }

  lemma {:induction false} EntryStays(spec: Spec, ops: seq<Op>, k: RecordKey)
    requires k in spec.entries && NotPurged(ops, k, spec.entries[k].expiresAt)
    ensures k in SpecRun(spec, ops).entries && SpecRun(spec, ops).entries[k] == spec.entries[k]
    decreases |ops|
  {
    if ops != [] {
      EntryStays(SpecStep(spec, ops[0]), ops[1..], k);
    }
  }

  // A caller left without an answer may repeat its call: if the first took effect, then until
  // its key is purged the second gives its issue back and changes nothing.
  lemma {:induction false} RepeatedCallReplays(spec: Spec, first: Op, between: seq<Op>, again: Op)
    requires first.Call? && again.Call?
    requires KeyOf(first.cmd) == KeyOf(again.cmd) && first.cmd.fingerprint == again.cmd.fingerprint
    requires (first.cause.NoCause? || first.cause.LostAcknowledgement?) && again.cause.NoCause?
    requires AtomicCreate(spec, first.cmd, first.occurredAt, first.expiresAt).1.Created?
    requires NotPurged(between, KeyOf(first.cmd), first.expiresAt)
    requires Legal(SpecRun(SpecStep(spec, first), between), again)
    ensures again.answer == Replayed(AtomicCreate(spec, first.cmd, first.occurredAt, first.expiresAt).1.issue)
    ensures var later := SpecRun(SpecStep(spec, first), between); SpecStep(later, again) == later
  {
    EntryStays(SpecStep(spec, first), between, KeyOf(first.cmd));
  }

  // Linearizability: over any run, with transactions aborted at any statement and commits whose
  // acknowledgement is lost, the calls taken in the order they finish are a legal history of
  // the atomic map, and the committed records are what that history leaves.
  lemma {:induction false} RunRefinesAtomicMap(s: State, steps: seq<Step>)
    requires Inv(s)
    ensures Inv(Run(s, steps))
    ensures LegalRun(Abs(s.db), Emitted(s, steps))
    ensures Abs(Run(s, steps).db) == SpecRun(Abs(s.db), Emitted(s, steps))
    decreases |steps|
  {
    if steps != [] {
      NextRefines(s, steps[0]);
      RunRefinesAtomicMap(Next(s, steps[0]), steps[1..]);
      var ops := Emit(s, steps[0]);
      SpecRunSplit(Abs(s.db), ops, Emitted(Next(s, steps[0]), steps[1..]));
    }
  }

  // ----- a call that nothing stops

  function Statements(activityId: Uuid, outboxId: Uuid, now: Time): (actions: seq<Action>)
    ensures |actions| == 8
  {
    [Reserve, EnsureProject, EnsureMilestone, InsertIssue, InsertActivity(activityId), InsertOutbox(outboxId),
     Finalize, Commit(now, true)]
  }

  ghost function Calls(id: TxId, actions: seq<Action>): (steps: seq<Step>)
    ensures |steps| == |actions|
    ensures forall k :: 0 <= k < |actions| ==> steps[k] == Create(id, actions[k])
  {
    seq(|actions|, k requires 0 <= k < |actions| => Create(id, actions[k]))
  }

  // No other transaction has first, and no table refuses, what its statements ask for.
  ghost predicate Unhindered(s: State, id: TxId, tx: Tx, actions: seq<Action>) {
    forall k :: 0 <= k < |actions| ==>
      !Waits(s.txs - {id}, tx, actions[k]) && !Refused(s.db, tx, actions[k])
  }

  ghost predicate SameCall(tx: Tx, tx': Tx) {
    tx'.auth == tx.auth && tx'.cmd == tx.cmd && tx'.event == tx.event && tx'.expiresAt == tx.expiresAt
  }

  // Its k-th statement is next, or it has lost the key and only commits.
  ghost predicate AtStatement(tx: Tx, k: nat) {
    k <= 7 && if tx.phase.Lost? then k >= 1 else Rank(tx.phase) == k
  }

  // It has run up to its k-th statement; nothing else has changed.
  ghost predicate RunUpTo(s: State, s': State, id: TxId, k: nat) {
    && id in s.txs && id in s'.txs
    && s'.db == s.db && s'.txs - {id} == s.txs - {id}
    && SameCall(s.txs[id], s'.txs[id]) && AtStatement(s'.txs[id], k)
  }

  // It has ended with the answer, and the records, of the atomic step.
  ghost predicate EndedAtomically(s: State, s': State, id: TxId, ops: seq<Op>)
    requires id in s.txs && NoPlaceholder(s.db)
  {
    var tx := s.txs[id];
    var (spec, answer) := AtomicCreate(Abs(s.db), tx.cmd, tx.event.occurredAt, tx.expiresAt);
    && s'.txs == s.txs - {id}
    && NoPlaceholder(s'.db) && Abs(s'.db) == spec
    && ops == [Call(tx.cmd, tx.event.occurredAt, tx.expiresAt, NoCause, answer)]
  }

  ghost predicate IsStatement(action: Action, k: nat) {
    match action
    case Reserve => k == 0
    case EnsureProject => k == 1
    case EnsureMilestone => k == 2
    case InsertIssue => k == 3
    case InsertActivity(_) => k == 4
    case InsertOutbox(_) => k == 5
    case Finalize => k == 6
    case Commit(_, acknowledged) => k == 7 && acknowledged
    case _ => false
  }

  lemma StatementAdvances(db: Db, peers: Peers, tx: Tx, k: nat, action: Action)
    requires Ready(db, peers, tx) && AtStatement(tx, k) && IsStatement(action, k)
    requires !Waits(peers, tx, action) && !Refused(db, tx, action)
    ensures match Advance(db, peers, tx, action)
      case Blocked => tx.phase.Lost? && k < 7
      case Continue(tx') => k < 7 && SameCall(tx, tx') && AtStatement(tx', k + 1)
      case Finish(writes, result) => result != Rejected(Database)
  {
    if InOrder(tx.phase, action) {
      AdvanceExplained(db, peers, tx, action);
    }
  }

  lemma NextStatement(s: State, id: TxId, k: nat, action: Action)
    requires Inv(s) && id in s.txs && AtStatement(s.txs[id], k) && IsStatement(action, k)
    requires !Waits(s.txs - {id}, s.txs[id], action) && !Refused(s.db, s.txs[id], action)
    ensures Inv(NextCreate(s, id, action))
    ensures
      if EmitCreate(s, id, action) == [] then k < 7 && RunUpTo(s, NextCreate(s, id, action), id, k + 1)
      else EndedAtomically(s, NextCreate(s, id, action), id, EmitCreate(s, id, action))
  {
    var tx, peers := s.txs[id], s.txs - {id};
    OpenIsReady(s, id);
    CreateKeepsInv(s, id, action);
    StatementAdvances(s.db, peers, tx, k, action);
    match Advance(s.db, peers, tx, action)
    case Finish(writes, result) => FinishIsAtomic(s, id, action, writes, result);
    case _ =>
  }

  lemma OpenIsReady(s: State, id: TxId)
    requires Inv(s) && id in s.txs
    ensures Ready(s.db, s.txs - {id}, s.txs[id])
  {
  }

  lemma CreateKeepsInv(s: State, id: TxId, action: Action)
    requires Inv(s)
    ensures Inv(NextCreate(s, id, action))
  {
    CreateRefines(s, id, action);
  }

  lemma FinishIsAtomic(s: State, id: TxId, action: Action, writes: Writes, result: CreateResult)
    requires Inv(s) && id in s.txs && !action.Begin?
    requires Advance(s.db, s.txs - {id}, s.txs[id], action) == Finish(writes, result)
    requires CauseOf(s.db, s.txs[id], action) == NoCause
    ensures EndedAtomically(s, NextCreate(s, id, action), id, EmitCreate(s, id, action))
  {
    CreateRefines(s, id, action);
  }

  lemma UnhinderedOn(s: State, s': State, id: TxId, k: nat, actions: seq<Action>)
    requires RunUpTo(s, s', id, k) && Unhindered(s, id, s.txs[id], actions)
    ensures Unhindered(s', id, s'.txs[id], actions)
  {
    forall i | 0 <= i < |actions|
      ensures !Waits(s'.txs - {id}, s'.txs[id], actions[i]) && !Refused(s'.db, s'.txs[id], actions[i])
    {
      SameNeeds(s.db, s.txs - {id}, s.txs[id], s'.txs[id], actions[i]);
    }
  }

  lemma SameNeeds(db: Db, peers: Peers, tx: Tx, tx': Tx, action: Action)
    requires SameCall(tx, tx')
    ensures Waits(peers, tx', action) ==> Waits(peers, tx, action)
    ensures Refused(db, tx', action) ==> Refused(db, tx, action)
  {
    if Waits(peers, tx', action) {
      var p :| p in peers && HasFirst(peers[p], tx', action);
      assert HasFirst(peers[p], tx, action);
    }
  }

  lemma EndedStaysEnded(s: State, id: TxId, actions: seq<Action>)
    requires id !in s.txs && forall k :: 0 <= k < |actions| ==> !actions[k].Begin?
    ensures Run(s, Calls(id, actions)) == s && Emitted(s, Calls(id, actions)) == []
    decreases |actions|
  {
    if actions != [] {
      assert Calls(id, actions)[1..] == Calls(id, actions[1..]);
      EndedStaysEnded(s, id, actions[1..]);
    }
  }

  ghost predicate EndsAtomically(s: State, id: TxId, actions: seq<Action>)
    requires id in s.txs && NoPlaceholder(s.db)
  {
    EndedAtomically(s, Run(s, Calls(id, actions)), id, Emitted(s, Calls(id, actions)))
  }

  lemma FirstCall(s: State, id: TxId, action: Action, rest: seq<Action>)
    ensures var steps, s' := Calls(id, [action] + rest), NextCreate(s, id, action);
      && Run(s, steps) == Run(s', Calls(id, rest))
      && Emitted(s, steps) == EmitCreate(s, id, action) + Emitted(s', Calls(id, rest))
  {
    var steps := Calls(id, [action] + rest);
    assert steps[0] == Create(id, action) && steps[1..] == Calls(id, rest);
  }

  lemma EndsLater(s: State, id: TxId, k: nat, action: Action, rest: seq<Action>)
    requires NoPlaceholder(s.db) && id in s.txs && EmitCreate(s, id, action) == []
    requires RunUpTo(s, NextCreate(s, id, action), id, k) && EndsAtomically(NextCreate(s, id, action), id, rest)
    ensures EndsAtomically(s, id, [action] + rest)
  {
    FirstCall(s, id, action, rest);
  }

  lemma EndsNow(s: State, id: TxId, action: Action, rest: seq<Action>)
    requires NoPlaceholder(s.db) && id in s.txs && forall k :: 0 <= k < |rest| ==> !rest[k].Begin?
    requires EndedAtomically(s, NextCreate(s, id, action), id, EmitCreate(s, id, action))
    ensures EndsAtomically(s, id, [action] + rest)
  {
    FirstCall(s, id, action, rest);
    EndedStaysEnded(NextCreate(s, id, action), id, rest);
  }

  ghost predicate AreStatements(actions: seq<Action>, k: nat) {
    |actions| + k == 8 && forall i :: 0 <= i < |actions| ==> IsStatement(actions[i], k + i)
  }

  // It moves on from statement to statement, until one of them ends it.
  ghost predicate Proceeds(s: State, id: TxId, k: nat, actions: seq<Action>)
    requires NoPlaceholder(s.db) && id in s.txs
    decreases |actions|
  {
    && actions != []
    && var s' := NextCreate(s, id, actions[0]);
    if EmitCreate(s, id, actions[0]) == []
    then NoPlaceholder(s'.db) && RunUpTo(s, s', id, k + 1) && Proceeds(s', id, k + 1, actions[1..])
    else EndedAtomically(s, s', id, EmitCreate(s, id, actions[0]))
  }

  lemma {:induction false} StatementsProceed(s: State, id: TxId, k: nat, actions: seq<Action>)
    requires Inv(s) && id in s.txs && AtStatement(s.txs[id], k)
    requires AreStatements(actions, k) && Unhindered(s, id, s.txs[id], actions)
    ensures Proceeds(s, id, k, actions)
    decreases |actions|
  {
    NextStatement(s, id, k, actions[0]);
    if EmitCreate(s, id, actions[0]) == [] {
      var s' := NextCreate(s, id, actions[0]);
      UnhinderedOn(s, s', id, k + 1, actions);
      StatementsProceed(s', id, k + 1, actions[1..]);
    }
  }

  lemma {:induction false} ProceedsToTheEnd(s: State, id: TxId, k: nat, actions: seq<Action>)
    requires NoPlaceholder(s.db) && id in s.txs && Proceeds(s, id, k, actions)
    requires forall i :: 0 <= i < |actions| ==> !actions[i].Begin?
    ensures EndsAtomically(s, id, actions)
    decreases |actions|
  {
    var action, rest := actions[0], actions[1..];
    assert actions == [action] + rest;
    if EmitCreate(s, id, action) == [] {
      ProceedsToTheEnd(NextCreate(s, id, action), id, k + 1, rest);
      EndsLater(s, id, k + 1, action, rest);
    } else {
      EndsNow(s, id, action, rest);
    }
  }

  // A transaction that finds no other with its key or its ids, and its ids free, runs through
  // its eight statements to the answer of the atomic step.
  lemma UnhinderedCallRunsThrough(s: State, id: TxId, activityId: Uuid, outboxId: Uuid, now: Time)
    requires Inv(s) && id in s.txs && s.txs[id].phase.Begun?
    requires Unhindered(s, id, s.txs[id], Statements(activityId, outboxId, now))
    ensures EndsAtomically(s, id, Statements(activityId, outboxId, now))
  {
    StatementsProceed(s, id, 0, Statements(activityId, outboxId, now));
    ProceedsToTheEnd(s, id, 0, Statements(activityId, outboxId, now));
  }

  // It may abort before any of them, and then leaves nothing.
  lemma AbortLeavesNothing(s: State, id: TxId)
    requires id in s.txs
    ensures Next(s, Create(id, Abort)) == s.(txs := s.txs - {id})
    ensures var tx := s.txs[id];
      Emit(s, Create(id, Abort)) == [Call(tx.cmd, tx.event.occurredAt, tx.expiresAt, Aborted, Rejected(Database))]
  {
    assert Merge(s.db, NO_WRITES) == s.db;
  }
}
