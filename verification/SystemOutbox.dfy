// The outbox of the whole system goes through one run of the lease protocol.
module SystemOutbox {
  import opened Base
  import opened Issues
  import opened IssueStore
  import opened System
  import opened SystemInvariant
  import Outbox
  import OutboxRuns

  // ----- the statements that reach the outbox

  ghost function CommitInsert(tx: Tx): Outbox.Step
    requires tx.writes.outbox.Keys != {}
  {
    var o :| o in tx.writes.outbox.Keys;
    Outbox.Insert(o, tx.writes.outbox[o].workspace, tx.writes.outbox[o].event)
  }

  ghost function OutboxSteps(s: State, step: Step): seq<Outbox.Step> {
    match step
    case Worker(ws) => if ws.Insert? then [] else [ws]
    case Create(id, action) =>
      if id in s.txs && Committing(s.txs[id], action) && s.txs[id].writes.outbox.Keys != {} then
        [CommitInsert(s.txs[id])]
      else []
    case _ => []
  }

  ghost function OutboxTrace(s: State, steps: seq<Step>): seq<Outbox.Step>
    decreases |steps|
  {
    if steps == [] then [] else OutboxSteps(s, steps[0]) + OutboxTrace(Next(s, steps[0]), steps[1..])
  }

  lemma CommitIsInsert(s: State, id: TxId, action: Action)
    requires Inv(s) && id in s.txs && Committing(s.txs[id], action)
    ensures Next(s, Create(id, action)).db.outbox
         == Outbox.ApplyAll(s.db.outbox, OutboxSteps(s, Create(id, action)))
  {
    var tx := s.txs[id];
    var a, o := CreateStep(s, id, action);
    assert tx.writes.outbox.Keys == {o};
    var insert := Outbox.Insert(o, tx.cmd.workspace, OutboxEvent(tx.cmd, tx.event));
    assert CommitInsert(tx) == insert;
    CreatedIsInsert(s.db, Next(s, Create(id, action)).db, tx, a, o);
    ApplyOne(s.db.outbox, insert);
  }

  lemma CreatedIsInsert(before: Db, after: Db, tx: Tx, a: Uuid, o: Uuid)
    requires CreatedRows(before, after, tx.cmd, tx.event, tx.createdAt, tx.expiresAt, a, o)
    ensures after.outbox
         == Outbox.Apply(before.outbox, Outbox.Insert(o, tx.cmd.workspace, OutboxEvent(tx.cmd, tx.event)))
  {
  }

  lemma {:induction false} ApplyOne(rows: Outbox.Table, step: Outbox.Step)
    ensures Outbox.ApplyAll(rows, [step]) == Outbox.Apply(rows, step)
  {
    assert [step][1..] == [];
  }

  lemma NextIsOutboxSteps(s: State, step: Step)
    requires Inv(s)
    ensures Next(s, step).db.outbox == Outbox.ApplyAll(s.db.outbox, OutboxSteps(s, step))
  {
    if step.Worker? {
      ApplyOne(s.db.outbox, step.step);
    } else if step.Create? {
      var a, o := CreateStep(s, step.tx, step.action);
      if step.tx in s.txs && Committing(s.txs[step.tx], step.action) {
        CommitIsInsert(s, step.tx, step.action);
      }
    }
  }

  ghost predicate FreshWorkerTokens(steps: seq<Step>) {
    forall i, j :: (
      && 0 <= i < j < |steps| && steps[i].Worker? && steps[j].Worker?
      && steps[i].step.Lease? && steps[j].step.Lease?) ==> steps[i].step.token != steps[j].step.token
  }

  lemma {:induction false} TraceLeases(s: State, steps: seq<Step>)
    ensures forall x :: x in OutboxTrace(s, steps) && x.Lease? ==> Worker(x) in steps
    decreases |steps|
  {
    if steps != [] {
      TraceLeases(Next(s, steps[0]), steps[1..]);
    }
  }

  // ----- an outbox id drawn once is inserted once

  predicate Draws(step: Step, o: Uuid) {
    step.Create? && step.action.InsertOutbox? && step.action.id == o
  }

  // An open transaction has written a row under the id.
  ghost predicate Pending(s: State, o: Uuid) {
    exists t :: t in s.txs && o in s.txs[t].writes.outbox
  }

  ghost predicate FreshOutboxIds(s: State, steps: seq<Step>) {
    && (forall i, j, o :: 0 <= i < j < |steps| && Draws(steps[i], o) ==> !Draws(steps[j], o))
    && (forall i, o :: 0 <= i < |steps| && Draws(steps[i], o) ==> !Pending(s, o))
  }

  lemma AdvanceDraws(db: Db, peers: Peers, tx: Tx, action: Action)
    ensures var out := Advance(db, peers, tx, action);
      out.Continue? ==>
        out.tx.writes.outbox.Keys <= tx.writes.outbox.Keys + (if action.InsertOutbox? then {action.id} else {})
  {
  }

  lemma PendingWasDrawn(s: State, step: Step, o: Uuid)
    requires Pending(Next(s, step), o)
    ensures Pending(s, o) || Draws(step, o)
  {
    var s' := Next(s, step);
    var t :| t in s'.txs && o in s'.txs[t].writes.outbox;
    if step.Create? && step.tx == t && t in s.txs && !step.action.Begin? {
      AdvanceDraws(s.db, s.txs - {t}, s.txs[t], step.action);
    } else {
      assert t in s.txs && s'.txs[t] == s.txs[t];
    }
  }

  // A commit inserts what it had pending, and nobody else has that pending.
  lemma InsertLeavesPending(s: State, step: Step, x: Outbox.Step)
    requires Inv(s) && x in OutboxSteps(s, step) && x.Insert?
    ensures Pending(s, x.id) && !Pending(Next(s, step), x.id)
  {
    var id := step.tx;
    assert step.Create? && x == CommitInsert(s.txs[id]) && x.id in s.txs[id].writes.outbox;
    var s' := Next(s, step);
    var a, o := CreateStep(s, id, step.action);
    assert s'.txs == s.txs - {id};
    forall t | t in s'.txs ensures x.id !in s'.txs[t].writes.outbox {
      assert Compatible(s.txs[id], s.txs[t]);
    }
  }

  lemma {:induction false} NeverInserted(s: State, steps: seq<Step>, o: Uuid)
    requires Inv(s) && !Pending(s, o)
    requires forall k :: 0 <= k < |steps| ==> !Draws(steps[k], o)
    ensures forall x :: x in OutboxTrace(s, steps) && x.Insert? ==> x.id != o
    decreases |steps|
  {
    if steps != [] {
      forall x | x in OutboxSteps(s, steps[0]) && x.Insert? ensures x.id != o {
        InsertLeavesPending(s, steps[0], x);
      }
      if Pending(Next(s, steps[0]), o) {
        PendingWasDrawn(s, steps[0], o);
      }
      NextKeepsInv(s, steps[0]);
      NeverInserted(Next(s, steps[0]), steps[1..], o);
    }
  }

  lemma FreshIdsGoOn(s: State, steps: seq<Step>)
    requires steps != [] && FreshOutboxIds(s, steps)
    ensures FreshOutboxIds(Next(s, steps[0]), steps[1..])
  {
    forall i, o | 0 <= i < |steps[1..]| && Draws(steps[1..][i], o) ensures !Pending(Next(s, steps[0]), o) {
      assert Draws(steps[i + 1], o);
      if Pending(Next(s, steps[0]), o) {
        PendingWasDrawn(s, steps[0], o);
      }
    }
  }

  lemma PendingIsNotDrawn(s: State, steps: seq<Step>, o: Uuid)
    requires steps != [] && FreshOutboxIds(s, steps) && Pending(s, o)
    ensures forall k :: 0 <= k < |steps[1..]| ==> !Draws(steps[1..][k], o)
  {
    forall k | 0 <= k < |steps[1..]| ensures !Draws(steps[1..][k], o) {
      assert steps[1..][k] == steps[k + 1];
    }
  }

  lemma {:induction false} TraceInsertsAreFresh(s: State, steps: seq<Step>)
    requires Inv(s) && FreshOutboxIds(s, steps)
    ensures OutboxRuns.FreshInserts(OutboxTrace(s, steps))
    decreases |steps|
  {
    if steps != [] {
      NextKeepsInv(s, steps[0]);
      FreshIdsGoOn(s, steps);
      TraceInsertsAreFresh(Next(s, steps[0]), steps[1..]);
      var head: seq<Outbox.Step> := OutboxSteps(s, steps[0]);
      var tail: seq<Outbox.Step> := OutboxTrace(Next(s, steps[0]), steps[1..]);
      var both: seq<Outbox.Step> := head + tail;
      forall i, j | 0 <= i < j < |both| && both[i].Insert? && both[j].Insert? ensures both[i].id != both[j].id {
        if i < |head| {
          assert both[j] in tail;
          InsertLeavesPending(s, steps[0], both[i]);
          PendingIsNotDrawn(s, steps, both[i].id);
          NeverInserted(Next(s, steps[0]), steps[1..], both[i].id);
        } else {
          assert both[i] == tail[i - |head|] && both[j] == tail[j - |head|];
        }
      }
    }
  }

  // ----- the theorems about runs of the lease protocol hold of the outbox of the system

  lemma {:induction false} OutboxIsProtocolRun(s: State, steps: seq<Step>)
    requires Inv(s) && FreshWorkerTokens(steps)
    ensures Run(s, steps).db.outbox == Outbox.ApplyAll(s.db.outbox, OutboxTrace(s, steps))
    ensures OutboxRuns.FreshTokens(OutboxTrace(s, steps))
    decreases |steps|
  {
    if steps != [] {
      var s', rest := Next(s, steps[0]), steps[1..];
      NextKeepsInv(s, steps[0]);
      NextIsOutboxSteps(s, steps[0]);
      OutboxIsProtocolRun(s', rest);
      var head, tail := OutboxSteps(s, steps[0]), OutboxTrace(s', rest);
      Outbox.ApplyAllSplit(s.db.outbox, head, tail);
      TraceLeases(s', rest);
      forall i, j | 0 <= i < j < |head + tail| && (head + tail)[i].Lease? && (head + tail)[j].Lease?
        ensures (head + tail)[i].token != (head + tail)[j].token
      {
        if i < |head| {
          assert (head + tail)[j] in tail;
          assert Worker((head + tail)[j]) in rest;
        } else {
          assert (head + tail)[i] == tail[i - |head|] && (head + tail)[j] == tail[j - |head|];
        }
      }
    }
  }

  lemma {:induction false} SystemRunsTheProtocol(steps: seq<Step>)
    requires FreshWorkerTokens(steps) && FreshOutboxIds(INIT, steps)
    ensures var trace := OutboxTrace(INIT, steps);
      && Run(INIT, steps).db.outbox == Outbox.ApplyAll(map[], trace)
      && OutboxRuns.FreshTokens(trace) && OutboxRuns.FreshInserts(trace)
  {
    assert Inv(INIT);
    OutboxIsProtocolRun(INIT, steps);
    TraceInsertsAreFresh(INIT, steps);
  }
}
