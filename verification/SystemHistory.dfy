// What is conserved over whole runs: events, keys, and the time between creations.
module SystemHistory {
  import opened Base
  import opened Issues
  import opened IssueStore
  import opened System
  import opened SystemInvariant
  import Outbox

  // ----- no lost events

  // Every issue has one activity entry, and every activity entry has its issue.
  ghost predicate OneActivityEach(db: Db) {
    && (forall i :: i in db.issues ==> exists a :: a in db.activities && db.activities[a].issueId == i)
    && (forall a :: a in db.activities ==> db.activities[a].issueId in db.issues)
    && (forall a, b :: (
          a in db.activities && b in db.activities && db.activities[a].issueId == db.activities[b].issueId) ==> a == b)
  }

  ghost predicate Queued(rows: Outbox.Table, issueId: Uuid) {
    exists o :: o in rows && rows[o].event.aggregateId == issueId
  }

  ghost predicate Purged(purged: set<Outbox.Row>, issueId: Uuid) {
    exists r :: r in purged && r.event.aggregateId == issueId
  }

  // Every issue has one event, either still in the outbox or purged from it once finished.
  ghost predicate OneEventEach(db: Db, purged: set<Outbox.Row>) {
    && (forall i :: i in db.issues ==> Queued(db.outbox, i) || Purged(purged, i))
    && (forall o :: o in db.outbox ==>
          && db.outbox[o].event.aggregateId in db.issues
          && db.outbox[o].workspace == db.issues[db.outbox[o].event.aggregateId].workspace
          && !Purged(purged, db.outbox[o].event.aggregateId))
    && (forall o, p :: (
          && o in db.outbox && p in db.outbox
          && db.outbox[o].event.aggregateId == db.outbox[p].event.aggregateId) ==> o == p)
    && (forall r :: r in purged ==> r.Terminal() && r.event.aggregateId in db.issues)
    && (forall r, q :: r in purged && q in purged && r.event.aggregateId == q.event.aggregateId ==> r == q)
  }

  ghost predicate EventsKept(s: State) {
    OneActivityEach(s.db) && OneEventEach(s.db, s.hist.purgedRows)
  }

  lemma CreatedKeepsActivities(before: Db, after: Db, cmd: Command, event: CreatedEvent, now: Time, expiresAt: Time,
                               activityId: Uuid, outboxId: Uuid)
    requires OneActivityEach(before)
    requires CreatedRows(before, after, cmd, event, now, expiresAt, activityId, outboxId)
    ensures OneActivityEach(after)
  {
    forall i | i in after.issues ensures exists a :: a in after.activities && after.activities[a].issueId == i {
      if i == cmd.issueId {
        assert activityId in after.activities;
      } else {
        var a :| a in before.activities && before.activities[a].issueId == i;
        assert a in after.activities && after.activities[a].issueId == i;
      }
    }
  }

  lemma CreatedKeepsEvents(before: Db, after: Db, cmd: Command, event: CreatedEvent, now: Time, expiresAt: Time,
                           activityId: Uuid, outboxId: Uuid, purged: set<Outbox.Row>)
    requires OneEventEach(before, purged)
    requires CreatedRows(before, after, cmd, event, now, expiresAt, activityId, outboxId)
    ensures OneEventEach(after, purged)
  {
    forall i | i in after.issues ensures Queued(after.outbox, i) || Purged(purged, i) {
      if i == cmd.issueId {
        assert outboxId in after.outbox;
      } else if Queued(before.outbox, i) {
        var o :| o in before.outbox && before.outbox[o].event.aggregateId == i;
        assert o in after.outbox;
      }
    }
  }

  lemma WorkerKeepsEvents(
    db: Db, after: Outbox.Table, step: Outbox.Step, purged: set<Outbox.Row>, gone: set<Outbox.Row>)
    requires OneEventEach(db, purged) && !step.Insert?
    requires after == Outbox.Apply(db.outbox, step)
    requires gone == set o | o in db.outbox && o !in after :: db.outbox[o]
    ensures OneEventEach(db.(outbox := after), purged + gone)
  {
    OutboxStepFacts(db.outbox, step);
    forall i | i in db.issues ensures Queued(after, i) || Purged(purged + gone, i) {
      if Queued(db.outbox, i) {
        var o :| o in db.outbox && db.outbox[o].event.aggregateId == i;
        if o in after {
          assert after[o].event.aggregateId == i;
        } else {
          assert db.outbox[o] in purged + gone;
        }
      } else {
        var r :| r in purged && r.event.aggregateId == i;
        assert r in purged + gone;
      }
    }
    forall o | o in after ensures !Purged(purged + gone, after[o].event.aggregateId) {
      assert !Purged(purged, db.outbox[o].event.aggregateId);
    }
    forall r, q | r in purged + gone && q in purged + gone && r.event.aggregateId == q.event.aggregateId
      ensures r == q
    {
      assert q in purged ==> Purged(purged, q.event.aggregateId);
      assert r in purged ==> Purged(purged, r.event.aggregateId);
    }
  }

  lemma CommitKeepsEvents(s: State, s': State, tx: Tx, a: Uuid, o: Uuid)
    requires EventsKept(s) && CommitsOne(s, s', tx, a, o)
    ensures EventsKept(s')
  {
    CreatedKeepsActivities(s.db, s'.db, tx.cmd, tx.event, tx.createdAt, tx.expiresAt, a, o);
    CreatedKeepsEvents(s.db, s'.db, tx.cmd, tx.event, tx.createdAt, tx.expiresAt, a, o, s.hist.purgedRows);
  }

  lemma CreateKeepsEvents(s: State, id: TxId, action: Action)
    requires Inv(s) && EventsKept(s)
    ensures EventsKept(NextCreate(s, id, action))
  {
    var a, o := CreateStep(s, id, action);
    if id in s.txs && Committing(s.txs[id], action) {
      CommitKeepsEvents(s, NextCreate(s, id, action), s.txs[id], a, o);
    }
  }

  lemma WorkerStepKeepsEvents(s: State, ws: Outbox.Step)
    requires EventsKept(s)
    ensures EventsKept(NextWorker(s, ws))
  {
    if !ws.Insert? {
      var after := Outbox.Apply(s.db.outbox, ws);
      WorkerKeepsEvents(s.db, after, ws, s.hist.purgedRows, set o | o in s.db.outbox && o !in after :: s.db.outbox[o]);
    }
  }

  lemma NextKeepsEvents(s: State, step: Step)
    requires Inv(s) && EventsKept(s)
    ensures EventsKept(Next(s, step))
  {
    if step.Create? {
      assert Next(s, step) == NextCreate(s, step.tx, step.action);
      CreateKeepsEvents(s, step.tx, step.action);
    } else if step.Worker? {
      assert Next(s, step) == NextWorker(s, step.step);
      WorkerStepKeepsEvents(s, step.step);
    } else {
      OtherStepKeepsEvents(s, step);
    }
  }

  lemma OtherStepKeepsEvents(s: State, step: Step)
    requires EventsKept(s) && !step.Create? && !step.Worker?
    ensures EventsKept(Next(s, step))
  {
  }

  // Over any run from an empty database: every committed issue has exactly one activity and
  // exactly one event, which is in the outbox or was purged as delivered or dead-lettered.
  lemma {:induction false} NoLostEvents(s: State, steps: seq<Step>)
    requires Inv(s) && EventsKept(s)
    ensures EventsKept(Run(s, steps))
    decreases |steps|
  {
    if steps != [] {
      NextKeepsInv(s, steps[0]);
      NextKeepsEvents(s, steps[0]);
      NoLostEvents(Next(s, steps[0]), steps[1..]);
    }
  }

  lemma InitOk()
    ensures Inv(INIT) && EventsKept(INIT) && KeysConserved(INIT)
    ensures forall clock, retention :: KeysTimed(INIT, clock, retention)
  {
  }

  // ----- how often a key can create

  // Creations of a key, purges of its record, and the record itself balance exactly.
  ghost predicate KeysConserved(s: State) {
    forall k: RecordKey :: s.hist.created[k] == s.hist.purgedKeys[k] + (if k in s.db.records then 1 else 0)
  }

  lemma CommitKeepsKeys(s: State, s': State, tx: Tx, a: Uuid, o: Uuid)
    requires KeysConserved(s) && CommitsOne(s, s', tx, a, o)
    ensures KeysConserved(s')
  {
  }

  lemma PurgeKeepsKeys(s: State, s': State, gone: set<RecordKey>)
    requires KeysConserved(s)
    requires gone <= s.db.records.Keys && s'.db.records.Keys == s.db.records.Keys - gone
    requires s'.hist.created == s.hist.created && s'.hist.purgedKeys == s.hist.purgedKeys + multiset(gone)
    ensures KeysConserved(s')
  {
  }

  lemma PurgeStepKeepsKeys(s: State, workspace: Uuid, before: Time)
    requires KeysConserved(s)
    ensures KeysConserved(NextPurge(s, workspace, before))
  {
    if !PurgeBlocked(s, workspace, before) {
      var kept := Remaining(s.db.records, workspace, before);
      var gone := s.db.records.Keys - kept.Keys;
      assert kept.Keys == s.db.records.Keys - gone;
      PurgeKeepsKeys(s, NextPurge(s, workspace, before), gone);
    }
  }

  ghost predicate SameKeys(s: State, s': State) {
    && s'.db.records == s.db.records
    && s'.hist.created == s.hist.created
    && s'.hist.purgedKeys == s.hist.purgedKeys
  }

  lemma OtherStepKeepsKeys(s: State, step: Step)
    requires !step.Create? && !step.PurgeRecords?
    ensures SameKeys(s, Next(s, step))
  {
  }

  lemma SameKeysConserved(s: State, s': State)
    requires KeysConserved(s) && SameKeys(s, s')
    ensures KeysConserved(s')
  {
  }

  lemma CreateKeepsKeys(s: State, id: TxId, action: Action)
    requires Inv(s) && KeysConserved(s)
    ensures KeysConserved(NextCreate(s, id, action))
  {
    var a, o := CreateStep(s, id, action);
    if id in s.txs && Committing(s.txs[id], action) {
      CommitKeepsKeys(s, NextCreate(s, id, action), s.txs[id], a, o);
    } else {
      SameKeysConserved(s, NextCreate(s, id, action));
    }
  }

  lemma NextKeepsKeys(s: State, step: Step)
    requires Inv(s) && KeysConserved(s)
    ensures KeysConserved(Next(s, step))
  {
    if step.Create? {
      assert Next(s, step) == NextCreate(s, step.tx, step.action);
      CreateKeepsKeys(s, step.tx, step.action);
    } else if step.PurgeRecords? {
      assert Next(s, step) == NextPurge(s, step.workspace, Cutoff(step));
      PurgeStepKeepsKeys(s, step.workspace, Cutoff(step));
    } else {
      OtherStepKeepsKeys(s, step);
      SameKeysConserved(s, Next(s, step));
    }
  }

  // The issues ever created under a key are the purges of its record plus at most one.
  lemma {:induction false} KeyReuseIsBounded(s: State, steps: seq<Step>)
    requires Inv(s) && KeysConserved(s)
    ensures KeysConserved(Run(s, steps))
    decreases |steps|
  {
    if steps != [] {
      NextKeepsInv(s, steps[0]);
      NextKeepsKeys(s, steps[0]);
      KeyReuseIsBounded(Next(s, steps[0]), steps[1..]);
    }
  }

  // ----- how soon a key can create again

  function StepClock(step: Step): Option<Time> {
    match step
    case Create(_, action) => if action.Commit? then Some(action.now) else None
    case PurgeRecords(_, now, _) => Some(now)
    case _ => None
  }

  function ClockAfter(step: Step, clock: Time): Time {
    if StepClock(step).Some? then StepClock(step).value else clock
  }

  // The last reading before the i-th statement.
  function ClockAt(steps: seq<Step>, i: nat, clock: Time): Time
    requires i <= |steps|
  {
    if i == 0 then clock else ClockAfter(steps[i - 1], ClockAt(steps, i - 1, clock))
  }

  // Commits and purges read one clock that never goes back, and purges respect the retention.
  ghost predicate TimedRun(steps: seq<Step>, clock: Time, retention: Time) {
    forall i :: 0 <= i < |steps| ==>
      && ClockAt(steps, i, clock) <= ClockAfter(steps[i], ClockAt(steps, i, clock))
      && (steps[i].PurgeRecords? ==> retention <= steps[i].retention)
  }

  // A key that has created is either still recorded, under the expiry its creation set, or
  // was purged when that expiry was more than the retention in the past.
  ghost predicate KeysTimed(s: State, clock: Time, retention: Time) {
    && (forall k :: k in s.db.records ==> k in s.hist.lastExpiry && s.db.records[k].expiresAt == s.hist.lastExpiry[k])
    && (forall k :: k in s.hist.lastExpiry && k !in s.db.records ==> s.hist.lastExpiry[k] + retention < clock)
  }

  lemma CommitKeepsTimes(s: State, s': State, tx: Tx, a: Uuid, o: Uuid, clock: Time, later: Time, retention: Time)
    requires KeysTimed(s, clock, retention) && CommitsOne(s, s', tx, a, o) && clock <= later
    ensures KeysTimed(s', later, retention)
  {
  }

  lemma NextKeepsTimes(s: State, step: Step, clock: Time, retention: Time)
    requires Inv(s) && KeysTimed(s, clock, retention)
    requires clock <= ClockAfter(step, clock)
    requires step.PurgeRecords? ==> retention <= step.retention
    ensures KeysTimed(Next(s, step), ClockAfter(step, clock), retention)
  {
    match step
    case Create(id, action) =>
      var a, o := CreateStep(s, id, action);
      if id in s.txs && Committing(s.txs[id], action) {
        CommitKeepsTimes(s, Next(s, step), s.txs[id], a, o, clock, ClockAfter(step, clock), retention);
      }
    case _ =>
  }

  // The state before the i-th statement of a run from the empty database.
  ghost function At(steps: seq<Step>, i: nat): State
    requires i <= |steps|
  {
    Run(INIT, steps[..i])
  }

  lemma AtNext(steps: seq<Step>, i: nat)
    requires i < |steps|
    ensures At(steps, i + 1) == Next(At(steps, i), steps[i])
  {
    assert steps[..i + 1] == steps[..i] + [steps[i]];
    RunSplit(INIT, steps[..i], [steps[i]]);
    assert [steps[i]][1..] == [];
    assert Run(Next(At(steps, i), steps[i]), []) == Next(At(steps, i), steps[i]);
  }

  lemma {:induction false} TimesAt(steps: seq<Step>, i: nat, clock: Time, retention: Time)
    requires i <= |steps| && TimedRun(steps, clock, retention)
    ensures Inv(At(steps, i)) && KeysTimed(At(steps, i), ClockAt(steps, i, clock), retention)
    decreases i
  {
    if i == 0 {
      InitOk();
    } else {
      TimesAt(steps, i - 1, clock, retention);
      AtNext(steps, i - 1);
      NextKeepsInv(At(steps, i - 1), steps[i - 1]);
      NextKeepsTimes(At(steps, i - 1), steps[i - 1], ClockAt(steps, i - 1, clock), retention);
    }
  }

  // The i-th statement is a commit that answers "created" for the key.
  ghost predicate Creates(s: State, step: Step, k: RecordKey) {
    && step.Create? && step.action.Commit? && step.tx in s.txs && TxKey(s.txs[step.tx]) == k
    && var out := Advance(s.db, s.txs - {step.tx}, s.txs[step.tx], step.action);
       out.Finish? && out.result.Created?
  }

  ghost predicate CreatesAt(steps: seq<Step>, i: nat, k: RecordKey) {
    i < |steps| && Creates(At(steps, i), steps[i], k)
  }

  // Only a creation of the key moves its expiry; a replay does not.
  lemma ExpiryMoves(s: State, step: Step, k: RecordKey)
    requires Inv(s)
    ensures var s' := Next(s, step);
      if Creates(s, step, k) then s'.hist.lastExpiry == s.hist.lastExpiry[k := s.txs[step.tx].expiresAt]
      else (k in s'.hist.lastExpiry <==> k in s.hist.lastExpiry)
           && (k in s.hist.lastExpiry ==> s'.hist.lastExpiry[k] == s.hist.lastExpiry[k])
  {
    if step.Create? {
      assert Next(s, step) == NextCreate(s, step.tx, step.action);
      var a, o := CreateStep(s, step.tx, step.action);
    }
  }

  lemma CreationNeedsFreeKey(s: State, step: Step, k: RecordKey, clock: Time, retention: Time)
    requires Inv(s) && KeysTimed(s, clock, retention) && Creates(s, step, k) && k in s.hist.lastExpiry
    ensures s.hist.lastExpiry[k] + retention < clock
  {
    var a, o := CreateStep(s, step.tx, step.action);
  }

  // ----- what a transaction sampled when it began

  // The transaction open at i began at b, with this clock sample, and has been open since.
  ghost predicate BeganAt(steps: seq<Step>, b: nat, i: nat, id: TxId, sample: Time) {
    && b < i <= |steps|
    && steps[b].Create? && steps[b].tx == id && steps[b].action.Begin? && steps[b].action.sampledAt == sample
    && id !in At(steps, b).txs
    && forall n :: b < n <= i ==> id in At(steps, n).txs
  }

  lemma StepKeepsExpiry(s: State, step: Step, id: TxId)
    requires id in s.txs && id in Next(s, step).txs
    ensures Next(s, step).txs[id].expiresAt == s.txs[id].expiresAt
  {
  }

  lemma StepOpens(s: State, step: Step, id: TxId)
    requires id !in s.txs && id in Next(s, step).txs
    ensures step.Create? && step.tx == id && step.action.Begin?
    ensures Next(s, step).txs[id].expiresAt == step.action.sampledAt + 7 * DAY
  {
  }

  // Every open transaction has begun, and its record expires seven days after its sample.
  lemma {:induction false} OpenHasBegun(steps: seq<Step>, i: nat, id: TxId) returns (b: nat, sample: Time)
    requires i <= |steps| && id in At(steps, i).txs
    ensures BeganAt(steps, b, i, id, sample)
    decreases i
  {
    if i == 0 {
      assert false;
    } else {
      AtNext(steps, i - 1);
      if id in At(steps, i - 1).txs {
        b, sample := OpenHasBegun(steps, i - 1, id);
      } else {
        StepOpens(At(steps, i - 1), steps[i - 1], id);
        b, sample := i - 1, steps[i - 1].action.sampledAt;
      }
    }
  }

  lemma {:induction false} ExpiresInSevenDays(steps: seq<Step>, b: nat, i: nat, id: TxId, sample: Time)
    requires BeganAt(steps, b, i, id, sample)
    ensures At(steps, i).txs[id].expiresAt == sample + 7 * DAY
    decreases i
  {
    AtNext(steps, i - 1);
    if i == b + 1 {
      StepOpens(At(steps, b), steps[b], id);
    } else {
      ExpiresInSevenDays(steps, b, i - 1, id, sample);
      StepKeepsExpiry(At(steps, i - 1), steps[i - 1], id);
    }
  }

  // After a creation, the key's expiry is the one it set, until a clock past that expiry and
  // the retention has been read.
  lemma {:induction false} ExpiryHolds(
    steps: seq<Step>, i: nat, n: nat, k: RecordKey, expiry: Time, clock: Time, retention: Time)
    requires TimedRun(steps, clock, retention) && i < n <= |steps|
    requires CreatesAt(steps, i, k) && expiry == At(steps, i).txs[steps[i].tx].expiresAt
    ensures k in At(steps, n).hist.lastExpiry
    ensures At(steps, n).hist.lastExpiry[k] == expiry || expiry + retention < ClockAt(steps, n, clock)
    decreases n
  {
    var s, step := At(steps, n - 1), steps[n - 1];
    AtNext(steps, n - 1);
    TimesAt(steps, n - 1, clock, retention);
    ExpiryMoves(s, step, k);
    if n > i + 1 {
      ExpiryHolds(steps, i, n - 1, k, expiry, clock, retention);
      if Creates(s, step, k) {
        CreationNeedsFreeKey(s, step, k, ClockAt(steps, n - 1, clock), retention);
      }
    }
  }

  // When a key creates again, the later commit reads a clock more than seven days and the
  // retention past the sample the earlier creation took when it began.
  lemma SecondCreationIsLate(
    steps: seq<Step>, b: nat, i: nat, j: nat, k: RecordKey, sample: Time, clock: Time, retention: Time)
    requires TimedRun(steps, clock, retention)
    requires i < j && CreatesAt(steps, i, k) && CreatesAt(steps, j, k)
    requires BeganAt(steps, b, i, steps[i].tx, sample)
    ensures steps[j].action.now > sample + 7 * DAY + retention
  {
    ExpiresInSevenDays(steps, b, i, steps[i].tx, sample);
    ExpiryHolds(steps, i, j, k, sample + 7 * DAY, clock, retention);
    TimesAt(steps, j, clock, retention);
    CreationNeedsFreeKey(At(steps, j), steps[j], k, ClockAt(steps, j, clock), retention);
  }
}
