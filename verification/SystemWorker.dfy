// The workers within the whole system: what a run holds under one lease token is what one
// worker cycle does, and a row is delivered only after its publish.
module SystemWorker {
  import opened Base
  import opened System
  import opened SystemInvariant
  import opened SystemHistory
  import opened SystemOutbox
  import opened OutboxRuns
  import Outbox
  import W = Worker

  // ----- the statements of a run under one lease token

  ghost function EventOf(step: Step, token: Uuid): seq<W.Event> {
    match step
    case Worker(x) => if W.ForeignStep(x, token) then [] else [W.Commits(x)]
    case Published(id, t) => if t == token then [W.Publishes(id)] else []
    case _ => []
  }

  ghost function EventsUnder(steps: seq<Step>, token: Uuid): seq<W.Event>
    decreases |steps|
  {
    if |steps| == 0 then [] else EventOf(steps[0], token) + EventsUnder(steps[1..], token)
  }

  lemma {:induction false} EventsUnderSplit(a: seq<Step>, b: seq<Step>, token: Uuid)
    ensures EventsUnder(a + b, token) == EventsUnder(a, token) + EventsUnder(b, token)
    decreases |a|
  {
    if |a| == 0 {
      assert a + b == b;
    } else {
      assert (a + b)[0] == a[0] && (a + b)[1..] == a[1..] + b;
      EventsUnderSplit(a[1..], b, token);
    }
  }

  // The events before the i-th statement, then its own, are the first events of the run.
  lemma {:induction false} EventsBefore(steps: seq<Step>, i: nat, token: Uuid)
    requires i < |steps|
    ensures EventsUnder(steps[..i], token) + EventOf(steps[i], token) <= EventsUnder(steps, token)
  {
    assert steps == steps[..i] + [steps[i]] + steps[i + 1..];
    EventsUnderSplit(steps[..i] + [steps[i]], steps[i + 1..], token);
    EventsUnderSplit(steps[..i], [steps[i]], token);
    assert [steps[i]][1..] == [];
  }

  lemma {:induction false} PublishIsAStep(steps: seq<Step>, id: Uuid, token: Uuid) returns (j: nat)
    requires W.Publishes(id) in EventsUnder(steps, token)
    ensures j < |steps| && steps[j] == Published(id, token)
    decreases |steps|
  {
    if steps[0] == Published(id, token) {
      j := 0;
    } else {
      var k := PublishIsAStep(steps[1..], id, token);
      j := k + 1;
    }
  }

  // ----- a cycle publishes before it marks

  lemma {:induction false} OpenedByLease(c: W.Cycle, world: W.World, config: W.Config)
    requires W.WorldOk(world, c.token, config) && W.CycleOk(c, world, config)
    requires |W.OwnEvents(c.committed, c.token)| > 0
    ensures W.LeasesFirst(c, world, config) && W.Members(c.publishes) == W.Published(c.messages, world)
  {
    if W.NeverOpens(c, world) {
      W.ForeignHasNoEvents(c.committed, c.token);
    }
  }

  lemma {:induction false} FindMark(
    own: seq<W.Event>, e: W.Event, config: W.Config, auth: Auth, messages: map<Uuid, Outbox.Message>, world: W.World)
    returns (n: nat)
    requires W.JitterOk(world, config) && |own| > 0 && W.MarksMade(own[1..], config, auth, messages, world)
    requires e in own && e != own[0]
    ensures W.MarkMade(e, n, config, auth, messages, world)
  {
    n :| 0 <= n < |own| && own[n] == e;
    assert own[1..][n - 1] == own[n];
    W.EachMarkIsMade(own[1..], n - 1, config, auth, messages, world);
  }

  // A mark in a cycle is the one its message's publish and the configuration ask for.
  lemma {:induction false} MarkIsMade(c: W.Cycle, world: W.World, config: W.Config, x: Outbox.Step) returns (n: nat)
    requires W.WorldOk(world, c.token, config) && W.CycleOk(c, world, config)
    requires Completes(x) && W.Commits(x) in W.OwnEvents(c.committed, c.token)
    ensures W.MarkMade(W.Commits(x), n, config, c.auth, c.messages, world)
    ensures W.Members(c.publishes) == W.Published(c.messages, world)
  {
    OpenedByLease(c, world, config);
    n := FindMark(W.OwnEvents(c.committed, c.token), W.Commits(x), config, c.auth, c.messages, world);
  }

  // Where a delivery mark stands in a log, every publish of the log has gone before.
  lemma MarkFollowsPublishes(
    own: seq<W.Event>, publishes: seq<W.Event>, log: seq<W.Event>, before: seq<W.Event>, x: Outbox.Step, e: W.Event)
    requires |own| > 0 && own[0].Commits? && own[0].step.Lease? && log == [own[0]] + publishes + own[1..]
    requires forall k :: 0 <= k < |publishes| ==> publishes[k].Publishes?
    requires x.MarkDelivered? && before + [W.Commits(x)] <= log
    ensures W.Commits(x) in own
    ensures e in publishes ==> e in before
  {
    assert log[|before|] == (before + [W.Commits(x)])[|before|] == W.Commits(x);
    assert |before| >= 1 + |publishes|;
    assert own[|before| - |publishes|] == W.Commits(x);
    if e in publishes {
      var k :| 0 <= k < |publishes| && publishes[k] == e;
      assert before[1 + k] == (before + [W.Commits(x)])[1 + k] == log[1 + k];
    }
  }

  // In the log of a cycle, whatever precedes a delivery mark holds the publish of its row.
  lemma {:induction false} LogPublishesFirst(
    c: W.Cycle, world: W.World, config: W.Config, before: seq<W.Event>, x: Outbox.Step)
    requires W.WorldOk(world, c.token, config) && W.CycleOk(c, world, config)
    requires x.MarkDelivered? && before + [W.Commits(x)] <= W.LogOf(c)
    ensures W.Publishes(x.id) in before
    ensures x.id in W.Published(c.messages, world)
  {
    OpenedByLease(c, world, config);
    MarkFollowsPublishes(W.OwnEvents(c.committed, c.token), W.PublishEvents(c.publishes), W.LogOf(c), before, x,
                         W.Publishes(x.id));
    var n := MarkIsMade(c, world, config, x);
    MadeByPublish(c, world, config, x, n);
    var k :| 0 <= k < |c.publishes| && c.publishes[k] == x.id;
    assert W.PublishEvents(c.publishes)[k] == W.Publishes(x.id);
  }

  lemma MadeByPublish(c: W.Cycle, world: W.World, config: W.Config, x: Outbox.Step, n: nat)
    requires W.JitterOk(world, config) && x.MarkDelivered?
    requires W.MarkMade(W.Commits(x), n, config, c.auth, c.messages, world)
    requires W.Members(c.publishes) == W.Published(c.messages, world)
    ensures x.id in c.publishes && x.id in W.Published(c.messages, world)
  {
    assert x.id in W.Members(c.publishes);
  }

  // ----- the theorem

  // Under each token presented to complete a row, the run holds the log of a worker's cycle,
  // or as much of it as has happened.
  ghost predicate ServedByCycles(
    steps: seq<Step>, cycles: map<Uuid, W.Cycle>, worlds: map<Uuid, W.World>, configs: map<Uuid, W.Config>)
  {
    forall i :: 0 <= i < |steps| && Marks(steps[i]) ==>
      CycleUnder(steps, PresentedToken(steps[i].step), cycles, worlds, configs)
  }

  predicate Marks(step: Step) { step.Worker? && Completes(step.step) }

  predicate Delivers(step: Step) { step.Worker? && step.step.MarkDelivered? }

  ghost predicate CycleUnder(
    steps: seq<Step>, token: Uuid, cycles: map<Uuid, W.Cycle>, worlds: map<Uuid, W.World>, configs: map<Uuid, W.Config>)
  {
    && token in cycles && token in worlds && token in configs
    && cycles[token].token == token
    && W.WorldOk(worlds[token], token, configs[token])
    && W.CycleOk(cycles[token], worlds[token], configs[token])
    && EventsUnder(steps, token) <= W.LogOf(cycles[token])
  }

  lemma MarkDelivers(rows: Outbox.Table, x: Outbox.Step, o: Uuid)
    requires o in Outbox.Apply(rows, x) && Outbox.Apply(rows, x)[o].status.Delivered?
    requires !(o in rows && rows[o].status.Delivered?)
    ensures x.MarkDelivered? && x.id == o && Outbox.Succeeds(rows, x)
  {
  }

  lemma {:induction false} DeliveredByStep(s: State, step: Step, o: Uuid)
    requires Inv(s) && o in Next(s, step).db.outbox && Next(s, step).db.outbox[o].status.Delivered?
    requires !(o in s.db.outbox && s.db.outbox[o].status.Delivered?)
    ensures Delivers(step) && step.step.id == o && Outbox.Succeeds(s.db.outbox, step.step)
  {
    NextIsOutboxSteps(s, step);
    var done := OutboxSteps(s, step);
    if |done| == 1 {
      assert done == [done[0]];
      ApplyOne(s.db.outbox, done[0]);
      MarkDelivers(s.db.outbox, done[0], o);
    }
  }

  // A delivered row was delivered by a mark that held it.
  lemma {:induction false} DeliveredHasMark(steps: seq<Step>, n: nat, o: Uuid) returns (i: nat)
    requires n <= |steps| && o in At(steps, n).db.outbox && At(steps, n).db.outbox[o].status.Delivered?
    ensures i < n && Delivers(steps[i]) && steps[i].step.id == o
    ensures Outbox.Succeeds(At(steps, i).db.outbox, steps[i].step)
    decreases n
  {
    assert At(steps, 0) == INIT;
    i := n - 1;
    AtNext(steps, i);
    RunKeepsInv(INIT, steps[..i]);
    if o in At(steps, i).db.outbox && At(steps, i).db.outbox[o].status.Delivered? {
      i := DeliveredHasMark(steps, i, o);
    } else {
      DeliveredByStep(At(steps, i), steps[i], o);
    }
  }

  // In any run from the empty database whose deliveries are those of worker cycles, a row
  // is delivered only by a mark under some token before which a publish of it, under that
  // token, had returned Ok.
  lemma {:induction false} DeliveredWasPublished(
    steps: seq<Step>, cycles: map<Uuid, W.Cycle>, worlds: map<Uuid, W.World>, configs: map<Uuid, W.Config>,
    n: nat, o: Uuid) returns (j: nat, i: nat)
    requires ServedByCycles(steps, cycles, worlds, configs)
    requires n <= |steps| && o in At(steps, n).db.outbox && At(steps, n).db.outbox[o].status.Delivered?
    ensures j < i < n && Delivers(steps[i]) && steps[i].step.id == o
    ensures Outbox.Succeeds(At(steps, i).db.outbox, steps[i].step)
    ensures steps[j] == Published(o, steps[i].step.token)
    ensures var token := steps[i].step.token;
      && token in cycles && token in worlds && o in cycles[token].messages
      && worlds[token].Publish(cycles[token].messages[o]).Ok?
  {
    i := DeliveredHasMark(steps, n, o);
    var mark := steps[i].step;
    assert CycleUnder(steps, mark.token, cycles, worlds, configs);
    EventsBefore(steps, i, mark.token);
    LogPublishesFirst(cycles[mark.token], worlds[mark.token], configs[mark.token],
                      EventsUnder(steps[..i], mark.token), mark);
    j := PublishIsAStep(steps[..i], o, mark.token);
  }

  // ----- the failure marks of a run

  lemma {:induction false} EventIsInLog(steps: seq<Step>, i: nat, token: Uuid, log: seq<W.Event>, e: W.Event)
    requires i < |steps| && EventOf(steps[i], token) == [e] && EventsUnder(steps, token) <= log
    ensures e in log
  {
    EventsBefore(steps, i, token);
    assert log[|EventsUnder(steps[..i], token)|] == e;
  }

  predicate AsConfigured(f: Outbox.FailureContext, config: W.Config) {
    f.maxAttempts == config.maxAttempts && config.retryBackoffSeconds * SECOND <= f.retryBackoff
  }

  lemma MadeFailureFollows(
    x: Outbox.Step, n: nat, config: W.Config, auth: Auth, messages: map<Uuid, Outbox.Message>, world: W.World)
    requires W.JitterOk(world, config) && x.MarkFailed?
    requires W.MarkMade(W.Commits(x), n, config, auth, messages, world)
    ensures AsConfigured(x.failure, config)
  {
  }

  lemma CommitInLog(own: seq<W.Event>, publishes: seq<W.Event>, e: W.Event)
    requires |own| > 0 && e.Commits? && e in [own[0]] + publishes + own[1..]
    requires forall k :: 0 <= k < |publishes| ==> publishes[k].Publishes?
    ensures e in own
  {
  }

  lemma {:induction false} CycleFailureFollows(c: W.Cycle, world: W.World, config: W.Config, x: Outbox.Step)
    requires W.WorldOk(world, c.token, config) && W.CycleOk(c, world, config)
    requires x.MarkFailed? && W.Commits(x) in W.LogOf(c)
    ensures AsConfigured(x.failure, config)
  {
    CommitInLog(W.OwnEvents(c.committed, c.token), W.PublishEvents(c.publishes), W.Commits(x));
    var n := MarkIsMade(c, world, config, x);
    MadeFailureFollows(x, n, config, c.auth, c.messages, world);
  }

  // A failure mark spends the budget and waits the backoff its worker is configured with.
  lemma {:induction false} FailureMarkFollows(
    steps: seq<Step>, cycles: map<Uuid, W.Cycle>, worlds: map<Uuid, W.World>, configs: map<Uuid, W.Config>,
    x: Outbox.Step)
    requires ServedByCycles(steps, cycles, worlds, configs) && Worker(x) in steps && x.MarkFailed?
    ensures x.failure.leaseToken in configs && AsConfigured(x.failure, configs[x.failure.leaseToken])
  {
    var i :| 0 <= i < |steps| && steps[i] == Worker(x);
    var token := PresentedToken(x);
    assert CycleUnder(steps, token, cycles, worlds, configs);
    EventIsInLog(steps, i, token, W.LogOf(cycles[token]), W.Commits(x));
    CycleFailureFollows(cycles[token], worlds[token], configs[token], x);
  }

  lemma {:induction false} TraceMarks(s: State, steps: seq<Step>)
    ensures forall x :: x in OutboxTrace(s, steps) && x.MarkFailed? ==> Worker(x) in steps
    decreases |steps|
  {
    if |steps| > 0 {
      TraceMarks(Next(s, steps[0]), steps[1..]);
    }
  }

  // So what the theorems about retries ask of a run follows from the configuration of its
  // workers: one budget, and backoffs of at least the configured seconds.
  lemma {:induction false} RetriesAreAsConfigured(
    steps: seq<Step>, trace: seq<Outbox.Step>, cycles: map<Uuid, W.Cycle>, worlds: map<Uuid, W.World>,
    configs: map<Uuid, W.Config>, base: Time, budget: int)
    requires ServedByCycles(steps, cycles, worlds, configs) && trace == OutboxTrace(INIT, steps) && 0 <= base
    requires forall t :: t in configs ==>
      configs[t].maxAttempts == budget && base <= configs[t].retryBackoffSeconds * SECOND
    ensures BackoffAtLeast(trace, base)
    ensures forall k :: 0 <= k < |trace| && trace[k].MarkFailed? ==> trace[k].failure.maxAttempts == budget
  {
    TraceMarks(INIT, steps);
    forall k | 0 <= k < |trace| && trace[k].MarkFailed?
      ensures base <= trace[k].failure.retryBackoff && trace[k].failure.maxAttempts == budget
    {
      assert trace[k] in trace;
      FailureMarkFollows(steps, cycles, worlds, configs, trace[k]);
    }
  }
}
