// Whole runs of partition leasing by any number of workers.
module PartitionRuns {
  import opened Base
  import opened Partition

  // One statement; an acquire may have chosen its candidates in any way at all.
  datatype Step =
    | Acquire(owner: Uuid, now: Time, until: Time, candidates: set<Uuid>, buckets: Workspaces)
    | Renew(owner: Uuid, ids: set<Uuid>, now: Time, until: Time)
    | Release(owner: Uuid, ids: set<Uuid>, now: Time)

  // A worker was told it owns the workspace over [from, to).
  datatype Grant = Grant(workspace: Uuid, owner: Uuid, from: Time, to: Time)

  datatype State = State(leases: Leases, grants: set<Grant>)

  const INIT := State(map[], {})

  function Granted(leases: Leases, step: Step): set<Uuid> {
    match step
    case Acquire(owner, now, _, candidates, _) => Taken(leases, candidates, owner, now)
    case Renew(owner, ids, now, _) => Renewable(leases, ids, owner, now)
    case Release(_, _, _) => {}
  }

  function Apply(leases: Leases, step: Step): Leases {
    match step
    case Acquire(owner, now, until, _, buckets) => Upsert(leases, buckets, Granted(leases, step), owner, now, until)
    case Renew(_, _, now, until) => Renewed(leases, Granted(leases, step), now, until)
    case Release(owner, ids, _) => Released(leases, ids, owner)
  }

  // Releasing gives up the rest of what was granted.
  function Cut(g: Grant, step: Step): Grant {
    if step.Release? && g.owner == step.owner && g.workspace in step.ids && step.now < g.to then g.(to := step.now)
    else g
  }

  function NewGrants(leases: Leases, step: Step): set<Grant> {
    if step.Release? then {}
    else set id | id in Granted(leases, step) :: Grant(id, step.owner, step.now, step.until)
  }

  function Next(s: State, step: Step): State {
    State(Apply(s.leases, step), (set g | g in s.grants :: Cut(g, step)) + NewGrants(s.leases, step))
  }

  function Run(s: State, steps: seq<Step>): State
    decreases |steps|
  {
    if steps == [] then s else Run(Next(s, steps[0]), steps[1..])
  }

  predicate Covers(g: Grant, t: Time) { g.from <= t < g.to }

  ghost predicate Overlap(g: Grant, h: Grant) {
    exists t: Time :: Covers(g, t) && Covers(h, t)
  }

  ghost predicate Exclusive(grants: set<Grant>) {
    forall g, h :: g in grants && h in grants && g.workspace == h.workspace && g.owner != h.owner ==> !Overlap(g, h)
  }

  // A holder asks for less time than it has already been granted.
  ghost predicate Shortens(leases: Leases, step: Step, id: Uuid) {
    && !step.Release?
    && id in Granted(leases, step) && id in leases && leases[id].owner == step.owner
    && step.now < leases[id].leasedUntil && step.until < leases[id].leasedUntil
  }

  ghost predicate NeverShortens(leases: Leases, step: Step) {
    forall id :: id in leases ==> !Shortens(leases, step, id)
  }

  // At the clock reading, whoever holds an unfinished grant is the owner of the row, for at
  // least as long.
  ghost predicate Backed(s: State, clock: Time) {
    forall g :: g in s.grants ==>
      && g.from <= clock
      && (clock < g.to ==>
            && g.workspace in s.leases
            && s.leases[g.workspace].owner == g.owner
            && g.to <= s.leases[g.workspace].leasedUntil)
  }

  lemma CutShrinks(g: Grant, step: Step)
    ensures Cut(g, step).workspace == g.workspace && Cut(g, step).owner == g.owner && Cut(g, step).from == g.from
    ensures Cut(g, step).to <= g.to
  {
  }

  lemma ShrunkStayApart(g0: Grant, h0: Grant, g: Grant, h: Grant)
    requires !Overlap(g0, h0)
    requires g.from == g0.from && g.to <= g0.to && h.from == h0.from && h.to <= h0.to
    ensures !Overlap(g, h)
  {
    forall t: Time ensures !(Covers(g, t) && Covers(h, t)) {
      assert !(Covers(g0, t) && Covers(h0, t));
    }
  }

  lemma NewGrantMeetsNoOther(s: State, step: Step, clock: Time, g: Grant, h: Grant)
    requires Backed(s, clock) && clock <= step.now
    requires g in s.grants && h in NewGrants(s.leases, step)
    requires g.workspace == h.workspace && g.owner != h.owner
    ensures g.to <= h.from
  {
  }

  lemma NextIsExclusive(s: State, step: Step, clock: Time)
    requires Exclusive(s.grants) && Backed(s, clock) && clock <= step.now
    ensures Exclusive(Next(s, step).grants)
  {
    var s' := Next(s, step);
    forall g, h | g in s'.grants && h in s'.grants && g.workspace == h.workspace && g.owner != h.owner
      ensures !Overlap(g, h)
    {
      var newOnes := NewGrants(s.leases, step);
      if g in newOnes {
        if h !in newOnes {
          var h0 :| h0 in s.grants && h == Cut(h0, step);
          CutShrinks(h0, step);
          NewGrantMeetsNoOther(s, step, clock, h0, g);
        }
      } else {
        var g0 :| g0 in s.grants && g == Cut(g0, step);
        CutShrinks(g0, step);
        if h in newOnes {
          NewGrantMeetsNoOther(s, step, clock, g0, h);
        } else {
          var h0 :| h0 in s.grants && h == Cut(h0, step);
          CutShrinks(h0, step);
          ShrunkStayApart(g0, h0, g, h);
        }
      }
    }
  }

  lemma NextIsBacked(s: State, step: Step, clock: Time)
    requires Backed(s, clock) && clock <= step.now && NeverShortens(s.leases, step)
    ensures Backed(Next(s, step), step.now)
  {
    var s' := Next(s, step);
    forall g | g in s'.grants
      ensures g.from <= step.now
      ensures step.now < g.to ==>
        && g.workspace in s'.leases && s'.leases[g.workspace].owner == g.owner
        && g.to <= s'.leases[g.workspace].leasedUntil
    {
      if g !in NewGrants(s.leases, step) {
        var g0 :| g0 in s.grants && g == Cut(g0, step);
        OldGrantStaysBacked(s, step, clock, g0);
      }
    }
  }

  lemma OldGrantStaysBacked(s: State, step: Step, clock: Time, g0: Grant)
    requires Backed(s, clock) && clock <= step.now && NeverShortens(s.leases, step) && g0 in s.grants
    ensures var g, leases := Cut(g0, step), Apply(s.leases, step);
      && g.from <= step.now
      && (step.now < g.to ==>
            g.workspace in leases && leases[g.workspace].owner == g.owner && g.to <= leases[g.workspace].leasedUntil)
  {
    CutShrinks(g0, step);
    if step.now < Cut(g0, step).to {
      assert g0.workspace in s.leases && s.leases[g0.workspace].owner == g0.owner;
    }
  }

  // The clock the workers share never goes back, and no holder shortens its own lease.
  ghost predicate Orderly(leases: Leases, steps: seq<Step>, clock: Time)
    decreases |steps|
  {
    steps == [] ||
    (&& clock <= steps[0].now && NeverShortens(leases, steps[0])
     && Orderly(Apply(leases, steps[0]), steps[1..], steps[0].now))
  }

  // Over any run, no instant of a workspace is granted to two owners.
  lemma {:induction false} PartitionsAreExclusive(s: State, steps: seq<Step>, clock: Time)
    requires Exclusive(s.grants) && Backed(s, clock) && Orderly(s.leases, steps, clock)
    ensures Exclusive(Run(s, steps).grants)
    decreases |steps|
  {
    if steps != [] {
      NextIsExclusive(s, steps[0], clock);
      NextIsBacked(s, steps[0], clock);
      PartitionsAreExclusive(Next(s, steps[0]), steps[1..], steps[0].now);
    }
  }

  // ----- a fixed lease length per worker is enough

  ghost predicate WithinLength(leases: Leases, length: map<Uuid, Time>, clock: Time) {
    forall id :: id in leases ==>
      leases[id].owner in length && leases[id].leasedUntil <= clock + length[leases[id].owner]
  }

  ghost predicate FixedLength(steps: seq<Step>, length: map<Uuid, Time>, clock: Time)
    decreases |steps|
  {
    steps == [] ||
    (&& clock <= steps[0].now
     && (!steps[0].Release? ==> steps[0].owner in length && steps[0].until == steps[0].now + length[steps[0].owner])
     && FixedLength(steps[1..], length, steps[0].now))
  }

  lemma {:induction false} FixedLengthIsOrderly(leases: Leases, steps: seq<Step>, length: map<Uuid, Time>, clock: Time)
    requires WithinLength(leases, length, clock) && FixedLength(steps, length, clock)
    ensures Orderly(leases, steps, clock)
    decreases |steps|
  {
    if steps != [] {
      assert WithinLength(Apply(leases, steps[0]), length, steps[0].now);
      FixedLengthIsOrderly(Apply(leases, steps[0]), steps[1..], length, steps[0].now);
    }
  }

  lemma {:induction false} FixedLengthsAreExclusive(steps: seq<Step>, length: map<Uuid, Time>, clock: Time)
    requires FixedLength(steps, length, clock)
    ensures Exclusive(Run(INIT, steps).grants)
  {
    FixedLengthIsOrderly(map[], steps, length, clock);
    PartitionsAreExclusive(INIT, steps, clock);
  }

  // ----- and exclusivity cannot survive a shortened lease

  // Every row was granted to its owner up to its expiry, and the grant has not been cut.
  ghost predicate Anchored(s: State) {
    forall id :: id in s.leases ==> exists g :: g in s.grants && Anchors(g, id, s.leases[id])
  }

  ghost predicate Anchors(g: Grant, id: Uuid, lease: PartitionLease) {
    g.workspace == id && g.owner == lease.owner && g.to == lease.leasedUntil
  }

  lemma NextIsAnchored(s: State, step: Step)
    requires Anchored(s)
    ensures Anchored(Next(s, step))
  {
    var s' := Next(s, step);
    forall id | id in s'.leases ensures exists g :: g in s'.grants && Anchors(g, id, s'.leases[id]) {
      if id in Granted(s.leases, step) {
        var g := Grant(id, step.owner, step.now, step.until);
        assert g in NewGrants(s.leases, step) && Anchors(g, id, s'.leases[id]);
      } else {
        assert id in s.leases && s'.leases[id] == s.leases[id];
        var g :| g in s.grants && Anchors(g, id, s.leases[id]);
        assert Cut(g, step) == g;
      }
    }
  }

  // The other worker's move: take the row over as soon as the shortened lease has run out.
  function Takeover(step: Step, other: Uuid, id: Uuid): Step
    requires !step.Release?
  {
    var now := if step.now < step.until then step.until else step.now;
    Acquire(other, now, now + 1, {id}, map[])
  }

  lemma TakeoverOverlaps(s: State, step: Step, clock: Time, id: Uuid, other: Uuid)
    requires Anchored(s) && Backed(s, clock) && clock <= step.now
    requires Shortens(s.leases, step, id) && other != step.owner
    ensures !Exclusive(Next(Next(s, step), Takeover(step, other, id)).grants)
  {
    var take := Takeover(step, other, id);
    var mid := Next(s, step);
    var g :| g in s.grants && Anchors(g, id, s.leases[id]);
    UncutStays(s, step, g);
    UncutStays(mid, take, g);
    assert Granted(mid.leases, take) == {id};
    var h := Grant(id, other, take.now, take.until);
    assert h in NewGrants(mid.leases, take);
    assert Covers(g, take.now) && Covers(h, take.now);
    assert Overlap(g, h);
  }

  lemma UncutStays(s: State, step: Step, g: Grant)
    requires g in s.grants && !step.Release?
    ensures g in Next(s, step).grants
  {
    assert Cut(g, step) == g;
  }

  lemma {:induction false} OneStepRun(s: State, step: Step)
    ensures Run(s, [step]) == Next(s, step)
    ensures forall clock :: Orderly(s.leases, [step], clock) <==> clock <= step.now && NeverShortens(s.leases, step)
  {
    assert [step][1..] == [];
    assert Run(Next(s, step), []) == Next(s, step);
    assert Orderly(Apply(s.leases, step), [], step.now);
  }

  // Whatever orderly steps come next, no instant is granted to two owners.
  ghost predicate Safe(s: State, clock: Time) {
    forall rest :: Orderly(s.leases, rest, clock) ==> Exclusive(Run(s, rest).grants)
  }

  lemma KeepingIsSafe(s: State, step: Step, clock: Time)
    requires Exclusive(s.grants) && Backed(s, clock) && clock <= step.now && NeverShortens(s.leases, step)
    ensures Safe(Next(s, step), step.now)
  {
    var s' := Next(s, step);
    NextIsExclusive(s, step, clock);
    NextIsBacked(s, step, clock);
    forall rest | Orderly(s'.leases, rest, step.now) ensures Exclusive(Run(s', rest).grants) {
      PartitionsAreExclusive(s', rest, step.now);
    }
  }

  lemma ShorteningIsUnsafe(s: State, step: Step, clock: Time, id: Uuid, other: Uuid)
    requires Backed(s, clock) && Anchored(s) && clock <= step.now
    requires Shortens(s.leases, step, id) && other != step.owner
    ensures !Safe(Next(s, step), step.now)
  {
    var s', take := Next(s, step), Takeover(step, other, id);
    TakeoverOverlaps(s, step, clock, id, other);
    OneStepRun(s', take);
    assert Granted(s'.leases, take) == {id} && s'.leases[id].owner != other;
    assert NeverShortens(s'.leases, take);
    assert Orderly(s'.leases, [take], step.now);
  }

  // One step keeps every continuation exclusive exactly when it shortens no lease.
  lemma SafeExactly(s: State, step: Step, clock: Time)
    requires Exclusive(s.grants) && Backed(s, clock) && Anchored(s) && clock <= step.now
    ensures Safe(Next(s, step), step.now) <==> NeverShortens(s.leases, step)
  {
    if NeverShortens(s.leases, step) {
      KeepingIsSafe(s, step, clock);
    } else {
      var id :| id in s.leases && Shortens(s.leases, step, id);
      ShorteningIsUnsafe(s, step, clock, id, step.owner + 1);
    }
  }

  ghost predicate Monotone(steps: seq<Step>, clock: Time)
    decreases |steps|
  {
    steps == [] || (clock <= steps[0].now && Monotone(steps[1..], steps[0].now))
  }

  // Every state the run goes through is safe.
  ghost predicate AlwaysSafe(s: State, steps: seq<Step>, clock: Time)
    decreases |steps|
  {
    Safe(s, clock) && (steps == [] || AlwaysSafe(Next(s, steps[0]), steps[1..], steps[0].now))
  }

  lemma {:induction false} AlwaysSafeExactly(s: State, steps: seq<Step>, clock: Time)
    requires Exclusive(s.grants) && Backed(s, clock) && Anchored(s) && Monotone(steps, clock)
    ensures AlwaysSafe(s, steps, clock) <==> Orderly(s.leases, steps, clock)
    decreases |steps|
  {
    forall rest | Orderly(s.leases, rest, clock) ensures Exclusive(Run(s, rest).grants) {
      PartitionsAreExclusive(s, rest, clock);
    }
    if steps != [] {
      SafeExactly(s, steps[0], clock);
      if NeverShortens(s.leases, steps[0]) {
        NextIsExclusive(s, steps[0], clock);
        NextIsBacked(s, steps[0], clock);
        NextIsAnchored(s, steps[0]);
        AlwaysSafeExactly(Next(s, steps[0]), steps[1..], steps[0].now);
      } else {
        assert !AlwaysSafe(Next(s, steps[0]), steps[1..], steps[0].now);
      }
    }
  }

  // With a monotone clock, a run stays exclusive under every orderly continuation of every
  // prefix exactly when no holder shortens its own lease in it.
  lemma {:induction false} ExclusiveExactly(steps: seq<Step>, clock: Time)
    requires Monotone(steps, clock)
    ensures AlwaysSafe(INIT, steps, clock) <==> Orderly(INIT.leases, steps, clock)
  {
    AlwaysSafeExactly(INIT, steps, clock);
  }

  // ----- what a graceful shutdown leaves behind

  // One worker's view: the leases, as they are and as the snapshot of its next acquire shows
  // them, and the list it remembers for its release.
  datatype WorkerState = WorkerState(leases: Leases, snapshot: Leases, remembered: set<Uuid>, acquired: bool)

  datatype WorkerStep = LookMine | AcquireMine(now: Time, until: Time) | ReleaseMine | Others(step: Step)

  // A fixed window for this worker. Its acquire may take its snapshot at any point after its
  // last one and write at any later point.
  function NextWorker(s: WorkerState, step: WorkerStep, me: Uuid, window: set<Uuid>, buckets: Workspaces): WorkerState {
    match step
    case LookMine => s.(snapshot := s.leases)
    case AcquireMine(now, until) =>
      var taken := Acquired(s.leases, s.snapshot, window, me, now);
      var after := Upsert(s.leases, buckets, taken, me, now, until);
      WorkerState(after, after, if taken == {} then s.remembered else taken, true)
    case ReleaseMine =>
      s.(leases := if s.remembered == {} then s.leases else Released(s.leases, s.remembered, me), remembered := {})
    case Others(other) => s.(leases := Apply(s.leases, other))
  }

  function RunWorker(
    s: WorkerState, steps: seq<WorkerStep>, me: Uuid, window: set<Uuid>, buckets: Workspaces): WorkerState
    decreases |steps|
  {
    if steps == [] then s else RunWorker(NextWorker(s, steps[0], me, window, buckets), steps[1..], me, window, buckets)
  }

  // Only the worker itself writes rows of its own, so no snapshot misses one of them.
  ghost predicate SeesOwn(s: WorkerState, me: Uuid) { Owned(s.leases, me) <= Owned(s.snapshot, me) }

  ghost predicate Remembers(s: WorkerState, me: Uuid, window: set<Uuid>) {
    && Owned(s.leases, me) <= window && (s.acquired ==> Owned(s.leases, me) <= s.remembered)
    && SeesOwn(s, me)
  }

  lemma OthersKeepOwned(leases: Leases, step: Step, me: Uuid)
    requires step.owner != me
    ensures Owned(Apply(leases, step), me) <= Owned(leases, me)
  {
  }

  lemma AcquireOwnsExactly(
    leases: Leases, snapshot: Leases, buckets: Workspaces, window: set<Uuid>, me: Uuid, now: Time, until: Time)
    requires Owned(leases, me) <= Owned(snapshot, me)
    ensures var taken := Acquired(leases, snapshot, window, me, now);
      && Owned(Upsert(leases, buckets, taken, me, now, until), me) == Owned(leases, me) + taken
      && Owned(leases, me) * window <= taken <= window
  {
    forall id | id in Owned(leases, me) * window ensures id in Acquired(leases, snapshot, window, me, now) {
      assert id in Owned(snapshot, me);
    }
  }

  lemma ReleaseOwns(leases: Leases, ids: set<Uuid>, me: Uuid)
    ensures Owned(Released(leases, ids, me), me) == Owned(leases, me) - ids
    ensures forall id :: id in leases && leases[id].owner != me ==> id in Released(leases, ids, me)
  {
  }

  // It stays so, whatever window each acquire works on.
  lemma StepSeesOwn(s: WorkerState, step: WorkerStep, me: Uuid, window: set<Uuid>, buckets: Workspaces)
    requires SeesOwn(s, me) && (step.Others? ==> step.step.owner != me)
    ensures SeesOwn(NextWorker(s, step, me, window, buckets), me)
  {
    if step.Others? {
      OthersKeepOwned(s.leases, step.step, me);
    }
  }

  lemma StepRemembers(s: WorkerState, step: WorkerStep, me: Uuid, window: set<Uuid>, buckets: Workspaces)
    requires Remembers(s, me, window) && (step.Others? ==> step.step.owner != me)
    ensures Remembers(NextWorker(s, step, me, window, buckets), me, window)
  {
    StepSeesOwn(s, step, me, window, buckets);
    match step {
      case LookMine =>
      case AcquireMine(now, until) => AcquireOwnsExactly(s.leases, s.snapshot, buckets, window, me, now, until);
      case ReleaseMine => ReleaseOwns(s.leases, s.remembered, me);
      case Others(other) => OthersKeepOwned(s.leases, other, me);
    }
  }

  // As long as one worker runs under this id and its window stays the same, after the first
  // acquire the remembered list covers every row it owns, whatever the others do, between the
  // snapshots of its acquires and their writes too.
  lemma {:induction false} RememberedCoversOwned(
    s: WorkerState, steps: seq<WorkerStep>, me: Uuid, window: set<Uuid>, buckets: Workspaces)
    requires Remembers(s, me, window)
    requires forall i :: 0 <= i < |steps| && steps[i].Others? ==> steps[i].step.owner != me
    ensures Remembers(RunWorker(s, steps, me, window, buckets), me, window)
    decreases |steps|
  {
    if steps != [] {
      StepRemembers(s, steps[0], me, window, buckets);
      RememberedCoversOwned(NextWorker(s, steps[0], me, window, buckets), steps[1..], me, window, buckets);
    }
  }

  // So a release leaves none of its rows behind and takes no one else's.
  lemma {:induction false} ShutdownLeavesNothing(
    s: WorkerState, steps: seq<WorkerStep>, me: Uuid, window: set<Uuid>, buckets: Workspaces)
    requires Remembers(s, me, window)
    requires forall i :: 0 <= i < |steps| && steps[i].Others? ==> steps[i].step.owner != me
    requires RunWorker(s, steps, me, window, buckets).acquired
    ensures var before := RunWorker(s, steps, me, window, buckets);
      var after := NextWorker(before, ReleaseMine, me, window, buckets);
      && Owned(after.leases, me) == {}
      && forall id :: id in before.leases && before.leases[id].owner != me ==>
           id in after.leases && after.leases[id] == before.leases[id]
  {
    RememberedCoversOwned(s, steps, me, window, buckets);
    var before := RunWorker(s, steps, me, window, buckets);
    ReleaseOwns(before.leases, before.remembered, me);
  }

  // When the window moves, the rows an acquire and release leave behind are exactly the owned
  // ones outside the new window; or, if the acquire returned nothing, outside the old list.
  lemma MovedWindowLeaks(s: WorkerState, me: Uuid, window: set<Uuid>, buckets: Workspaces, now: Time, until: Time)
    requires SeesOwn(s, me)
    ensures var mid := NextWorker(s, AcquireMine(now, until), me, window, buckets);
      var after := NextWorker(mid, ReleaseMine, me, window, buckets);
      Owned(after.leases, me) ==
        Owned(s.leases, me) - (if Acquired(s.leases, s.snapshot, window, me, now) == {} then s.remembered else window)
  {
    AcquireOwnsExactly(s.leases, s.snapshot, buckets, window, me, now, until);
    var mid := NextWorker(s, AcquireMine(now, until), me, window, buckets);
    ReleaseOwns(mid.leases, mid.remembered, me);
  }
}
