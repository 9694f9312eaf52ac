// crates/dandori-store/src/repositories/partition.rs and the workspace scan of
// crates/dandori-store/src/migration_sql.rs: leases of whole workspaces to workers.
module Partition {
  import opened Base
  import opened Window

  const MAX_BUCKET: int := 1023

  datatype ShardBucketRange = ShardBucketRange(min: int, max: int)

  function NewRange(min: int, max: int): (r: Result<ShardBucketRange, StoreError>)
    ensures r.Success? <==> 0 <= min <= max <= 1023
    ensures r.Success? ==> r.value == ShardBucketRange(min, max)
  {
    if !(0 <= min <= MAX_BUCKET) || !(0 <= max <= MAX_BUCKET) then Failure(InvalidInput)
    else if min > max then Failure(InvalidInput)
    else Success(ShardBucketRange(min, max))
  }

  datatype PartitionLease = PartitionLease(bucket: int, owner: Uuid, leasedAt: Time, leasedUntil: Time, updatedAt: Time)

  type Leases = map<Uuid, PartitionLease>

  // Every workspace with its shard bucket.
  type Workspaces = map<Uuid, int>

  function InRange(workspaces: Workspaces, range: ShardBucketRange): Keys {
    map w | w in workspaces && range.min <= workspaces[w] <= range.max :: workspaces[w]
  }

  // The limited scan runs first, whoever holds the workspaces it lists.
  function ListWindow(workspaces: Workspaces, range: ShardBucketRange, maxRows: nat): set<Uuid> {
    FirstN(InRange(workspaces, range), maxRows)
  }

  // i32::try_from(limit.min(i32::MAX)).unwrap_or(i32::MAX)
  function ScanLimit(limit: int): (r: int)
    ensures r == if -0x8000_0000 <= limit <= 0x7FFF_FFFF then limit else 0x7FFF_FFFF
  {
    var capped := if limit < I32_MAX then limit else I32_MAX;
    if capped < I32_MIN then I32_MAX else capped
  }

  predicate HeldByOther(leases: Leases, id: Uuid, owner: Uuid, now: Time) {
    id in leases && leases[id].leasedUntil > now && leases[id].owner != owner
  }

  // The conflict guard of the upsert.
  predicate Takeable(leases: Leases, id: Uuid, owner: Uuid, now: Time) {
    id !in leases || leases[id].leasedUntil <= now || leases[id].owner == owner
  }

  function Taken(leases: Leases, candidates: set<Uuid>, owner: Uuid, now: Time): set<Uuid> {
    set id | id in candidates && Takeable(leases, id, owner, now)
  }

  // What an acquire takes: the candidates its snapshot shows, as the guard finds them now.
  function Acquired(leases: Leases, snapshot: Leases, window: set<Uuid>, owner: Uuid, now: Time): set<Uuid> {
    var candidates := set id | id in window && !HeldByOther(snapshot, id, owner, now);
    Taken(leases, candidates, owner, now)
  }

  function Upsert(leases: Leases, buckets: Workspaces, taken: set<Uuid>, owner: Uuid, now: Time, until: Time): Leases {
    leases + map id | id in taken ::
      PartitionLease(if id in buckets then buckets[id] else 0, owner, now, until, now)
  }

  function Renewable(leases: Leases, ids: set<Uuid>, owner: Uuid, now: Time): set<Uuid> {
    set id | id in ids && id in leases && leases[id].owner == owner && leases[id].leasedUntil > now
  }

  function Renewed(leases: Leases, renewed: set<Uuid>, now: Time, until: Time): Leases {
    map id | id in leases ::
      if id in renewed then leases[id].(leasedUntil := until, updatedAt := now) else leases[id]
  }

  function Owned(leases: Leases, owner: Uuid): set<Uuid> {
    set id | id in leases && leases[id].owner == owner
  }

  function Released(leases: Leases, ids: set<Uuid>, owner: Uuid): Leases {
    map id | id in leases && !(id in ids && leases[id].owner == owner) :: leases[id]
  }

  // The workspaces of these buckets, and those of them a scan by (bucket, id) lists before one.
  ghost function Between(workspaces: Workspaces, min: int, max: int): set<Uuid> {
    set w | w in workspaces && min <= workspaces[w] && workspaces[w] <= max
  }

  ghost function Preceding(workspaces: Workspaces, min: int, max: int, id: Uuid): set<Uuid>
    requires id in workspaces
  {
    set w | w in workspaces && min <= workspaces[w] && workspaces[w] <= max
      && (workspaces[w] < workspaces[id] || (workspaces[w] == workspaces[id] && w < id))
  }

  // The scan lists exactly the workspaces of the buckets with fewer than the limit before them.
  lemma WindowByBuckets(workspaces: Workspaces, range: ShardBucketRange, limit: nat)
    ensures InRange(workspaces, range).Keys == Between(workspaces, range.min, range.max)
    ensures forall w :: w in ListWindow(workspaces, range, limit) <==>
      && w in workspaces && range.min <= workspaces[w] <= range.max
      && |Preceding(workspaces, range.min, range.max, w)| < limit
  {
    var keys := InRange(workspaces, range);
    assert keys.Keys == Between(workspaces, range.min, range.max);
    forall w | w in keys ensures AheadOf(keys, w) == Preceding(workspaces, range.min, range.max, w) {
    }
  }

  // What an acquire takes: of the first workspaces of the buckets, those its snapshot shows as
  // free of live leases of others, as far as they still are.
  ghost predicate TakesFree(
    workspaces: Workspaces, range: ShardBucketRange, limit: nat, leases: Leases, snapshot: Leases,
    owner: Uuid, now: Time, taken: set<Uuid>)
  {
    forall id {:trigger Preceding(workspaces, range.min, range.max, id)} :: id in taken <==>
      && id in workspaces && range.min <= workspaces[id] <= range.max
      && |Preceding(workspaces, range.min, range.max, id)| < limit
      && !(id in snapshot && now < snapshot[id].leasedUntil && snapshot[id].owner != owner)
      && !(id in leases && now < leases[id].leasedUntil && leases[id].owner != owner)
  }

  // It is leased to the caller, and no other row changes.
  ghost predicate Takes(
    workspaces: Workspaces, before: Leases, after: Leases, taken: set<Uuid>, owner: Uuid, now: Time, until: Time)
  {
    && after.Keys == before.Keys + taken
    && (forall id :: id in taken ==>
          id in workspaces && after[id] == PartitionLease(workspaces[id], owner, now, until, now))
    && (forall id :: id in before && id !in taken ==> after[id] == before[id])
  }

  lemma AcquiredIsFree(
    workspaces: Workspaces, range: ShardBucketRange, limit: nat, leases: Leases, snapshot: Leases,
    owner: Uuid, now: Time)
    ensures TakesFree(workspaces, range, limit, leases, snapshot, owner, now,
                      Acquired(leases, snapshot, ListWindow(workspaces, range, limit), owner, now))
  {
    WindowByBuckets(workspaces, range, limit);
  }

  lemma AcquireCovers(
    workspaces: Workspaces, range: ShardBucketRange, limit: nat, leases: Leases, owner: Uuid, now: Time, until: Time)
    requires now < until
    ensures var taken := Acquired(leases, leases, ListWindow(workspaces, range, limit), owner, now);
      var after := Upsert(leases, workspaces, taken, owner, now, until);
      |Between(workspaces, range.min, range.max)| <= limit ==>
      forall id :: id in workspaces && range.min <= workspaces[id] <= range.max ==>
        id in after && now < after[id].leasedUntil
  {
    WholeRange(workspaces, range, limit);
  }

  class PartitionTable {
    var workspaces: Workspaces
    var leases: Leases

    constructor (workspaces: Workspaces)
      ensures this.workspaces == workspaces && leases == map[]
    {
      this.workspaces := workspaces;
      leases := map[];
    }

    // The candidates are chosen from the leases as the statement's snapshot shows them; the
    // guard is evaluated on the current rows.
    method AcquirePartitions(
      owner: Uuid, now: Time, until: Time, limit: int, range: ShardBucketRange, snapshot: Leases)
      returns (r: Result<set<Uuid>, StoreError>)
      modifies this`leases
      ensures r.Success? <==> ScanLimit(limit) >= 0
      ensures r.Failure? ==> leases == old(leases)
      // Whatever the snapshot: what is taken is leased to the caller, and no other row changes.
      ensures r.Success? ==>
        && r.value == Acquired(old(leases), snapshot, ListWindow(workspaces, range, ScanLimit(limit)), owner, now)
        && TakesFree(workspaces, range, ScanLimit(limit), old(leases), snapshot, owner, now, r.value)
        && leases == Upsert(old(leases), workspaces, r.value, owner, now, until)
        && Takes(workspaces, old(leases), leases, r.value, owner, now, until)
      // With a current snapshot, a scan with room for every workspace of the buckets leaves none
      // without a live lease.
      ensures r.Success? ==>
        forall id {:trigger Preceding(workspaces, range.min, range.max, id)} ::
          && snapshot == old(leases) && now < until
          && |Between(workspaces, range.min, range.max)| <= ScanLimit(limit)
          && id in workspaces && range.min <= workspaces[id] <= range.max ==>
            id in leases && now < leases[id].leasedUntil
    {
      var scanLimit := ScanLimit(limit);
      if scanLimit < 0 {
        return Failure(Database);
      }
      var window := ListWindow(workspaces, range, scanLimit);
      var taken := Acquired(leases, snapshot, window, owner, now);
      AcquiredIsFree(workspaces, range, scanLimit, leases, snapshot, owner, now);
      if snapshot == leases && now < until {
        AcquireCovers(workspaces, range, scanLimit, leases, owner, now, until);
      }
      leases := Upsert(leases, workspaces, taken, owner, now, until);
      return Success(taken);
    }

    method RenewPartitions(owner: Uuid, ids: set<Uuid>, now: Time, until: Time) returns (renewed: set<Uuid>)
      modifies this`leases
      ensures leases.Keys == old(leases.Keys)
      ensures forall id :: id in renewed <==>
        id in ids && id in old(leases) && old(leases)[id].owner == owner && now < old(leases)[id].leasedUntil
      ensures forall id :: id in renewed ==>
        leases[id] == PartitionLease(old(leases)[id].bucket, owner, old(leases)[id].leasedAt, until, now)
      ensures forall id :: id in leases && id !in renewed ==> leases[id] == old(leases)[id]
    {
      if ids == {} {
        return {};
      }
      renewed := Renewable(leases, ids, owner, now);
      leases := Renewed(leases, renewed, now, until);
    }

    method ReleasePartitions(owner: Uuid, ids: set<Uuid>) returns (deleted: nat)
      modifies this`leases
      ensures deleted == |Owned(old(leases), owner) * ids|
      ensures leases == Released(old(leases), ids, owner)
      ensures Owned(leases, owner) == Owned(old(leases), owner) - ids
      ensures forall id :: id in leases <==> id in old(leases) && !(id in ids && old(leases)[id].owner == owner)
      ensures forall id :: id in leases ==> id in old(leases) && leases[id] == old(leases)[id]
    {
      if ids == {} {
        assert Owned(leases, owner) * ids == {};
        assert leases == Released(leases, ids, owner);
        return 0;
      }
      var gone := set id | id in leases && id in ids && leases[id].owner == owner;
      assert gone == Owned(leases, owner) * ids;
      deleted := |gone|;
      leases := Released(leases, ids, owner);
    }
  }

  // A scan with room for every row lists every row.
  lemma WholeRange(workspaces: Workspaces, range: ShardBucketRange, limit: nat)
    ensures ListWindow(workspaces, range, limit) <= Between(workspaces, range.min, range.max)
    ensures |Between(workspaces, range.min, range.max)| <= limit ==>
      ListWindow(workspaces, range, limit) == Between(workspaces, range.min, range.max)
  {
    var keys := InRange(workspaces, range);
    WindowByBuckets(workspaces, range, limit);
    FirstNIsLimitedScan(keys, limit);
    SubsetSize(FirstN(keys, limit), keys.Keys);
  }
}
