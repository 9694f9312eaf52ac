// Types shared by every part of the model.
module Base {

  // Identifiers are compared and ordered, never inspected.
  type Uuid = nat

  // Instants and durations, in microseconds.
  type Time = int

  const MILLISECOND: Time := 1_000
  const SECOND: Time := 1_000 * MILLISECOND
  const DAY: Time := 86_400 * SECOND

  const I32_MAX: int := 0x7FFF_FFFF
  const I32_MIN: int := -0x8000_0000

  // What a column of type text holds.
  predicate TextColumn(text: string) { '\0' !in text }

  datatype Option<+T> = None | Some(value: T)

  datatype Result<+T, +E> = Success(value: T) | Failure(error: E)

  // The caller of a store operation: its tenant and its own id.
  datatype Auth = Auth(workspace: Uuid, actor: Uuid)

  // crates/dandori-store/src/pg_store.rs, the variants the modelled operations return.
  // Database stands for every error raised by the database itself.
  datatype StoreError =
    | Database
    | Serde
    | ProjectNotFound
    | MilestoneNotFound
    | MilestoneProjectMismatch
    | IdempotencyConflict
    | InvalidState(text: string)
    | InvalidPriority(text: string)
    | OutboxUpdateNotSingleRow(rowsAffected: int)
    | OutboxLeaseMissing
    | OutboxNotLeased
    | OutboxLeaseExpired(leasedUntil: Time, now: Time)
    | OutboxLeaseOwnerMismatch(expectedOwner: Uuid, actualOwner: Uuid)
    | OutboxLeaseTokenMismatch(expectedToken: Uuid, actualToken: Uuid)
    | InvalidInput
}
