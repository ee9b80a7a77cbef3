/** Shared request and response types of the backend (backend/src/types.ts). */
module Types {
  import opened Wrappers

  /** The two mutations a client may request; anything else is rejected before the store is touched. */
  datatype Action = Increment | Decrement

  /** A point in time, kept opaque: only equality and copying matter to the core. */
  type Timestamp = int

  /** What a read of the counter reports. `updatedAt` is absent when the stored item lacks it. */
  datatype Snapshot = Snapshot(value: int, version: int, updatedAt: Option<Timestamp>)

  /** The successful answer of a mutation: the counter as read back, and whether it was a replay. */
  datatype ApiResponse = ApiResponse(current: Snapshot, idempotent: bool)
}
