/** Configuration constants of the backend (backend/src/env.ts). */
module Env {

  /** Largest value the counter may hold. */
  const MaxValue: int := 1_000_000_000

  /** Smallest value the counter may hold. */
  const MinValue: int := 0

  /** Lifetime of an idempotency record, in seconds (the default when the environment sets none). */
  const IdempotencyTtlSeconds: int := 60
}
