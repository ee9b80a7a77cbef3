# Bounded counter with idempotent mutations — Dafny model

This project models the mutation engine of a serverless counter service
(`backend/src/dynamo.ts`). One shared integer counter lives in a DynamoDB
table, together with a version and a last-update time. A second table, the
idempotency ledger, holds one record per request id. `getCurrent` reads the
counter and falls back to zeros when it is missing. `applyAction(action,
idemKey?)` submits one all-or-nothing transaction with two conditional writes:

- it inserts a ledger record for the id, only if no record has that id;
- it adds ±1 to the counter value and 1 to its version, only if the counter
  item exists and its value is strictly below `MAX_VALUE` (increment) or
  strictly above `MIN_VALUE` (decrement).

When the transaction fails, the call checks three cases in order:

1. a ledger record for the id means a replay, answered with
   `idempotent: true`;
2. a counter at its bound throws `MAX_REACHED` or `MIN_REACHED`;
3. anything else rethrows the original error.

Files:

- `wrappers.dfy`: `Option` and `Result`.
- `env.dfy`: the constants `MaxValue = 1_000_000_000`, `MinValue = 0` and
  `IdempotencyTtlSeconds = 60`, from `backend/src/env.ts`.
- `types.dfy`: the two-valued `Action` (from `backend/src/types.ts`), the
  snapshot a read reports and the success response.
- `dynamo.dfy`:
  - the tables as values (`Tables`);
  - the read (`GetCurrent`);
  - the transaction's conditions and writes (`CounterCheck`, `TxOutcome`,
    `Commit`);
  - the failure classification (`Classify`);
  - the meaning of one call (`ApplyStep`);
  - class `Store`, which holds the two tables as mutable fields. Its
    `TransactWrite` and `ApplyAction` methods perform the call step by step
    and are proved equal to `ApplyStep`.
- `dynamo_runs.dfy`: sequences of calls (`Run`) and the properties of the
  engine: bounds, version and value accounting, ledger immutability, at most
  one commit per id, replays, saturation, the missing counter item, expiry,
  and a worked scenario.

Modelling choices:

- The environment becomes explicit parameters of a `Request`:
  - the id `uuidv4()` would generate;
  - the ISO time of the call, as an opaque integer;
  - `Date.now()` in milliseconds;
  - the time a follow-up read would stamp on an absent counter;
  - how the store fails the call apart from its conditions (`Fault`).
- `Fault` has three cases:
  - `Healthy`: the store fails nothing.
  - `FailsUncommitted`: the transaction is rejected before anything is
    written (throttling, a conflicting transaction).
  - `FailsCommitted`: the transaction is applied, but the `try` block throws
    anyway. Either `doc.send` loses its acknowledgment, or the read-back at
    `dynamo.ts:81` fails.

  In the `FailsCommitted` case the `catch` block finds the record the call
  has just written. It therefore answers `idempotent: true` to the very call
  that moved the counter (`UnacknowledgedCommitIsReplay`). For this reason
  the accounting lemmas count applied transactions (`Step.committed`,
  `Trace.commits`) rather than non-replay answers. A non-replay answer
  implies a commit, but not the reverse.
- A thrown `MAX_REACHED`/`MIN_REACHED`/original error becomes `Err` of a
  `Result`. A return becomes `Ok`.
- In DynamoDB, a comparison with a missing attribute is false. So a counter
  item that lacks `value` fails the update condition, just like a missing item.
- A store failure is reported as a store fault even when a condition would
  also have failed. The classification never looks at the error, so only the
  rethrown value depends on this.
- The missing counter item. The `if_not_exists` defaults in the update suggest
  the item was meant to be created on the first successful mutation. The code
  does not do this: the update condition requires `attribute_exists(pk)`, so on
  tables without a counter item no transaction ever commits. The
  `if_not_exists(#v, :zero)` default is never used either, because the
  condition also requires the item to have a `value`. An increment reads back
  value 0 and rethrows the cancellation. A decrement reports `MIN_REACHED`.
  The model follows the code (`MissingCounter`). The worked scenario
  (`SeededScenario`) therefore starts from an item holding value 0 and version
  0. The `version` default is still reachable: an item with a `value` but no
  `version` gets version 1.

## Model

| member | source | states |
|---|---|---|
| `Dynamo.GetCurrent` | backend/src/dynamo.ts:20-29 | An absent counter item reads as value 0, version 0, stamped with the read time. A present item's missing `value`/`version` reads as 0, and its `updatedAt` is passed through. The read is a pure function of the tables, so it changes nothing. Under the bounds invariant the reported value lies in [MinValue, MaxValue]. |
| `Dynamo.ChooseId` | backend/src/dynamo.ts:33 | A present, non-empty key is the id. An absent or empty key is replaced by the generated id. |
| `Dynamo.ExpiresAt` | backend/src/dynamo.ts:34 | A new record expires 60 s after the whole second of `Date.now()`: `(e − 60)·1000 ≤ nowMillis < (e − 59)·1000`. |
| `Dynamo.Delta` | backend/src/dynamo.ts:36-37 | The delta is +1 exactly for an increment and −1 for a decrement. |
| `Dynamo.CounterCheck` | backend/src/dynamo.ts:39-41 | The check fails on an absent item or an item without `value`. Otherwise it holds iff value < MaxValue (increment) or value > MinValue (decrement). When it holds on an in-bounds counter, value + delta stays in [MinValue, MaxValue]. |
| `Dynamo.UpdatedItem` | backend/src/dynamo.ts:70 | After the `SET` clause, a read reports the old value (missing read as 0) + delta, the old version (missing read as 0) + 1, and `updatedAt` = the call's time. |
| `Dynamo.TxOutcome` | backend/src/dynamo.ts:56-80 | The `try` block succeeds iff all of these hold: the store does not fail, the id is absent from the ledger, and the counter check holds. Any store failure raises a store fault. Otherwise a condition failure reports which checks failed, and at least one did. |
| `Dynamo.Commit` | backend/src/dynamo.ts:56-77 | A commit adds exactly the new record to the ledger and leaves other records unchanged. It moves the value by the delta and the version by 1, and sets `updatedAt` to the call's time. |
| `Dynamo.Classify` | backend/src/dynamo.ts:82-103 | After the `try` block throws, checked in priority order: (1) a ledger record for the id gives the current snapshot with `idempotent: true`, whatever action the record holds; (2) otherwise MAX_REACHED iff increment and value ≥ MaxValue; (3) MIN_REACHED iff decrement and value ≤ MinValue. Both carry the current snapshot. Any other case rethrows the original error. |
| `Dynamo.ApplyStep` | backend/src/dynamo.ts:31-104 | The transaction is applied iff the store does not reject it beforehand, the id is new and the counter check holds. When applied, the tables change exactly as `Commit` says; otherwise they are unchanged. The answer is a non-replay iff the transaction was applied and the store did not fail, and it then carries the post-state snapshot. An applied transaction whose call still throws is answered as a replay with the post-state snapshot. A known id is always answered as a replay. The bounds invariant is preserved whatever the outcome. |
| `Dynamo.Expired` | backend/src/dynamo.ts:34 | The time-to-live sweep deletes the record iff its `expiresAt` lies before now. Every record it keeps is unchanged. |
| `Dynamo.Store.TransactWrite` | backend/src/dynamo.ts:56-80 | The in-place transaction returns `TxOutcome`. When `Commits` holds, both tables change as `Commit` says; otherwise neither changes. |
| `Dynamo.Store.ApplyAction` | backend/src/dynamo.ts:31-104 | The new tables and the outcome are exactly `ApplyStep` of the old tables. The bounds invariant is kept. A call with an absent or empty key is answered as a replay only when its own fresh id was just written and the store failed the call afterwards. |
| `Dynamo.Store.Expire` | backend/src/dynamo.ts:34 | The ledger becomes `Expired` of the old ledger, and the counter is unchanged. |
| `DynamoRuns.Run` | backend/src/dynamo.ts:39-41 | Over any sequence of calls there is one commit flag and one outcome per call. Every non-replay answer comes from an applied transaction. MinValue ≤ value ≤ MaxValue after the sequence if it held before. |
| `DynamoRuns.RunCounter` | backend/src/dynamo.ts:70 | Over any sequence of calls, version grows by exactly the number of applied transactions. Value moves by exactly the sum of their deltas. Calls whose transaction was not applied change neither. |
| `DynamoRuns.RunLedger` | backend/src/dynamo.ts:59-63 | Existing ledger records are never changed or removed by calls. The ledger gains exactly the ids of the applied transactions. |
| `DynamoRuns.RunLedgerSize` | backend/src/dynamo.ts:56-77 | The ledger grows by exactly one record per applied transaction, so every applied transaction's id is new. |
| `DynamoRuns.RunReplaysKnownKey` | backend/src/dynamo.ts:84-92 | Once an id is in the ledger, every later call with it applies nothing and is answered with `idempotent: true`. This holds whatever its action and however the store fails. |
| `DynamoRuns.RunAtMostOnce` | backend/src/dynamo.ts:56-77 | No two applied transactions in any sequence of calls carry the same id. |
| `DynamoRuns.CommitEffect` | backend/src/dynamo.ts:32-81 | With a healthy store, an applied call answers value + delta, version + 1, `updatedAt` = the call's time, with `idempotent: false`. The ledger gains `{action, createdAt = now, expiresAt = ⌊Date.now()/1000⌋ + 60}`. |
| `DynamoRuns.UnacknowledgedCommitIsReplay` | backend/src/dynamo.ts:79-92 | An applied transaction whose call throws afterwards still moves the value by the delta. The call is answered `idempotent: true` with the post-state snapshot. |
| `DynamoRuns.ReplayIgnoresAction` | backend/src/dynamo.ts:84-92 | A known id whose stored record holds the other action is still a replay: nothing is applied, the tables are unchanged and the answer is the current snapshot. |
| `DynamoRuns.SaturatedIncrement` | backend/src/dynamo.ts:94-97 | With a new id, an increment with value ≥ MaxValue throws MAX_REACHED with the current snapshot and changes nothing. |
| `DynamoRuns.SaturatedDecrement` | backend/src/dynamo.ts:98-100 | With a new id, a decrement with value ≤ MinValue throws MIN_REACHED with the current snapshot and changes nothing. |
| `DynamoRuns.MissingCounter` | backend/src/dynamo.ts:39-102 | With no counter item and a new id, an increment rethrows the cancellation (the counter check failed) or the store fault. A decrement throws MIN_REACHED with snapshot 0/0. The tables are unchanged in both cases. |
| `DynamoRuns.FreshIdNeverReplay` | backend/src/dynamo.ts:33 | An absent or empty key is replaced by a fresh generated id, so the call is never a replay of an earlier call. It is answered `idempotent: true` only when its own transaction was applied and the store then failed the call. |
| `DynamoRuns.ExpiryReopensKey` | backend/src/dynamo.ts:34 | The at-most-once guarantee lasts only while the record lives. A call with a known id is a replay. Once the sweep has deleted that expired record, the same call commits. |
| `DynamoRuns.SeededScenario` | backend/src/dynamo.ts:79-92 | From a counter at 0/0 with a healthy store, three calls: increment "a" gives 1/1; increment "a" again gives a replay of 1/1; increment without a key gives 2/2. |

## Left out

- The AWS SDK client, and the `GetCommand`/`TransactWriteCommand` request
  format. This includes the condition and update expression strings and the
  `exprValues` dictionary built in place. Only their meaning is modelled,
  through `CounterCheck`, `TxOutcome` and `Commit`.
- Concurrency between invocations, and the gap between commit and the
  follow-up reads. Each transaction is one atomic step, and each re-read sees
  the tables the transaction left.
- Failures of the reads inside the `catch` block (the ledger lookup and
  `getCurrent` at `dynamo.ts:84-94`). A failure of the transaction, or of the
  read-back at `dynamo.ts:81`, is modelled by `Fault`.
- `uuidv4`, `new Date().toISOString()` and `Date.now()`. They become
  parameters. Generated ids are assumed absent from the ledger, and times are
  opaque integers.
- The `IDEMPOTENCY_TTL_SECONDS` environment override. The model uses its
  default of 60; a non-numeric override is not modelled.
- Time-driven TTL deletion by the store. It is reduced to the explicit
  `Expire` step.
- `console.error` logging.
- The HTTP handler (routing, JSON parsing, CORS, status codes). Its one rule
  for the core, that the action is increment or decrement, is the `Action`
  datatype.
- The frontend (polling, animation, fetch wrapper, React components).
- Non-integer or non-numeric `value`/`version` attributes. The model keeps
  them as optional integers.
