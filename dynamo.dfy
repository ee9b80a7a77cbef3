/**
 * The counter mutation engine of backend/src/dynamo.ts.
 *
 * The two DynamoDB tables are modelled as values: the counter table holds at
 * most one item (key "COUNTER"), the idempotency table is a map from request
 * id to record. `GetCurrent` is the read with defaults; `ApplyStep` is the
 * meaning of one `applyAction` call (conditional two-item transaction, then
 * the classification of a failed transaction); class `Store` performs the
 * same call step by step on mutable tables and is proved equal to it.
 */
module Dynamo {
  import opened Wrappers
  import opened Env
  import opened Types

  /** The counter item as stored; any of its attributes may be missing. */
  datatype CounterItem = CounterItem(value: Option<int>, version: Option<int>, updatedAt: Option<Timestamp>)

  /** One record of the idempotency table (the key is the map key). */
  datatype IdemRecord = IdemRecord(action: Action, createdAt: Timestamp, expiresAt: int)

  type Ledger = map<string, IdemRecord>

  /** Contents of both tables. */
  datatype Tables = Tables(counter: Option<CounterItem>, ledger: Ledger)

  /**
   * Whether the store, independently of the transaction's conditions, makes
   * the `try` block throw: `Healthy` never does; `FailsUncommitted` throws
   * before anything is written (throttling, a conflicting transaction);
   * `FailsCommitted` throws although the transaction was applied (the
   * acknowledgment is lost, or the read-back after the commit fails).
   */
  datatype Fault = Healthy | FailsUncommitted | FailsCommitted

  /**
   * The error the `try` block throws: either the store's report of which
   * condition checks failed, or a failure not caused by a condition.
   */
  datatype TxError = ConditionFailed(ledgerCheckFailed: bool, counterCheckFailed: bool) | StoreFault

  /** What the `try` block observes: success, or the error it caught. */
  datatype TxResult = Acknowledged | Raised(error: TxError)

  /** What `applyAction` throws. */
  datatype Failure = MaxReached(current: Snapshot) | MinReached(current: Snapshot) | Rethrown(error: TxError)

  /** What `applyAction` returns or throws. */
  type Outcome = Result<ApiResponse, Failure>

  /**
   * One call of `applyAction` with everything it takes from its environment:
   * `generatedId` is the id `uuidv4` would produce, `now` the ISO time of the
   * call, `nowMillis` the value of `Date.now()`, `readNow` the time a
   * follow-up read would use for an absent counter, `fault` how the store
   * fails the call apart from its conditions.
   */
  datatype Request = Request(
    action: Action, idemKey: Option<string>, generatedId: string,
    now: Timestamp, nowMillis: nat, readNow: Timestamp, fault: Fault)

  /** The tables after a call, whether its transaction was applied, and what the call produced. */
  datatype Step = Step(tables: Tables, committed: bool, outcome: Outcome)

  /** An attribute read with `?? 0` or written with `if_not_exists(_, :zero)`. */
  function OrZero(field: Option<int>): int {
    match field
    case None => 0
    case Some(n) => n
  }

  /** The counter value as a read reports it. */
  function StoredValue(counter: Option<CounterItem>): int {
    match counter
    case None => 0
    case Some(item) => OrZero(item.value)
  }

  /** The counter version as a read reports it. */
  function StoredVersion(counter: Option<CounterItem>): int {
    match counter
    case None => 0
    case Some(item) => OrZero(item.version)
  }

  /** The bounds invariant: a stored value lies within [MinValue, MaxValue]. */
  predicate InBounds(counter: Option<CounterItem>) {
    match counter
    case Some(CounterItem(Some(v), _, _)) => MinValue <= v <= MaxValue
    case _ => true
  }

  /**
   * `getCurrent`: a consistent read of the counter item. An absent item reads
   * as value 0 and version 0 stamped with `now`; a missing attribute of a
   * present item reads as 0. It returns a value and changes nothing.
   */
  function GetCurrent(counter: Option<CounterItem>, now: Timestamp): (r: Snapshot)
    ensures counter.None? ==> r == Snapshot(0, 0, Some(now))
    ensures counter.Some? ==> r.updatedAt == counter.value.updatedAt
    ensures counter.Some? && counter.value.value.None? ==> r.value == 0
    ensures counter.Some? && counter.value.version.None? ==> r.version == 0
    ensures r.value == StoredValue(counter) && r.version == StoredVersion(counter)
    ensures InBounds(counter) ==> MinValue <= r.value <= MaxValue
  {
    match counter
    case None => Snapshot(0, 0, Some(now))
    case Some(item) => Snapshot(OrZero(item.value), OrZero(item.version), item.updatedAt)
  }

  /** The change an action makes to the value. */
  function Delta(action: Action): (d: int)
    ensures d == 1 || d == -1
    ensures d > 0 <==> action == Increment
  {
    if action == Increment then 1 else -1
  }

  /** The request id: the caller's key unless it is absent or empty, else the generated one. */
  function ChooseId(idemKey: Option<string>, generatedId: string): (id: string)
    ensures idemKey.Some? && idemKey.value != "" ==> id == idemKey.value
    ensures idemKey.None? || idemKey.value == "" ==> id == generatedId
  {
    if idemKey.Some? && idemKey.value != "" then idemKey.value else generatedId
  }

  function Id(req: Request): string {
    ChooseId(req.idemKey, req.generatedId)
  }

  /** Expiry of a new idempotency record: whole seconds of `Date.now()` plus the lifetime. */
  function ExpiresAt(nowMillis: nat): (e: int)
    ensures (e - IdempotencyTtlSeconds) * 1000 <= nowMillis < (e - IdempotencyTtlSeconds + 1) * 1000
  {
    nowMillis / 1000 + IdempotencyTtlSeconds
  }

  function NewRecord(req: Request): IdemRecord {
    IdemRecord(req.action, req.now, ExpiresAt(req.nowMillis))
  }

  /**
   * The counter update's condition, `attribute_exists(pk) AND #v < :max` or
   * `... #v > :min`: the item exists and its value is strictly inside the
   * bound for the direction. A comparison against a missing `value`
   * attribute does not hold.
   */
  function CounterCheck(counter: Option<CounterItem>, action: Action): (ok: bool)
    ensures counter.None? || counter.value.value.None? ==> !ok
    ensures counter.Some? && counter.value.value.Some? ==>
      (ok <==> if action == Increment then counter.value.value.value < MaxValue
                                      else counter.value.value.value > MinValue)
    ensures ok && InBounds(counter) ==> MinValue <= StoredValue(counter) + Delta(action) <= MaxValue
  {
    match counter
    case Some(CounterItem(Some(v), _, _)) =>
      if action == Increment then v < MaxValue else v > MinValue
    case _ => false
  }

  /** The counter update's `SET` clause applied to an existing item. */
  function UpdatedItem(item: CounterItem, action: Action, now: Timestamp): (u: CounterItem)
    ensures forall readNow ::
      GetCurrent(Some(u), readNow) == Snapshot(StoredValue(Some(item)) + Delta(action), StoredVersion(Some(item)) + 1, Some(now))
  {
    CounterItem(Some(OrZero(item.value) + Delta(action)), Some(OrZero(item.version) + 1), Some(now))
  }

  /**
   * Whether the two-item transaction is applied: the store does not fail it
   * beforehand, the id is not yet in the ledger (the
   * `attribute_not_exists(id)` condition) and the counter check holds.
   */
  predicate Commits(t: Tables, id: string, action: Action, fault: Fault) {
    fault != FailsUncommitted && id !in t.ledger && CounterCheck(t.counter, action)
  }

  /**
   * What the `try` block observes: success exactly when the transaction is
   * applied and the store does not fail the call; a store failure otherwise
   * when there is one; else the report of which conditions failed.
   */
  function TxOutcome(t: Tables, id: string, action: Action, fault: Fault): (r: TxResult)
    ensures r.Acknowledged? <==> fault == Healthy && id !in t.ledger && CounterCheck(t.counter, action)
    ensures r.Acknowledged? ==> Commits(t, id, action, fault)
    ensures r == Raised(StoreFault) <==> fault != Healthy
    ensures r.Raised? && r.error.ConditionFailed? ==>
      r.error.ledgerCheckFailed == (id in t.ledger) &&
      r.error.counterCheckFailed == !CounterCheck(t.counter, action) &&
      (r.error.ledgerCheckFailed || r.error.counterCheckFailed)
  {
    if fault != Healthy then Raised(StoreFault)
    else if id !in t.ledger && CounterCheck(t.counter, action) then Acknowledged
    else Raised(ConditionFailed(id in t.ledger, !CounterCheck(t.counter, action)))
  }

  /** Both writes of a committed transaction, applied together. */
  function Commit(t: Tables, id: string, record: IdemRecord, action: Action, now: Timestamp): (u: Tables)
    requires t.counter.Some?
    ensures u.ledger.Keys == t.ledger.Keys + {id} && u.ledger[id] == record
    ensures forall k :: k in t.ledger && k != id ==> k in u.ledger && u.ledger[k] == t.ledger[k]
    ensures StoredValue(u.counter) == StoredValue(t.counter) + Delta(action)
    ensures StoredVersion(u.counter) == StoredVersion(t.counter) + 1
    ensures u.counter.Some? && u.counter.value.updatedAt == Some(now)
  {
    Tables(Some(UpdatedItem(t.counter.value, action, now)), t.ledger[id := record])
  }

  /**
   * The `catch` block, run on the tables as they are after the transaction:
   * a record for the id means a replay (answered with the current counter,
   * whatever action the record holds); otherwise a counter at the bound for
   * the direction is reported as MAX_REACHED or MIN_REACHED; anything else
   * rethrows the error.
   */
  function Classify(t: Tables, id: string, action: Action, e: TxError, readNow: Timestamp): (r: Outcome)
    ensures id in t.ledger ==> r == Ok(ApiResponse(GetCurrent(t.counter, readNow), true))
    ensures r.Ok? ==> id in t.ledger && r.value.idempotent
    ensures r.Err? && r.error.MaxReached? <==>
      id !in t.ledger && action == Increment && StoredValue(t.counter) >= MaxValue
    ensures r.Err? && r.error.MinReached? <==>
      id !in t.ledger && action == Decrement && StoredValue(t.counter) <= MinValue
    ensures r.Err? && !r.error.Rethrown? ==> r.error.current == GetCurrent(t.counter, readNow)
    ensures r.Err? && r.error.Rethrown? ==> r.error.error == e
  {
    if id in t.ledger then
      Ok(ApiResponse(GetCurrent(t.counter, readNow), true))
    else
      var cur := GetCurrent(t.counter, readNow);
      if action == Increment && cur.value >= MaxValue then Err(MaxReached(cur))
      else if action == Decrement && cur.value <= MinValue then Err(MinReached(cur))
      else Err(Rethrown(e))
  }

  /** A non-replay answer. */
  predicate IsApplied(o: Outcome) {
    o.Ok? && !o.value.idempotent
  }

  /**
   * `applyAction`: the effect of one call on the tables and its outcome.
   * The transaction is applied exactly when the store does not fail it
   * beforehand, the id is new and the counter check holds; it then adds one
   * ledger record and moves value by the delta and version by one, and
   * otherwise leaves both tables as they were. An applied transaction is
   * answered as a non-replay when the store reports success, and as a
   * replay when the store fails the call afterwards. It keeps the bounds.
   */
  function ApplyStep(t: Tables, req: Request): (s: Step)
    ensures s.committed <==> req.fault != FailsUncommitted && Id(req) !in t.ledger && CounterCheck(t.counter, req.action)
    ensures s.committed ==>
      t.counter.Some? && s.tables == Commit(t, Id(req), NewRecord(req), req.action, req.now)
    ensures !s.committed ==> s.tables == t
    ensures IsApplied(s.outcome) <==> s.committed && req.fault == Healthy
    ensures IsApplied(s.outcome) ==> s.outcome.value.current == GetCurrent(s.tables.counter, req.readNow)
    ensures s.committed && req.fault == FailsCommitted ==>
      s.outcome == Ok(ApiResponse(GetCurrent(s.tables.counter, req.readNow), true))
    ensures Id(req) in t.ledger ==> s.outcome == Ok(ApiResponse(GetCurrent(t.counter, req.readNow), true))
    ensures InBounds(t.counter) ==> InBounds(s.tables.counter)
  {
    var id := Id(req);
    var committed := Commits(t, id, req.action, req.fault);
    var u := if committed then Commit(t, id, NewRecord(req), req.action, req.now) else t;
    match TxOutcome(t, id, req.action, req.fault)
    case Acknowledged =>
      Step(u, committed, Ok(ApiResponse(GetCurrent(u.counter, req.readNow), false)))
    case Raised(e) =>
      Step(u, committed, Classify(u, id, req.action, e, req.readNow))
  }

  /** The store's time-to-live sweep of one record: deleted once its expiry lies in the past. */
  function Expired(ledger: Ledger, id: string, nowSeconds: int): (l: Ledger)
    ensures id in ledger && ledger[id].expiresAt < nowSeconds ==> l.Keys == ledger.Keys - {id}
    ensures !(id in ledger && ledger[id].expiresAt < nowSeconds) ==> l == ledger
    ensures forall k :: k in l ==> k in ledger && l[k] == ledger[k]
  {
    if id in ledger && ledger[id].expiresAt < nowSeconds then ledger - {id} else ledger
  }

  /**
   * The two tables as mutable state. Each method changes them only through
   * the transaction, as the store does; reads are the pure `GetCurrent`.
   */
  class Store {
    var counter: Option<CounterItem>
    var ledger: Ledger

    /** Tables that already hold `counter` and `ledger`. */
    constructor (counter: Option<CounterItem>, ledger: Ledger)
      ensures this.counter == counter && this.ledger == ledger
    {
      this.counter := counter;
      this.ledger := ledger;
    }

    function State(): Tables
      reads this
    {
      Tables(counter, ledger)
    }

    /** The store's atomic two-item transaction: both writes happen or neither does. */
    method TransactWrite(id: string, record: IdemRecord, action: Action, now: Timestamp, fault: Fault)
      returns (tx: TxResult)
      modifies this
      ensures tx == TxOutcome(old(State()), id, action, fault)
      ensures State() == if Commits(old(State()), id, action, fault)
                         then Commit(old(State()), id, record, action, now) else old(State())
    {
      if fault == FailsUncommitted {
        return Raised(StoreFault);
      }
      var ledgerOk := id !in ledger;
      var counterOk := CounterCheck(counter, action);
      if ledgerOk && counterOk {
        ledger := ledger[id := record];
        counter := Some(UpdatedItem(counter.value, action, now));
        tx := if fault == FailsCommitted then Raised(StoreFault) else Acknowledged;
      } else {
        tx := if fault == FailsCommitted then Raised(StoreFault)
              else Raised(ConditionFailed(!ledgerOk, !counterOk));
      }
    }

    /**
     * `applyAction`. `generatedId` stands for a fresh `uuidv4()`, which no
     * ledger record carries.
     */
    method ApplyAction(
      action: Action, idemKey: Option<string>, generatedId: string,
      now: Timestamp, nowMillis: nat, readNow: Timestamp, fault: Fault)
      returns (r: Outcome)
      requires generatedId !in ledger
      modifies this
      ensures var s := ApplyStep(old(State()), Request(action, idemKey, generatedId, now, nowMillis, readNow, fault));
        State() == s.tables && r == s.outcome
      ensures InBounds(old(counter)) ==> InBounds(counter)
      ensures (idemKey.None? || idemKey == Some("")) && r.Ok? && r.value.idempotent ==>
        fault == FailsCommitted && generatedId in ledger && generatedId !in old(ledger)
    {
      var id := ChooseId(idemKey, generatedId);
      var expiresAt := nowMillis / 1000 + IdempotencyTtlSeconds;
      var tx := TransactWrite(id, IdemRecord(action, now, expiresAt), action, now, fault);
      match tx
      case Acknowledged =>
        r := Ok(ApiResponse(GetCurrent(counter, readNow), false));
      case Raised(e) =>
        if id in ledger {
          r := Ok(ApiResponse(GetCurrent(counter, readNow), true));
        } else {
          var cur := GetCurrent(counter, readNow);
          if action == Increment && cur.value >= MaxValue {
            r := Err(MaxReached(cur));
          } else if action == Decrement && cur.value <= MinValue {
            r := Err(MinReached(cur));
          } else {
            r := Err(Rethrown(e));
          }
        }
    }

    /** The store's time-to-live sweep for one record; the counter is untouched. */
    method Expire(id: string, nowSeconds: int)
      modifies this
      ensures counter == old(counter)
      ensures ledger == Expired(old(ledger), id, nowSeconds)
    {
      if id in ledger && ledger[id].expiresAt < nowSeconds {
        ledger := ledger - {id};
      }
    }
  }
}
