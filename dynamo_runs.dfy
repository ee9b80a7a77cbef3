/**
 * Properties of `applyAction` (backend/src/dynamo.ts), one call at a time and
 * over any sequence of calls against the same tables.
 */
module DynamoRuns {
  import opened Wrappers
  import opened Env
  import opened Types
  import opened Dynamo

  /** The tables after a sequence of calls, whether each call's transaction was applied, and each outcome. */
  datatype Trace = Trace(tables: Tables, commits: seq<bool>, outcomes: seq<Outcome>)

  /** Calls applied one after another, each seeing the tables the previous one left. */
  function Run(t: Tables, reqs: seq<Request>): (r: Trace)
    ensures |r.commits| == |reqs| && |r.outcomes| == |reqs|
    ensures forall i :: 0 <= i < |reqs| && IsApplied(r.outcomes[i]) ==> r.commits[i]
    ensures InBounds(t.counter) ==> InBounds(r.tables.counter)
    decreases |reqs|
  {
    if reqs == [] then Trace(t, [], [])
    else
      var s := ApplyStep(t, reqs[0]);
      var rest := Run(s.tables, reqs[1..]);
      Trace(rest.tables, [s.committed] + rest.commits, [s.outcome] + rest.outcomes)
  }

  /** How many transactions were applied. */
  function CommitCount(commits: seq<bool>): nat {
    if commits == [] then 0
    else (if commits[0] then 1 else 0) + CommitCount(commits[1..])
  }

  /** The sum of the deltas of the calls whose transaction was applied. */
  function NetDelta(reqs: seq<Request>, commits: seq<bool>): int
    requires |reqs| == |commits|
  {
    if reqs == [] then 0
    else (if commits[0] then Delta(reqs[0].action) else 0) + NetDelta(reqs[1..], commits[1..])
  }

  /** The ids of the calls whose transaction was applied. */
  function CommittedIds(reqs: seq<Request>, commits: seq<bool>): set<string>
    requires |reqs| == |commits|
  {
    if reqs == [] then {}
    else (if commits[0] then {Id(reqs[0])} else {}) + CommittedIds(reqs[1..], commits[1..])
  }

  /**
   * Version counts commits and value sums their deltas: over any sequence of
   * calls the version grows by exactly the number of applied transactions
   * and the value moves by exactly their deltas; calls whose transaction was
   * not applied change neither.
   */
  lemma {:induction false} RunCounter(t: Tables, reqs: seq<Request>)
    ensures StoredVersion(Run(t, reqs).tables.counter) == StoredVersion(t.counter) + CommitCount(Run(t, reqs).commits)
    ensures StoredValue(Run(t, reqs).tables.counter) == StoredValue(t.counter) + NetDelta(reqs, Run(t, reqs).commits)
    decreases |reqs|
  {
    if reqs != [] {
      var s := ApplyStep(t, reqs[0]);
      RunCounter(s.tables, reqs[1..]);
      var cs := Run(t, reqs).commits;
      assert cs[1..] == Run(s.tables, reqs[1..]).commits;
    }
  }

  /**
   * Ledger records are written once and never changed: every record present
   * before a sequence of calls is still there, unchanged, and the ledger
   * gains exactly the ids of the applied transactions.
   */
  lemma {:induction false} RunLedger(t: Tables, reqs: seq<Request>)
    ensures forall k :: k in t.ledger ==>
      k in Run(t, reqs).tables.ledger && Run(t, reqs).tables.ledger[k] == t.ledger[k]
    ensures Run(t, reqs).tables.ledger.Keys == t.ledger.Keys + CommittedIds(reqs, Run(t, reqs).commits)
    decreases |reqs|
  {
    if reqs != [] {
      var s := ApplyStep(t, reqs[0]);
      RunLedger(s.tables, reqs[1..]);
      var cs := Run(t, reqs).commits;
      assert cs[1..] == Run(s.tables, reqs[1..]).commits;
    }
  }

  /**
   * Once a key is in the ledger, every later call with that key is answered
   * as a replay (`idempotent: true`) and applies nothing, whatever its
   * action and however the store fails.
   */
  lemma {:induction false} RunReplaysKnownKey(t: Tables, reqs: seq<Request>, k: string)
    requires k in t.ledger
    ensures forall j :: 0 <= j < |reqs| && Id(reqs[j]) == k ==>
      !Run(t, reqs).commits[j] && Run(t, reqs).outcomes[j].Ok? && Run(t, reqs).outcomes[j].value.idempotent
    decreases |reqs|
  {
    if reqs != [] {
      var s := ApplyStep(t, reqs[0]);
      assert k in s.tables.ledger;
      RunReplaysKnownKey(s.tables, reqs[1..], k);
      var r := Run(t, reqs);
      var rest := Run(s.tables, reqs[1..]);
      forall j | 0 <= j < |reqs| && Id(reqs[j]) == k
        ensures !r.commits[j] && r.outcomes[j].Ok? && r.outcomes[j].value.idempotent
      {
        if j > 0 {
          assert r.commits[j] == rest.commits[j - 1];
          assert r.outcomes[j] == rest.outcomes[j - 1];
          assert reqs[j] == reqs[1..][j - 1];
        }
      }
    }
  }

  /**
   * At most once: in any sequence of calls, no two applied transactions
   * carry the same id, so each idempotency key is tied to at most one
   * counter delta (and, a fortiori, to at most one non-replay answer).
   */
  lemma {:induction false} RunAtMostOnce(t: Tables, reqs: seq<Request>)
    ensures forall i, j ::
      (0 <= i < j < |reqs| && Run(t, reqs).commits[i] && Run(t, reqs).commits[j])
      ==> Id(reqs[i]) != Id(reqs[j])
    decreases |reqs|
  {
    if reqs != [] {
      var s := ApplyStep(t, reqs[0]);
      var rest := Run(s.tables, reqs[1..]);
      var cs := Run(t, reqs).commits;
      assert cs[1..] == rest.commits;
      RunAtMostOnce(s.tables, reqs[1..]);
      if s.committed {
        RunReplaysKnownKey(s.tables, reqs[1..], Id(reqs[0]));
      }
      forall i, j | 0 <= i < j < |reqs| && cs[i] && cs[j]
        ensures Id(reqs[i]) != Id(reqs[j])
      {
        assert cs[j] == rest.commits[j - 1];
        assert reqs[j] == reqs[1..][j - 1];
        if i > 0 {
          assert cs[i] == rest.commits[i - 1];
          assert reqs[i] == reqs[1..][i - 1];
        }
      }
    }
  }

  /** Every applied transaction adds a new ledger key: the ledger grows by the number of commits. */
  lemma {:induction false} RunLedgerSize(t: Tables, reqs: seq<Request>)
    ensures |Run(t, reqs).tables.ledger| == |t.ledger| + CommitCount(Run(t, reqs).commits)
    decreases |reqs|
  {
    if reqs != [] {
      var s := ApplyStep(t, reqs[0]);
      RunLedgerSize(s.tables, reqs[1..]);
      var cs := Run(t, reqs).commits;
      assert cs[1..] == Run(s.tables, reqs[1..]).commits;
      if s.committed {
        assert s.tables.ledger.Keys == t.ledger.Keys + {Id(reqs[0])};
        assert Id(reqs[0]) !in t.ledger.Keys;
        assert |s.tables.ledger.Keys| == |t.ledger.Keys| + 1;
      }
    }
  }

  /** A successful call: one record with the request's action and times; value by the delta, version by one. */
  lemma CommitEffect(t: Tables, req: Request)
    requires req.fault == Healthy && Id(req) !in t.ledger && CounterCheck(t.counter, req.action)
    ensures var s := ApplyStep(t, req);
      s.committed &&
      s.outcome == Ok(ApiResponse(Snapshot(StoredValue(t.counter) + Delta(req.action),
                                           StoredVersion(t.counter) + 1, Some(req.now)), false)) &&
      s.tables.ledger == t.ledger[Id(req) := IdemRecord(req.action, req.now, req.nowMillis / 1000 + IdempotencyTtlSeconds)]
  {
  }

  /**
   * A transaction that is applied but whose call still throws (lost
   * acknowledgment, or a failed read-back) is answered as a replay of
   * itself: the catch block finds the record the call just wrote.
   */
  lemma UnacknowledgedCommitIsReplay(t: Tables, req: Request)
    requires req.fault == FailsCommitted && Id(req) !in t.ledger && CounterCheck(t.counter, req.action)
    ensures var s := ApplyStep(t, req);
      s.committed &&
      StoredValue(s.tables.counter) == StoredValue(t.counter) + Delta(req.action) &&
      s.outcome == Ok(ApiResponse(GetCurrent(s.tables.counter, req.readNow), true))
  {
  }

  /** A replay is answered from the current counter even when the stored record holds the other action. */
  lemma ReplayIgnoresAction(t: Tables, req: Request)
    requires Id(req) in t.ledger && t.ledger[Id(req)].action != req.action
    ensures ApplyStep(t, req) == Step(t, false, Ok(ApiResponse(GetCurrent(t.counter, req.readNow), true)))
  {
  }

  /** An increment at or above the upper bound with a new key is rejected with MAX_REACHED and changes nothing. */
  lemma SaturatedIncrement(t: Tables, req: Request)
    requires req.action == Increment && Id(req) !in t.ledger
    requires StoredValue(t.counter) >= MaxValue
    ensures ApplyStep(t, req) == Step(t, false, Err(MaxReached(GetCurrent(t.counter, req.readNow))))
  {
  }

  /** A decrement at or below the lower bound with a new key is rejected with MIN_REACHED and changes nothing. */
  lemma SaturatedDecrement(t: Tables, req: Request)
    requires req.action == Decrement && Id(req) !in t.ledger
    requires StoredValue(t.counter) <= MinValue
    ensures ApplyStep(t, req) == Step(t, false, Err(MinReached(GetCurrent(t.counter, req.readNow))))
  {
  }

  /**
   * With no counter item the transaction can never commit: an increment
   * reads back value 0 and rethrows the cancellation, a decrement reports
   * MIN_REACHED with the zero snapshot.
   */
  lemma MissingCounter(t: Tables, req: Request)
    requires t.counter.None? && Id(req) !in t.ledger
    ensures req.action == Increment ==>
      ApplyStep(t, req) == Step(t, false, Err(Rethrown(if req.fault != Healthy then StoreFault else ConditionFailed(false, true))))
    ensures req.action == Decrement ==>
      ApplyStep(t, req) == Step(t, false, Err(MinReached(Snapshot(0, 0, Some(req.readNow)))))
  {
  }

  /**
   * A call without a usable key gets a fresh id, so it is never a replay of
   * an earlier call: it is answered `idempotent: true` only when its own
   * transaction was applied and the store then failed the call.
   */
  lemma FreshIdNeverReplay(t: Tables, req: Request)
    requires req.idemKey.None? || req.idemKey == Some("")
    requires req.generatedId !in t.ledger
    ensures var s := ApplyStep(t, req);
      s.outcome.Ok? && s.outcome.value.idempotent ==> s.committed && req.fault == FailsCommitted
  {
  }

  /**
   * At most once holds only while the record lives: once the time-to-live
   * sweep has deleted a key's expired record, a new call with that key
   * commits again.
   */
  lemma ExpiryReopensKey(t: Tables, req: Request, nowSeconds: int)
    requires Id(req) in t.ledger && t.ledger[Id(req)].expiresAt < nowSeconds
    requires req.fault == Healthy && CounterCheck(t.counter, req.action)
    ensures ApplyStep(t, req).outcome.Ok? && ApplyStep(t, req).outcome.value.idempotent
    ensures IsApplied(ApplyStep(Tables(t.counter, Expired(t.ledger, Id(req), nowSeconds)), req).outcome)
  {
  }

  /**
   * A store whose counter item holds value 0 and version 0: an increment with
   * key "a" gives 1/1, the same key again is a replay of 1/1, and an
   * increment with a new key gives 2/2.
   */
  lemma SeededScenario(t0: Timestamp, ts: seq<Timestamp>)
    requires |ts| == 3
    ensures
      var t := Tables(Some(CounterItem(Some(0), Some(0), Some(t0))), map[]);
      var reqs := [Request(Increment, Some("a"), "g1", ts[0], 0, ts[0], Healthy),
                   Request(Increment, Some("a"), "g2", ts[1], 0, ts[1], Healthy),
                   Request(Increment, None, "g3", ts[2], 0, ts[2], Healthy)];
      Run(t, reqs).outcomes ==
        [Ok(ApiResponse(Snapshot(1, 1, Some(ts[0])), false)),
         Ok(ApiResponse(Snapshot(1, 1, Some(ts[0])), true)),
         Ok(ApiResponse(Snapshot(2, 2, Some(ts[2])), false))]
  {
    var t := Tables(Some(CounterItem(Some(0), Some(0), Some(t0))), map[]);
    var reqs := [Request(Increment, Some("a"), "g1", ts[0], 0, ts[0], Healthy),
                 Request(Increment, Some("a"), "g2", ts[1], 0, ts[1], Healthy),
                 Request(Increment, None, "g3", ts[2], 0, ts[2], Healthy)];
    var s1 := ApplyStep(t, reqs[0]);
    var s2 := ApplyStep(s1.tables, reqs[1]);
    var s3 := ApplyStep(s2.tables, reqs[2]);
    assert s1.outcome == Ok(ApiResponse(Snapshot(1, 1, Some(ts[0])), false));
    assert s2.outcome == Ok(ApiResponse(Snapshot(1, 1, Some(ts[0])), true));
    assert "g3" != "a";
    assert s3.outcome == Ok(ApiResponse(Snapshot(2, 2, Some(ts[2])), false));
    assert reqs[1..][1..][1..] == [];
    assert Run(s2.tables, reqs[1..][1..]).outcomes == [s3.outcome];
    assert Run(s1.tables, reqs[1..]).outcomes == [s2.outcome, s3.outcome];
  }
}
