/** The intent repository as it runs: rows updated in place, each method one guarded update.
    Models apps/api/src/sea/intent.repository.ts. */
module IntentStore {
  import opened Prelude
  import opened I = Intents

  lemma NextCandidate(candidates: seq<string>, i: nat)
    requires i < |candidates| && |Elements(candidates)| == |candidates|
    ensures candidates[i] in Elements(candidates) && candidates[i] !in Elements(candidates[..i])
    ensures candidates[..i + 1] == candidates[..i] + [candidates[i]]
  {
    DistinctAhead(candidates, i);
  }

  lemma NothingSwept(rows: Rows, to: IntentStatus, reason: string, now: int)
    ensures Swept(rows, Elements([]), to, reason, now) == rows
  {
  }

  /** The sweep of one more row. */
  lemma SweptOneMore(was: Rows, ids: seq<string>, i: nat, to: IntentStatus, reason: string, now: int)
    requires i < |ids| && ids[i] in was && ids[i] !in Elements(ids[..i])
    ensures Swept(was, Elements(ids[..i + 1]), to, reason, now)
         == Swept(was, Elements(ids[..i]), to, reason, now)[ids[i] := was[ids[i]].(status := to, failureReason := Some(reason),
                                                                                    updatedAt := now)]
  {
    assert Elements(ids[..i + 1]) == Elements(ids[..i]) + {ids[i]};
  }

  lemma DistinctAhead(s: seq<string>, i: nat)
    requires i < |s| && |Elements(s)| == |s|
    ensures s[i] !in s[..i]
  {
    if s[i] in s[..i] {
      var t := s[..i] + s[i + 1..];
      assert s == s[..i] + [s[i]] + s[i + 1..];
      assert Elements(s) == Elements(t);
      ElementsAtMost(t);
    }
  }

  lemma {:induction false} ElementsAtMost(s: seq<string>)
    ensures |Elements(s)| <= |s|
  {
    if s == [] {
      assert Elements(s) == {};
    } else {
      ElementsAtMost(s[1..]);
      assert Elements(s) == {s[0]} + Elements(s[1..]);
    }
  }

  /** A row whose key no other comes before. */
  method PickEarliest(keys: map<string, Option<int>>, s: set<string>) returns (x: string)
    requires s != {} && s <= keys.Keys
    ensures x in s && forall y :: y in s ==> NotLater(keys[x], keys[y])
  {
    x :| x in s;
    var rest := s - {x};
    while rest != {}
      invariant rest <= s && x in s
      invariant forall y :: y in s && y !in rest ==> NotLater(keys[x], keys[y])
      decreases rest
    {
      var y :| y in rest;
      if !NotLater(keys[x], keys[y]) {
        x := y;
      }
      rest := rest - {y};
    }
  }

  lemma OneMoreInOrder(keys: map<string, Option<int>>, ids: seq<string>, x: string)
    requires Elements(ids) <= keys.Keys && Ascending(keys, ids) && x in keys.Keys - Elements(ids)
    requires forall y :: y in keys.Keys - Elements(ids) ==> NotLater(keys[x], keys[y])
    ensures Elements(ids + [x]) == Elements(ids) + {x} && Ascending(keys, ids + [x])
  {
    assert Elements(ids + [x]) == Elements(ids) + {x};
  }

  /** `orderBy` ascending with `take: limit`. */
  method FirstByKey(keys: map<string, Option<int>>, limit: nat) returns (ids: seq<string>)
    ensures FirstInOrder(keys, limit, ids)
  {
    ids := [];
    var rest := keys.Keys;
    while |ids| < limit && rest != {}
      invariant rest <= keys.Keys && Elements(ids) == keys.Keys - rest
      invariant |ids| == |Elements(ids)| && |ids| <= limit && |ids| + |rest| == |keys|
      invariant Ascending(keys, ids)
      decreases rest
    {
      var x := PickEarliest(keys, rest);
      OneMoreInOrder(keys, ids, x);
      ids, rest := ids + [x], rest - {x};
    }
  }

  class IntentRepository {
    var rows: Rows

    constructor ()
      ensures rows == map[]
    {
      rows := map[];
    }

    method LockWalletFromReady(id: string, preparedQuoteAt: int, until: int, now: int) returns (ok: bool)
      modifies this
      ensures (rows, ok) == I.LockWalletFromReady(old(rows), id, preparedQuoteAt, until, now)
    {
      ok := id in rows && rows[id].status == READY && rows[id].preparedQuoteAt == Some(preparedQuoteAt);
      if ok {
        rows := rows[id := rows[id].(walletLockUntilAt := Some(until), updatedAt := now)];
      }
    }

    method MarkExecutedFromReady(id: string, tx: TxHash, now: int) returns (ok: bool)
      modifies this
      ensures (rows, ok) == LeaveReady(old(rows), id, EXECUTED, tx, None, now)
    {
      ok := id in rows && rows[id].status == READY;
      if ok {
        rows := rows[id := rows[id].(status := EXECUTED, linkedTxHash := Some(tx), updatedAt := now)];
      }
    }

    method MarkFailedFromReady(id: string, tx: TxHash, reason: string, now: int) returns (ok: bool)
      modifies this
      ensures (rows, ok) == LeaveReady(old(rows), id, FAILED, tx, Some(reason), now)
    {
      ok := id in rows && rows[id].status == READY;
      if ok {
        rows := rows[id := rows[id].(status := FAILED, linkedTxHash := Some(tx), failureReason := Some(reason),
                                     updatedAt := now)];
      }
    }

    method MarkExecuting(id: string, tx: TxHash, now: int) returns (ok: bool)
      modifies this
      ensures (rows, ok) == LeaveReady(old(rows), id, EXECUTING, tx, None, now)
    {
      ok := id in rows && rows[id].status == READY;
      if ok {
        rows := rows[id := rows[id].(status := EXECUTING, linkedTxHash := Some(tx), updatedAt := now)];
      }
    }

    method MarkExecuted(id: string, tx: TxHash, now: int) returns (ok: bool)
      modifies this
      ensures (rows, ok) == LeaveExecuting(old(rows), id, EXECUTED, tx, None, now)
    {
      ok := id in rows && rows[id].status == EXECUTING && rows[id].linkedTxHash == Some(tx);
      if ok {
        rows := rows[id := rows[id].(status := EXECUTED, updatedAt := now)];
      }
    }

    method MarkFailedFromExecuting(id: string, tx: TxHash, reason: string, now: int) returns (ok: bool)
      modifies this
      ensures (rows, ok) == LeaveExecuting(old(rows), id, FAILED, tx, Some(reason), now)
    {
      ok := id in rows && rows[id].status == EXECUTING && rows[id].linkedTxHash == Some(tx);
      if ok {
        rows := rows[id := rows[id].(status := FAILED, failureReason := Some(reason), updatedAt := now)];
      }
    }

    method MarkReady(id: string, ttlSec: int, at: int) returns (ok: bool)
      modifies this
      ensures (rows, ok) == I.MarkReady(old(rows), id, ttlSec, at)
    {
      ok := id in rows && rows[id].status == ACTIVE;
      if ok {
        rows := rows[id := rows[id].(status := READY, ttlSec := Some(ttlSec), preparedQuoteAt := Some(at), updatedAt := at)];
      }
    }

    method RearmFromReady(id: string, cooldownUntil: int, now: int) returns (ok: bool)
      modifies this
      ensures (rows, ok) == I.RearmFromReady(old(rows), id, cooldownUntil, now)
    {
      ok := id in rows && rows[id].status == READY;
      if ok {
        rows := rows[id := rows[id].(status := ACTIVE, ttlSec := None, preparedQuoteAt := None,
                                     cooldownUntilAt := Some(cooldownUntil), updatedAt := now)];
      }
    }

    method MarkExpiredFromReady(id: string, reason: string, now: int) returns (ok: bool)
      modifies this
      ensures (rows, ok) == I.MarkExpiredFromReady(old(rows), id, reason, now)
    {
      ok := id in rows && rows[id].status == READY;
      if ok {
        rows := rows[id := rows[id].(status := EXPIRED, ttlSec := None, preparedQuoteAt := None,
                                     failureReason := Some(reason), updatedAt := now)];
      }
    }

    method SetActiveCooldown(id: string, until: int, now: int) returns (ok: bool)
      modifies this
      ensures (rows, ok) == I.SetActiveCooldown(old(rows), id, until, now)
    {
      ok := id in rows && rows[id].status == ACTIVE;
      if ok {
        rows := rows[id := rows[id].(cooldownUntilAt := Some(until), updatedAt := now)];
      }
    }

    method MarkPlaced(id: string, hash: Hash, now: int) returns (ok: bool)
      modifies this
      ensures (rows, ok) == I.MarkPlaced(old(rows), id, hash, now)
    {
      ok := id in rows && rows[id].status == TRIGGERED;
      if ok {
        rows := rows[id := rows[id].(status := PLACED, linkedOrderHash := Some(hash), updatedAt := now)];
      }
    }

    method TransitionStatus(id: string, from: IntentStatus, to: IntentStatus, reason: Option<string>, now: int)
      returns (ok: bool)
      modifies this
      ensures (rows, ok) == I.TransitionStatus(old(rows), id, from, to, reason, now)
    {
      ok := id in rows && rows[id].status == from;
      if ok {
        var was := rows[id];
        var why := if reason.Some? then reason else was.failureReason;
        rows := rows[id := was.(status := to, updatedAt := now, failureReason := why)];
      }
    }

    /** Some row waiting on this transaction in this market for this owner, if there is one. */
    method FindExecutingByTxHashForOwner(tx: TxHash, market: Symbol, owner: Address) returns (hit: Option<string>)
      ensures hit.Some? ==> Awaits(rows, hit.value, tx, market, owner)
      ensures hit.None? ==> forall id :: !Awaits(rows, id, tx, market, owner)
    {
      var todo := rows.Keys;
      hit := None;
      while todo != {}
        invariant todo <= rows.Keys
        invariant forall id :: id in rows.Keys - todo ==> !Awaits(rows, id, tx, market, owner)
        decreases todo
      {
        var id :| id in todo;
        if Awaits(rows, id, tx, market, owner) {
          return Some(id);
        }
        todo := todo - {id};
      }
    }

    /** Fail stale EXECUTING rows, longest untouched first, one guarded update at a time. */
    method SweepStaleExecuting(limit: nat, thresholdMs: int, now: int) returns (ids: seq<string>)
      modifies this
      ensures SweepDone(old(rows), rows, StaleSince(old(rows), now, thresholdMs), Max(1, Min(limit, 500)), ids,
                        FAILED, "stale_pending", now)
    {
      var candidates := FirstByKey(StaleSince(rows, now, thresholdMs), Max(1, Min(limit, 500)));
      ids := FailEach(candidates, now - thresholdMs, now);
    }

    /** The loop over the candidates: each update repeats the condition it was listed by. */
    method FailEach(candidates: seq<string>, cutoff: int, now: int) returns (ids: seq<string>)
      requires Elements(candidates) <= StaleIds(rows, cutoff) && |Elements(candidates)| == |candidates|
      modifies this
      ensures ids == candidates && rows == Swept(old(rows), Elements(candidates), FAILED, "stale_pending", now)
    {
      ids := [];
      var i := 0;
      ghost var was := rows;
      NothingSwept(rows, FAILED, "stale_pending", now);
      while i < |candidates|
        invariant 0 <= i <= |candidates| && ids == candidates[..i]
        invariant rows == Swept(was, Elements(candidates[..i]), FAILED, "stale_pending", now)
      {
        var id := candidates[i];
        NextCandidate(candidates, i);
        if id in rows && rows[id].status == EXECUTING && rows[id].updatedAt < cutoff {
          rows := rows[id := rows[id].(status := FAILED, failureReason := Some("stale_pending"), updatedAt := now)];
          ids := ids + [id];
        }
        SweptOneMore(was, candidates, i, FAILED, "stale_pending", now);
        i := i + 1;
      }
      assert candidates[..i] == candidates;
    }

    /** Expire drafts and active intents past their time, earliest expiry first, each from the status it
        was read with. */
    method ExpireDueIntents(limit: nat, now: int) returns (ids: seq<string>)
      modifies this
      ensures SweepDone(old(rows), rows, OverdueSince(old(rows), now), Max(1, Min(limit, 500)), ids,
                        EXPIRED, "intent_expired_by_ts", now)
    {
      var candidates := FirstByKey(OverdueSince(rows, now), Max(1, Min(limit, 500)));
      ids := ExpireEach(candidates, now);
    }

    method ExpireEach(candidates: seq<string>, now: int) returns (ids: seq<string>)
      requires Elements(candidates) <= OverdueIds(rows, now) && |Elements(candidates)| == |candidates|
      modifies this
      ensures ids == candidates && rows == Swept(old(rows), Elements(candidates), EXPIRED, "intent_expired_by_ts", now)
    {
      ids := [];
      var i := 0;
      ghost var was := rows;
      NothingSwept(rows, EXPIRED, "intent_expired_by_ts", now);
      while i < |candidates|
        invariant 0 <= i <= |candidates| && ids == candidates[..i]
        invariant rows == Swept(was, Elements(candidates[..i]), EXPIRED, "intent_expired_by_ts", now)
      {
        var id := candidates[i];
        NextCandidate(candidates, i);
        var ok := TransitionStatus(id, rows[id].status, EXPIRED, Some("intent_expired_by_ts"), now);
        if ok {
          ids := ids + [id];
        }
        SweptOneMore(was, candidates, i, EXPIRED, "intent_expired_by_ts", now);
        i := i + 1;
      }
      assert candidates[..i] == candidates;
    }
  }
}
