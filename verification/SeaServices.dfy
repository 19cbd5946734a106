/** The intent services as they run: rows and event log changed in place, checks in the order the
    code makes them, each method tied to the operation it performs.
    Models apps/api/src/sea/intent.service.ts, intent-monitor.service.ts and the two sweepers. */
module SeaServices {
  import opened Prelude
  import opened Intents
  import opened IntentStore
  import opened Tokens
  import opened Sea
  import OrderBooks

  class IntentEventRepository {
    var log: Log

    constructor ()
      ensures log == map[]
    {
      log := map[];
    }

    method Append(id: string, e: Event)
      modifies this
      ensures log == Sea.Append(old(log), id, [e])
    {
      log := log[id := (if id in log then log[id] else []) + [e]];
    }
  }

  class IntentService {
    const env: Env
    const repo: IntentRepository
    const events: IntentEventRepository
    const persistence: OrderBooks.PersistenceRepository

    ghost function Ledger(): Ledger
      reads repo, events
    {
      Sea.Ledger(repo.rows, events.log)
    }

    constructor (env: Env, repo: IntentRepository, events: IntentEventRepository,
                 persistence: OrderBooks.PersistenceRepository)
      ensures this.env == env && this.repo == repo && this.events == events && this.persistence == persistence
    {
      this.env, this.repo, this.events, this.persistence := env, repo, events, persistence;
    }

    method Cancel(id: string, signature: string, now: int) returns (r: Outcome<Intent>)
      modifies repo, events
      ensures (Ledger(), r) == CancelOp(env, old(Ledger()), now, id, signature)
    {
      if id !in repo.rows {
        return Fail("intent_not_found");
      }
      var intent := repo.rows[id];
      if !env.devSkip && env.recover(CancelMessage(env, id, intent.owner), signature) != Some(intent.owner) {
        return Fail("cancel_auth_failed");
      }
      if intent.status != DRAFT && intent.status != ACTIVE && intent.status != READY {
        return Fail("cannot_cancel_status");
      }
      var updated := repo.TransitionStatus(id, intent.status, CANCELLED, Some("user_cancel"), now);
      if !updated {
        return Fail("status_changed_concurrently");
      }
      events.Append(id, Cancelled);
      r := Ok(repo.rows[id]);
    }

    method LockWallet(id: string, b: LockBody, now: int) returns (r: Outcome<LockReply>)
      modifies repo
      ensures (Ledger(), r) == LockWalletOp(env, old(Ledger()), now, id, b)
    {
      if id !in repo.rows {
        return Fail("intent_not_found");
      }
      var intent := repo.rows[id];
      if intent.status != READY { return Fail("cannot_lock_status"); }
      if intent.kind != CMR { return Fail("cannot_lock_status"); }
      if now >= intent.expiresAt { return Fail("intent_expired"); }
      if intent.preparedQuoteAt.None? { return Fail("not_ready_no_snapshot"); }
      var preparedAt := intent.preparedQuoteAt.value;
      if now > preparedAt + ReadTtlSec(intent.ttlSec) * 1000 { return Fail("ready_ttl_expired"); }
      if !VerifyLockNonce(env, b.lockNonce, id, intent.owner, preparedAt) { return Fail("lock_nonce_mismatch"); }
      var supplied := env.parse(b.until);
      var latest := now + (env.lockSecs + LOCK_SKEW_SEC) * 1000;
      if supplied.None? || supplied.value <= now || supplied.value > intent.expiresAt || supplied.value > latest {
        return Fail("wallet_lock_until_mismatch");
      }
      if intent.walletLockUntilAt.Some? && intent.walletLockUntilAt.value > now {
        var storedIso := env.iso(intent.walletLockUntilAt.value);
        if b.until != storedIso { return Fail("wallet_lock_until_mismatch"); }
        var existing := IssueExecutionToken(env, id, intent.owner, intent.walletLockUntilAt.value, b.lockNonce);
        return Ok(LockReply(storedIso, existing));
      }
      var message := WalletLockMessage(env, id, intent.owner, b.lockNonce, b.until);
      if !env.devSkip && env.recover(message, b.signature) != Some(intent.owner) {
        return Fail("wallet_lock_auth_failed");
      }
      var ok := repo.LockWalletFromReady(id, preparedAt, supplied.value, now);
      if !ok { return Fail("status_changed_concurrently"); }
      r := Ok(LockReply(env.iso(supplied.value), IssueExecutionToken(env, id, intent.owner, supplied.value, b.lockNonce)));
    }

    method MarkExecuting(id: string, tx: TxHash, token: string, reverted: bool, now: int) returns (r: Outcome<Intent>)
      modifies repo, events
      ensures (Ledger(), r) == MarkExecutingOp(env, old(Ledger()), persistence.trades, now, id, tx, token, reverted)
    {
      if id !in repo.rows {
        return Fail("intent_not_found");
      }
      var intent := repo.rows[id];
      if intent.status == EXECUTING || intent.status == EXECUTED || intent.status == FAILED {
        if intent.linkedTxHash == Some(tx) { return Ok(intent); }
        return Fail("executing_tx_hash_conflict");
      }
      if intent.status != READY { return Fail("cannot_mark_executing_status"); }
      if intent.walletLockUntilAt.None? || intent.preparedQuoteAt.None? { return Fail("wallet_lock_expired"); }
      if now > intent.walletLockUntilAt.value + MARK_GRACE_MS { return Fail("wallet_lock_expired"); }
      var lockNonce := IssueLockNonce(env, id, intent.owner, intent.preparedQuoteAt.value);
      if !VerifyExecutionToken(env, token, id, intent.owner, intent.walletLockUntilAt.value, lockNonce) {
        return Fail("invalid_execution_token");
      }
      RecordMarker(id, tx, reverted, now);
      r := Ok(repo.rows[id]);
    }

    /** The three paths of an accepted marker. */
    method RecordMarker(id: string, tx: TxHash, reverted: bool, now: int)
      requires At(repo.rows, id, READY)
      modifies repo, events
      ensures Ledger() == MarkAccepted(old(Ledger()), persistence.trades, now, id, tx, reverted)
    {
      var intent := repo.rows[id];
      var trade := persistence.FindTradeByTxHashForIntent(tx, intent.market, intent.owner);
      if trade.Some? {
        var ok := repo.MarkExecutedFromReady(id, tx, now);
        events.Append(id, Executing);
        events.Append(id, Executed);
        assert (History(old(events.log), id) + [Executing]) + [Executed] == History(old(events.log), id) + [Executing, Executed];
      } else if reverted {
        var ok := repo.MarkFailedFromReady(id, tx, "tx_reverted_at_marker", now);
        events.Append(id, Failed);
      } else {
        var ok := repo.MarkExecuting(id, tx, now);
        events.Append(id, Executing);
      }
    }
  }

  // ---------------------------------------------------------------------------
  // Monitor
  // ---------------------------------------------------------------------------

  function ReadyCMR(rows: Rows): map<string, Option<int>> {
    map id | id in rows && rows[id].status == READY && rows[id].kind == CMR :: rows[id].preparedQuoteAt
  }

  /** The monitor's step on each listed row in turn. */
  function TickReady(w: Ledger, now: int, rearmSec: nat, ids: seq<string>): Ledger {
    if ids == [] then w
    else MonitorReadyOp(TickReady(w, now, rearmSec, ids[..|ids| - 1]), now, rearmSec, ids[|ids| - 1])
  }

  lemma MonitorTouchesOne(w: Ledger, now: int, rearmSec: nat, id: string, other: string)
    requires other != id
    ensures At(w.rows, other, READY) ==> other in MonitorReadyOp(w, now, rearmSec, id).rows
    ensures other in w.rows <==> other in MonitorReadyOp(w, now, rearmSec, id).rows
    ensures other in w.rows ==> MonitorReadyOp(w, now, rearmSec, id).rows[other] == w.rows[other]
    ensures History(MonitorReadyOp(w, now, rearmSec, id).log, other) == History(w.log, other)
  {
  }

  /** A tick treats every listed row by its own state at the start of the tick, once, and no other. */
  lemma {:induction false} TickTreatsEachAlone(w: Ledger, now: int, rearmSec: nat, ids: seq<string>, id: string)
    requires id in w.rows && forall i, j :: 0 <= i < j < |ids| ==> ids[i] != ids[j]
    ensures id in TickReady(w, now, rearmSec, ids).rows
    ensures TickReady(w, now, rearmSec, ids).rows[id]
         == if id in ids then MonitorReadyOp(w, now, rearmSec, id).rows[id] else w.rows[id]
    ensures History(TickReady(w, now, rearmSec, ids).log, id)
         == if id in ids then History(MonitorReadyOp(w, now, rearmSec, id).log, id) else History(w.log, id)
  {
    if ids != [] {
      var front, last := ids[..|ids| - 1], ids[|ids| - 1];
      assert ids == front + [last] && last !in front;
      TickTreatsEachAlone(w, now, rearmSec, front, id);
      assert id in ids <==> id in front || id == last;
      if last == id {
        SameRowSameStep(TickReady(w, now, rearmSec, front), w, now, rearmSec, id);
      } else {
        MonitorTouchesOne(TickReady(w, now, rearmSec, front), now, rearmSec, last, id);
      }
    }
  }

  lemma SameRowSameStep(a: Ledger, b: Ledger, now: int, rearmSec: nat, id: string)
    requires id in a.rows && id in b.rows && a.rows[id] == b.rows[id] && History(a.log, id) == History(b.log, id)
    ensures id in MonitorReadyOp(a, now, rearmSec, id).rows
    ensures MonitorReadyOp(a, now, rearmSec, id).rows[id] == MonitorReadyOp(b, now, rearmSec, id).rows[id]
    ensures History(MonitorReadyOp(a, now, rearmSec, id).log, id) == History(MonitorReadyOp(b, now, rearmSec, id).log, id)
  {
  }

  class IntentMonitorService {
    const repo: IntentRepository
    const events: IntentEventRepository
    const rearmSec: nat
    const limitPerTick: nat

    ghost function Ledger(): Ledger
      reads repo, events
    {
      Sea.Ledger(repo.rows, events.log)
    }

    constructor (repo: IntentRepository, events: IntentEventRepository, rearmSec: nat, limitPerTick: nat)
      ensures this.repo == repo && this.events == events
      ensures this.rearmSec == rearmSec && this.limitPerTick == limitPerTick
    {
      this.repo, this.events, this.rearmSec, this.limitPerTick := repo, events, rearmSec, limitPerTick;
    }

    /** The READY rows up to the limit, earliest prepared first, each treated once. */
    method TickCMRReady(now: int) returns (ids: seq<string>)
      modifies repo, events
      ensures FirstInOrder(ReadyCMR(old(repo.rows)), Max(1, Min(limitPerTick, 500)), ids)
      ensures Ledger() == TickReady(old(Ledger()), now, rearmSec, ids)
    {
      ids := FirstByKey(ReadyCMR(repo.rows), Max(1, Min(limitPerTick, 500)));
      var i := 0;
      while i < |ids|
        invariant 0 <= i <= |ids|
        invariant Ledger() == TickReady(old(Ledger()), now, rearmSec, ids[..i])
      {
        assert ids[..i + 1][..i] == ids[..i];
        TreatReady(ids[i], now);
        i := i + 1;
      }
      assert ids[..i] == ids;
    }

    /** Hard expiry first, then the lock's shield, then the time to live. */
    method TreatReady(id: string, now: int)
      modifies repo, events
      ensures Ledger() == MonitorReadyOp(old(Ledger()), now, rearmSec, id)
    {
      if id !in repo.rows || repo.rows[id].status != READY || repo.rows[id].kind != CMR {
        return;
      }
      var intent := repo.rows[id];
      if now > intent.expiresAt {
        var ok := repo.MarkExpiredFromReady(id, "intent_expired_by_ts", now);
        if ok { events.Append(id, Expired); }
        return;
      }
      if intent.walletLockUntilAt.Some? && intent.walletLockUntilAt.value + MARK_GRACE_MS > now {
        return;
      }
      var preparedAt := if intent.preparedQuoteAt.Some? then intent.preparedQuoteAt.value else 0;
      if preparedAt == 0 || now > preparedAt + ReadTtlSec(intent.ttlSec) * 1000 {
        var ok := repo.RearmFromReady(id, now + rearmSec * 1000, now);
        if ok { events.Append(id, Progress); }
      }
    }
  }

  // ---------------------------------------------------------------------------
  // Sweepers
  // ---------------------------------------------------------------------------

  lemma ElementsOneMore(ids: seq<string>, i: nat)
    requires i < |ids|
    ensures Elements(ids[..i + 1]) == Elements(ids[..i]) + {ids[i]}
  {
  }

  lemma NotedOneMore(w: Ledger, done: set<string>, id: string, e: Event)
    requires id !in done
    ensures NotedAll(w, map[], done + {id}, e).log == Sea.Append(NotedAll(w, map[], done, e).log, id, [e])
  {
  }

  /** One event for each listed intent. */
  method AppendAll(events: IntentEventRepository, ids: seq<string>, e: Event)
    requires |Elements(ids)| == |ids|
    modifies events
    ensures events.log == NotedAll(Sea.Ledger(map[], old(events.log)), map[], Elements(ids), e).log
  {
    var i := 0;
    ghost var w := Sea.Ledger(map[], events.log);
    assert Elements(ids[..0]) == {};
    while i < |ids|
      invariant 0 <= i <= |ids|
      invariant events.log == NotedAll(w, map[], Elements(ids[..i]), e).log
    {
      DistinctAhead(ids, i);
      ElementsOneMore(ids, i);
      NotedOneMore(w, Elements(ids[..i]), ids[i], e);
      events.Append(ids[i], e);
      i := i + 1;
    }
    assert ids[..i] == ids;
  }

  class IntentExecutingSweeperService {
    const repo: IntentRepository
    const events: IntentEventRepository
    const limitPerTick: nat
    const staleThresholdMs: nat

    ghost function Ledger(): Ledger
      reads repo, events
    {
      Sea.Ledger(repo.rows, events.log)
    }

    constructor (repo: IntentRepository, events: IntentEventRepository, limitPerTick: nat, staleThresholdMs: nat)
      ensures this.repo == repo && this.events == events
      ensures this.limitPerTick == limitPerTick && this.staleThresholdMs == staleThresholdMs
    {
      this.repo, this.events := repo, events;
      this.limitPerTick, this.staleThresholdMs := limitPerTick, staleThresholdMs;
    }

    /** The stale rows up to the limit, longest untouched first, fail, each with one event. */
    method Tick(now: int) returns (ids: seq<string>)
      modifies repo, events
      ensures FirstInOrder(StaleSince(old(repo.rows), now, staleThresholdMs), Max(1, Min(limitPerTick, 500)), ids)
      ensures Ledger() == SweepStaleOp(old(Ledger()), now, Elements(ids))
    {
      ids := repo.SweepStaleExecuting(limitPerTick, staleThresholdMs, now);
      AppendAll(events, ids, Failed);
    }
  }

  class IntentExpirySweeperService {
    const repo: IntentRepository
    const events: IntentEventRepository
    const limitPerTick: nat

    ghost function Ledger(): Ledger
      reads repo, events
    {
      Sea.Ledger(repo.rows, events.log)
    }

    constructor (repo: IntentRepository, events: IntentEventRepository, limitPerTick: nat)
      ensures this.repo == repo && this.events == events && this.limitPerTick == limitPerTick
    {
      this.repo, this.events, this.limitPerTick := repo, events, limitPerTick;
    }

    /** The overdue drafts and active intents up to the limit, earliest expiry first, expire, each with
        one event. */
    method Tick(now: int) returns (ids: seq<string>)
      modifies repo, events
      ensures FirstInOrder(OverdueSince(old(repo.rows), now), Max(1, Min(limitPerTick, 500)), ids)
      ensures Ledger() == SweepDueOp(old(Ledger()), now, Elements(ids))
    {
      ids := repo.ExpireDueIntents(limitPerTick, now);
      AppendAll(events, ids, Expired);
    }
  }
}
