/** When the background moves an intent and when it leaves it alone: preparation and its cool-downs, the
    monitor, the sweeps under their limits, the latch, and the lock a fresh quote leads to.
    Models apps/api/src/sea/cmr-prepare.service.ts, intent-monitor.service.ts, the two sweepers,
    intent-fire.service.ts:144-165 and freshQuote of sea.controller.ts. */
module IntentRules {
  import opened Prelude
  import opened Intents
  import opened Tokens
  import opened Sea
  import opened OwnerConsent
  import ProtocolTheorems
  import R = ReadyGate
  import Desk

  // ---------------------------------------------------------------------------
  // Preparation and monitor
  // ---------------------------------------------------------------------------

  /** A market intent that may be looked at now: active, not expired, its cool-down over. */
  predicate Waiting(x: Intent, now: int) {
    x.kind == CMR && x.status == ACTIVE && now < x.expiresAt &&
    (x.cooldownUntilAt.None? || x.cooldownUntilAt.value <= now)
  }

  /** Preparation touches exactly such intents, and only when the trigger has fired: a fillable one becomes
      READY with its time and its life, a short one stays active and cools down. */
  lemma PreparesIff(w: Ledger, now: int, verdict: Verdict, ttlSec: nat, debounceSec: nat, id: string)
    requires id in w.rows
    ensures var x, w' := w.rows[id], PrepareOp(w, now, verdict, ttlSec, debounceSec, id);
            && (w' != w <==> Waiting(x, now) && verdict != Untriggered)
            && (Waiting(x, now) && verdict == Fillable ==>
                  w'.rows == w.rows[id := x.(status := READY, ttlSec := Some(ttlSec), preparedQuoteAt := Some(now),
                                             updatedAt := now)])
            && (Waiting(x, now) && verdict == Short ==>
                  w'.rows == w.rows[id := x.(cooldownUntilAt := Some(now + debounceSec * 1000), updatedAt := now)])
  {
    assert |History(PrepareOp(w, now, verdict, ttlSec, debounceSec, id).log, id)| > |History(w.log, id)|
           || PrepareOp(w, now, verdict, ttlSec, debounceSec, id) == w;
  }

  /** The monitor takes a READY intent back for good past its expiry; before that it re-arms it once its life
      is over, unless a wallet lock with its forty-five seconds of grace still holds. */
  lemma MonitorTakesBackIff(w: Ledger, now: int, rearmSec: nat, id: string)
    requires At(w.rows, id, READY) && w.rows[id].kind == CMR
    requires w.rows[id].preparedQuoteAt.Some? && w.rows[id].preparedQuoteAt.value > 0
    ensures var x, rows' := w.rows[id], MonitorReadyOp(w, now, rearmSec, id).rows;
            var locked := x.walletLockUntilAt.Some? && now < x.walletLockUntilAt.value + 45000;
            var over := now > x.preparedQuoteAt.value + LifeSecs(x.ttlSec) * 1000;
            rows' == w.rows[id :=
              if now > x.expiresAt then
                x.(status := EXPIRED, ttlSec := None, preparedQuoteAt := None,
                   failureReason := Some("intent_expired_by_ts"), updatedAt := now)
              else if over && !locked then
                x.(status := ACTIVE, ttlSec := None, preparedQuoteAt := None,
                   cooldownUntilAt := Some(now + rearmSec * 1000), updatedAt := now)
              else x]
  {
  }

  /** A re-armed intent cannot be prepared again before its cool-down is over, and can from then on until it
      expires. */
  lemma RearmedWaits(w: Ledger, now: int, rearmSec: nat, id: string, later: int, ttlSec: nat, debounceSec: nat)
    requires At(w.rows, id, READY) && w.rows[id].kind == CMR && now <= later
    requires w.rows[id].preparedQuoteAt.Some? && w.rows[id].preparedQuoteAt.value > 0
    requires At(MonitorReadyOp(w, now, rearmSec, id).rows, id, ACTIVE)
    ensures At(PrepareOp(MonitorReadyOp(w, now, rearmSec, id), later, Fillable, ttlSec, debounceSec, id).rows, id, READY)
       <==> now + rearmSec * 1000 <= later < w.rows[id].expiresAt
  {
    MonitorTakesBackIff(w, now, rearmSec, id);
    PreparesIff(MonitorReadyOp(w, now, rearmSec, id), later, Fillable, ttlSec, debounceSec, id);
  }

  /** Nor can one that was found short before its debounce is over. */
  lemma ShortWaits(w: Ledger, now: int, id: string, later: int, ttlSec: nat, debounceSec: nat)
    requires id in w.rows && Waiting(w.rows[id], now) && now <= later
    ensures var short := PrepareOp(w, now, Short, ttlSec, debounceSec, id);
            At(PrepareOp(short, later, Fillable, ttlSec, debounceSec, id).rows, id, READY) <==>
              now + debounceSec * 1000 <= later < w.rows[id].expiresAt
  {
    PreparesIff(w, now, Short, ttlSec, debounceSec, id);
    PreparesIff(PrepareOp(w, now, Short, ttlSec, debounceSec, id), later, Fillable, ttlSec, debounceSec, id);
  }

  // ---------------------------------------------------------------------------
  // Limits
  // ---------------------------------------------------------------------------

  function NoLaterThan(keys: map<string, Option<int>>, id: string): set<string>
    requires id in keys
  {
    set y | y in keys && NotLater(keys[y], keys[id])
  }

  function Earlier(keys: map<string, Option<int>>, id: string): set<string>
    requires id in keys
  {
    set y | y in keys && !NotLater(keys[id], keys[y])
  }

  lemma Fewer<T>(a: set<T>, b: set<T>)
    requires a <= b
    ensures |a| <= |b| && (|a| == |b| ==> a == b)
  {
    assert b == a + (b - a);
  }

  /** What is taken under a limit: every row with at most `limit` rows as early as itself, and none with
      `limit` rows or more before it. */
  lemma TakenUnderLimit(keys: map<string, Option<int>>, limit: nat, ids: seq<string>, id: string)
    requires FirstInOrder(keys, limit, ids) && id in keys
    ensures |NoLaterThan(keys, id)| <= limit ==> id in Elements(ids)
    ensures |Earlier(keys, id)| >= limit ==> id !in Elements(ids)
  {
    var taken := Elements(ids);
    if id !in taken && |NoLaterThan(keys, id)| <= limit {
      Fewer(taken, keys.Keys);
      Fewer(taken + {id}, NoLaterThan(keys, id));
    }
    if id in taken && |Earlier(keys, id)| >= limit {
      Fewer(Earlier(keys, id) + {id}, taken);
    }
  }

  /** One pass of the stale sweep: what it moves had been waiting, untouched for longer than the threshold,
      and fails; a row that stale is moved when the limit leaves room for all as stale as it. */
  lemma StaleSweepTakes(w: Ledger, now: int, thresholdMs: nat, limit: nat, ids: seq<string>, id: string)
    requires FirstInOrder(StaleSince(w.rows, now, thresholdMs), limit, ids) && id in w.rows
    ensures var x, x' := w.rows[id], SweepStaleOp(w, now, Elements(ids)).rows[id];
            var stale := x.status == EXECUTING && x.updatedAt < now - thresholdMs;
            && x' == (if id in Elements(ids) then x.(status := FAILED, failureReason := Some("stale_pending"), updatedAt := now)
                      else x)
            && (id in Elements(ids) ==> stale)
            && (stale && |set h | h in w.rows && w.rows[h].status == EXECUTING && w.rows[h].updatedAt <= x.updatedAt| <= limit ==>
                  id in Elements(ids))
  {
    var keys, x := StaleSince(w.rows, now, thresholdMs), w.rows[id];
    if id in keys {
      TakenUnderLimit(keys, limit, ids, id);
      Fewer(NoLaterThan(keys, id),
            set h | h in w.rows && w.rows[h].status == EXECUTING && w.rows[h].updatedAt <= x.updatedAt);
    }
  }

  /** One pass of the expiry sweep, likewise: drafts and active intents past their expiry. */
  lemma DueSweepTakes(w: Ledger, now: int, limit: nat, ids: seq<string>, id: string)
    requires FirstInOrder(OverdueSince(w.rows, now), limit, ids) && id in w.rows
    ensures var x, x' := w.rows[id], SweepDueOp(w, now, Elements(ids)).rows[id];
            var due := x.status in {DRAFT, ACTIVE} && x.expiresAt < now;
            && x' == (if id in Elements(ids) then
                        x.(status := EXPIRED, failureReason := Some("intent_expired_by_ts"), updatedAt := now)
                      else x)
            && (id in Elements(ids) ==> due)
            && (due ==>
                  limit >= |set h | h in w.rows && w.rows[h].status in {DRAFT, ACTIVE} && w.rows[h].expiresAt <= x.expiresAt| ==>
                    id in Elements(ids))
  {
    var keys, x := OverdueSince(w.rows, now), w.rows[id];
    if id in keys {
      TakenUnderLimit(keys, limit, ids, id);
      Fewer(NoLaterThan(keys, id),
            set h | h in w.rows && w.rows[h].status in {DRAFT, ACTIVE} && w.rows[h].expiresAt <= x.expiresAt);
    }
  }

  // ---------------------------------------------------------------------------
  // Firing and locking
  // ---------------------------------------------------------------------------

  /** A fire call wins its row exactly when it is an active limit intent that has not expired. */
  lemma LatchIff(w: Ledger, now: int, id: string)
    ensures LatchOp(w, now, id).1 <==> At(w.rows, id, ACTIVE) && w.rows[id].kind == CL && now < w.rows[id].expiresAt
    ensures LatchOp(w, now, id).1 ==>
              LatchOp(w, now, id).0 == w.(rows := w.rows[id := w.rows[id].(status := TRIGGERED, updatedAt := now)])
    ensures !LatchOp(w, now, id).1 ==> LatchOp(w, now, id).0 == w
  {
  }

  /** A fresh quote is a promise: the lock it proposes, asked for with the nonce it hands out and the owner's
      signature, is granted for as long as the quote lives, the proposed end lies ahead and no lock is live. */
  lemma FreshQuoteIsLockable(env: Env, w: Ledger, quotedAt: int, now: int, id: string, c: R.Wish, b: Desk.Book, r: Desk.Rules,
                             feeBps: nat, signature: string)
    requires Ideal(env) && R.FreshQuote(env, w.rows, quotedAt, id, c, b, r, feeBps).Ok?
    requires var x, quote := w.rows[id], R.FreshQuote(env, w.rows, quotedAt, id, c, b, r, feeBps).value;
             && quotedAt <= now < quote.proposal && now <= x.preparedQuoteAt.value + LifeSecs(x.ttlSec) * 1000
             && (x.walletLockUntilAt.None? || x.walletLockUntilAt.value <= now)
             && Consents(env, x.owner, WalletLockMessage(env, id, x.owner, quote.lockNonce, env.iso(quote.proposal)), signature)
    ensures var quote := R.FreshQuote(env, w.rows, quotedAt, id, c, b, r, feeBps).value;
            var (w', out) := LockWalletOp(env, w, now, id, LockBody(quote.lockNonce, env.iso(quote.proposal), signature));
            && out.Ok? && At(w'.rows, id, READY) && w'.rows[id].walletLockUntilAt == Some(quote.proposal)
            && quote.proposal <= Min(quotedAt + env.lockSecs * 1000, w.rows[id].expiresAt)
  {
    ProtocolTheorems.ProposedLockIsGranted(env, w, id, quotedAt, now, signature);
  }
}
