/** Runs the protocol can really take: the worlds in which its guarantees end. */
module ProtocolRuns {
  import opened Prelude
  import opened Intents
  import opened Tokens
  import opened Sea
  import opened Protocol
  import opened ProtocolSafety
  import opened ProtocolTheorems
  import Desk

  /** `sign` answers every message with the owner's signature. */
  ghost predicate Signs(env: Env, owner: Address, sign: string -> string) {
    forall message :: SignedBy(env, message, sign(message), owner)
  }

  lemma OneStepRun(env: Env, w: World, s: Step)
    ensures Run(env, w, [s]) == Next(env, w, s)
    ensures Enabled(w, s) ==> Legal(env, w, [s])
  {
    var steps := [s];
    assert steps[..|steps| - 1] == [] && steps[|steps| - 1] == s;
    assert Run(env, w, []) == w && Legal(env, w, []);
  }

  lemma StepReachable(env: Env, w: World, s: Step)
    requires Reachable(env, w) && Enabled(w, s)
    ensures Reachable(env, Next(env, w, s))
  {
    OneStepRun(env, w, s);
    StaysReachable(env, w, [s]);
  }

  lemma StartReachable(env: Env, now: int)
    requires now > 0
    ensures Reachable(env, Start(now))
  {
    assert Legal(env, Start(now), []) && Start(now) == Run(env, Start(now), []);
  }

  /** Every id the world has seen. */
  function Known(w: World): set<string> {
    w.sea.rows.Keys + w.sea.log.Keys + w.epochs.Keys
  }

  function PreparedRow(owner: Address, market: Symbol, expiresAt: int, ttlSec: nat, now: int): Intent {
    NewIntent(owner, market, CMR, expiresAt, now).(status := READY, ttlSec := Some(ttlSec), preparedQuoteAt := Some(now))
  }

  /** Prepared and locked at one instant. */
  function LockedRow(owner: Address, market: Symbol, expiresAt: int, ttlSec: nat, until: int, now: int): Intent {
    PreparedRow(owner, market, expiresAt, ttlSec, now).(walletLockUntilAt := Some(until))
  }

  lemma CanCreate(env: Env, w: World, id: string, owner: Address, market: Symbol, expiresAt: int) returns (w': World)
    requires Reachable(env, w) && id !in Known(w) && BarFree(id) && BarFree(owner) && expiresAt > w.now + 60000
    ensures Reachable(env, w') && w'.now == w.now && w'.trades == w.trades && w'.epochs == w.epochs
    ensures w'.sea.rows == w.sea.rows[id := NewIntent(owner, market, CMR, expiresAt, w.now)]
    ensures w'.sea.log.Keys == w.sea.log.Keys + {id}
  {
    StepReachable(env, w, Create(id, owner, market, CMR, expiresAt));
    w' := CreateStep(w, id, owner, market, CMR, expiresAt);
  }

  lemma CanWait(env: Env, w: World, ms: nat)
    requires Reachable(env, w)
    ensures Reachable(env, w.(now := w.now + ms))
  {
    StepReachable(env, w, Tick(ms));
  }

  lemma CanPrepare(env: Env, w: World, id: string, ttlSec: nat) returns (w': World)
    requires Reachable(env, w) && id in w.sea.rows && Due(w.sea.rows[id], w.now)
    ensures Reachable(env, w') && w'.now == w.now && w'.trades == w.trades
    ensures w'.sea.rows == w.sea.rows[id := w.sea.rows[id].(status := READY, ttlSec := Some(ttlSec),
                                                            preparedQuoteAt := Some(w.now), updatedAt := w.now)]
    ensures w'.sea.log.Keys == w.sea.log.Keys + {id} && w'.epochs.Keys == w.epochs.Keys + {id}
  {
    StepReachable(env, w, Prepare(id, Fillable, ttlSec, 0));
    w' := PrepareStep(w, id, Fillable, ttlSec, 0);
    PrepareReady(w, id, ttlSec, 0);
  }

  /** Created at `w`, prepared `wait` later: `w'` knows one intent more, and it is READY. */
  predicate Prepared(w: World, w': World, id: string, owner: Address, market: Symbol, expiresAt: int, wait: nat, ttlSec: nat) {
    && w'.now == w.now + wait && w'.trades == w.trades
    && w'.sea.rows == w.sea.rows[id := PreparedRow(owner, market, expiresAt, ttlSec, w'.now)]
    && Known(w') == Known(w) + {id}
  }

  lemma PreparedRows(w: World, w1: World, w': World, id: string, owner: Address, market: Symbol, expiresAt: int, wait: nat,
                     ttlSec: nat)
    requires w1.now == w.now && w1.trades == w.trades && w1.epochs == w.epochs && w1.sea.log.Keys == w.sea.log.Keys + {id}
    requires w1.sea.rows == w.sea.rows[id := NewIntent(owner, market, CMR, expiresAt, w.now)]
    requires w'.now == w1.now + wait && w'.trades == w1.trades
    requires w'.sea.rows == w1.sea.rows[id := w1.sea.rows[id].(status := READY, ttlSec := Some(ttlSec),
                                                               preparedQuoteAt := Some(w'.now), updatedAt := w'.now)]
    requires w'.sea.log.Keys == w1.sea.log.Keys + {id} && w'.epochs.Keys == w1.epochs.Keys + {id}
    ensures Prepared(w, w', id, owner, market, expiresAt, wait, ttlSec)
  {
  }

  lemma CanCreateAndPrepare(env: Env, w: World, id: string, owner: Address, market: Symbol, expiresAt: int, wait: nat,
                            ttlSec: nat) returns (w': World)
    requires Reachable(env, w) && id !in Known(w) && BarFree(id) && BarFree(owner)
    requires expiresAt > w.now + 60000 && expiresAt > w.now + wait
    ensures Reachable(env, w') && Prepared(w, w', id, owner, market, expiresAt, wait, ttlSec)
  {
    var w1 := CanCreate(env, w, id, owner, market, expiresAt);
    CanWait(env, w1, wait);
    w' := CanPrepare(env, w1.(now := w1.now + wait), id, ttlSec);
    PreparedRows(w, w1, w', id, owner, market, expiresAt, wait, ttlSec);
  }

  /** A signed request that spells the lock's end as `text`. */
  function BodyFor(env: Env, id: string, owner: Address, text: string, epoch: int, sign: string -> string): LockBody {
    var nonce := IssueLockNonce(env, id, owner, epoch);
    LockBody(nonce, text, sign(WalletLockMessage(env, id, owner, nonce, text)))
  }

  lemma BodyPasses(env: Env, w: World, id: string, text: string, until: int, sign: string -> string)
    requires At(w.sea.rows, id, READY) && Signs(env, w.sea.rows[id].owner, sign) && env.parse(text) == Some(until)
    requires var x := w.sea.rows[id];
             x.kind == CMR && x.preparedQuoteAt == Some(w.now) &&
             w.now < until <= x.expiresAt && until <= w.now + LOCK_SKEW_SEC * 1000
    ensures Lockable(env, w, id, BodyFor(env, id, w.sea.rows[id].owner, text, w.now, sign))
  {
  }

  /** The row is READY and the request passes every check, its signature too. */
  predicate Lockable(env: Env, w: World, id: string, b: LockBody) {
    && At(w.sea.rows, id, READY) && env.parse(b.until).Some? && LockRefusal(env, w.now, id, w.sea.rows[id], b).None?
    && SignedBy(env, WalletLockMessage(env, id, w.sea.rows[id].owner, b.lockNonce, b.until), b.signature, w.sea.rows[id].owner)
  }

  lemma CanLock(env: Env, w: World, id: string, b: LockBody) returns (w': World)
    requires Reachable(env, w) && Lockable(env, w, id, b) && !LockLive(w.sea.rows[id], w.now)
    ensures Reachable(env, w') && w' == Next(env, w, LockWallet(id, b)) && LockWalletOp(env, w.sea, w.now, id, b).1.Ok?
    ensures w'.now == w.now && w'.trades == w.trades && w'.epochs == w.epochs
    ensures w'.sea == w.sea.(rows := w.sea.rows[id := w.sea.rows[id].(walletLockUntilAt := env.parse(b.until),
                                                                      updatedAt := w.now)])
  {
    StepReachable(env, w, LockWallet(id, b));
    w' := LockStep(env, w, id, b);
  }

  /** The same under a wallet lock. */
  predicate Locked(w: World, w': World, id: string, owner: Address, market: Symbol, expiresAt: int, wait: nat, ttlSec: nat,
                   until: int)
  {
    && w'.now == w.now + wait && w'.trades == w.trades
    && w'.sea.rows == w.sea.rows[id := LockedRow(owner, market, expiresAt, ttlSec, until, w'.now)]
    && Known(w') == Known(w) + {id}
  }

  lemma LockedRows(w: World, w1: World, w': World, id: string, owner: Address, market: Symbol, expiresAt: int, wait: nat,
                   ttlSec: nat, until: int)
    requires Prepared(w, w1, id, owner, market, expiresAt, wait, ttlSec)
    requires w'.now == w1.now && w'.trades == w1.trades && w'.epochs == w1.epochs
    requires w'.sea == w1.sea.(rows := w1.sea.rows[id := w1.sea.rows[id].(walletLockUntilAt := Some(until), updatedAt := w1.now)])
    ensures Locked(w, w', id, owner, market, expiresAt, wait, ttlSec, until)
  {
    assert w'.sea.rows.Keys == w1.sea.rows.Keys;
  }

  /** From any reachable world a new intent can be brought to READY under a wallet lock. */
  lemma CanOpen(env: Env, w: World, id: string, owner: Address, market: Symbol, expiresAt: int, wait: nat, ttlSec: nat,
                until: int, sign: string -> string) returns (w': World)
    requires Ideal(env) && Signs(env, owner, sign)
    requires Reachable(env, w) && id !in Known(w) && BarFree(id) && BarFree(owner) && expiresAt > w.now + 60000
    requires w.now + wait < until <= w.now + wait + LOCK_SKEW_SEC * 1000 && until <= expiresAt
    ensures Reachable(env, w') && Locked(w, w', id, owner, market, expiresAt, wait, ttlSec, until)
  {
    var w1 := CanCreateAndPrepare(env, w, id, owner, market, expiresAt, wait, ttlSec);
    var b := BodyFor(env, id, owner, env.iso(until), w1.now, sign);
    BodyPasses(env, w1, id, env.iso(until), until, sign);
    w' := CanLock(env, w1, id, b);
    LockedRows(w, w1, w', id, owner, market, expiresAt, wait, ttlSec, until);
  }

  predicate Refused(env: Env, w: World, id: string, b: LockBody, reason: string) {
    LockWalletOp(env, w.sea, w.now, id, b) == (w.sea, Fail(reason))
  }

  /** While the lock lives, a request with another spelling is refused and nothing changes. */
  lemma OtherSpellingRefused(env: Env, w: World, id: string, b: LockBody)
    requires id in w.sea.rows && LockLive(w.sea.rows[id], w.now)
    requires b.until != env.iso(w.sea.rows[id].walletLockUntilAt.value)
    requires LockRefusal(env, w.now, id, w.sea.rows[id], b).None?
    ensures Refused(env, w, id, b, "wallet_lock_until_mismatch")
  {
  }

  /** The request is accepted at `w`, and refused when it is repeated at `w'` while its own lock lives. */
  predicate RefusedOnRepeat(env: Env, w: World, w': World, id: string, b: LockBody) {
    && LockWalletOp(env, w.sea, w.now, id, b).1.Ok?
    && At(w'.sea.rows, id, READY) && LockLive(w'.sea.rows[id], w'.now) && Refused(env, w', id, b, "wallet_lock_until_mismatch")
  }

  /** What the checks before the lock passed they pass again, until the quote or the lock ends. */
  lemma PassesAgain(env: Env, now: int, later: int, id: string, x: Intent, x': Intent, b: LockBody)
    requires LockRefusal(env, now, id, x, b).None? && now <= later < env.parse(b.until).value && !TtlOver(x, later)
    requires x' == x.(walletLockUntilAt := x'.walletLockUntilAt, updatedAt := x'.updatedAt)
    ensures LockRefusal(env, later, id, x', b).None?
  {
  }

  lemma LockThenRepeat(env: Env, w: World, id: string, b: LockBody, more: nat) returns (w': World)
    requires Reachable(env, w) && Lockable(env, w, id, b) && !LockLive(w.sea.rows[id], w.now)
    requires b.until != env.iso(env.parse(b.until).value)
    requires w.now + more < env.parse(b.until).value && !TtlOver(w.sea.rows[id], w.now + more)
    ensures Reachable(env, w') && w' == Next(env, w, LockWallet(id, b)).(now := w.now + more)
    ensures RefusedOnRepeat(env, w, w', id, b)
  {
    var w1 := CanLock(env, w, id, b);
    CanWait(env, w1, more);
    w' := w1.(now := w1.now + more);
    PassesAgain(env, w.now, w'.now, id, w.sea.rows[id], w'.sea.rows[id], b);
    OtherSpellingRefused(env, w', id, b);
  }

  /** A first intent, prepared at once: a signed request may spell the lock's end as it likes. */
  lemma FirstLockable(env: Env, now: int, owner: Address, text: string, until: int, more: nat, sign: string -> string)
    returns (w: World, b: LockBody)
    requires Ideal(env) && now > 0 && BarFree(owner) && Signs(env, owner, sign) && env.parse(text) == Some(until)
    requires now + more < until <= now + LOCK_SKEW_SEC * 1000
    ensures Reachable(env, w) && w.now == now && b.until == text && Lockable(env, w, "a", b)
    ensures !LockLive(w.sea.rows["a"], now) && w.sea.rows["a"].preparedQuoteAt == Some(now) && !TtlOver(w.sea.rows["a"], now + more)
  {
    StartReachable(env, now);
    w := CanCreateAndPrepare(env, Start(now), "a", owner, "M", now + 60001, 0, 60);
    b := BodyFor(env, "a", owner, text, now, sign);
    BodyPasses(env, w, "a", text, until, sign);
  }

  /** A request that spells its end in another way than the service: in a run the protocol can take it is
      accepted, and refused when it is repeated `more` milliseconds later, while the lock lives. */
  lemma RetryIsRefused(env: Env, now: int, owner: Address, text: string, until: int, more: nat, sign: string -> string)
    requires Ideal(env) && now > 0 && BarFree(owner) && Signs(env, owner, sign)
    requires env.parse(text) == Some(until) && text != env.iso(until)
    requires now + more < until <= now + LOCK_SKEW_SEC * 1000
    ensures exists w: World, w': World, b: LockBody ::
              && Reachable(env, w) && Reachable(env, w') && b.until == text
              && w' == Next(env, w, LockWallet("a", b)).(now := w.now + more) && RefusedOnRepeat(env, w, w', "a", b)
  {
    var w, b := FirstLockable(env, now, owner, text, until, more, sign);
    var w' := LockThenRepeat(env, w, "a", b, more);
  }

  lemma CanMark(env: Env, w: World, id: string, tx: TxHash) returns (w': World)
    requires Reachable(env, w) && At(w.sea.rows, id, READY) && w.trades == []
    requires w.sea.rows[id].walletLockUntilAt.Some? && w.sea.rows[id].preparedQuoteAt.Some?
    requires w.now <= w.sea.rows[id].walletLockUntilAt.value + MARK_GRACE_MS
    ensures Reachable(env, w') && w'.now == w.now && w'.trades == [] && w'.epochs == w.epochs
    ensures w'.sea.rows == w.sea.rows[id := w.sea.rows[id].(status := EXECUTING, linkedTxHash := Some(tx), updatedAt := w.now)]
    ensures w'.sea.log.Keys == w.sea.log.Keys + {id}
  {
    var x := w.sea.rows[id];
    var token := TokenOf(env, id, x.owner, x.walletLockUntilAt.value, x.preparedQuoteAt.value);
    StepReachable(env, w, MarkExecuting(id, tx, token, false));
    w' := MarkStep(env, w, id, tx, token, false);
  }

  /** One intent more, waiting on a transaction; the others are as they were. */
  predicate Waiting(w: World, w': World, id: string, owner: Address, market: Symbol, tx: TxHash) {
    && w'.now == w.now && w'.trades == [] && Known(w') == Known(w) + {id}
    && Awaits(w'.sea.rows, id, tx, market, owner)
    && forall other :: other in w.sea.rows && other != id ==> other in w'.sea.rows && w'.sea.rows[other] == w.sea.rows[other]
  }

  lemma WaitingRows(w: World, w1: World, w': World, id: string, owner: Address, market: Symbol, tx: TxHash)
    requires Locked(w, w1, id, owner, market, w.now + 100000, 0, 60, w.now + 1000)
    requires w'.now == w1.now && w'.trades == [] && w'.epochs == w1.epochs && w'.sea.log.Keys == w1.sea.log.Keys + {id}
    requires w'.sea.rows == w1.sea.rows[id := w1.sea.rows[id].(status := EXECUTING, linkedTxHash := Some(tx), updatedAt := w1.now)]
    ensures Waiting(w, w', id, owner, market, tx)
  {
  }

  /** A new intent can be brought to wait on a transaction. */
  lemma CanAwait(env: Env, w: World, id: string, owner: Address, market: Symbol, tx: TxHash, sign: string -> string)
    returns (w': World)
    requires Ideal(env) && Signs(env, owner, sign)
    requires Reachable(env, w) && id !in Known(w) && BarFree(id) && BarFree(owner) && w.trades == []
    ensures Reachable(env, w') && Waiting(w, w', id, owner, market, tx)
  {
    var w1 := CanOpen(env, w, id, owner, market, w.now + 100000, 0, 60, w.now + 1000, sign);
    w' := CanMark(env, w1, id, tx);
    WaitingRows(w, w1, w', id, owner, market, tx);
  }

  /** Two markers on one transaction: in a run the protocol can take, one fill closes only one of them. */
  lemma OneFillClosesOneIntent(env: Env, now: int, owner: Address, market: Symbol, tx: TxHash, sign: string -> string)
    requires Ideal(env) && now > 0 && BarFree(owner) && Signs(env, owner, sign)
    ensures exists w, t :: Reachable(env, w) && Enabled(w, WatchFill(t, Some("a"))) && t.txHash == Some(tx)
                           && Awaits(w.sea.rows, "a", tx, t.market, t.taker) && Awaits(w.sea.rows, "b", tx, t.market, t.taker)
                           && Reachable(env, Next(env, w, WatchFill(t, Some("a"))))
                           && ExecutedWith(Next(env, w, WatchFill(t, Some("a"))), "a", tx)
                           && Awaits(Next(env, w, WatchFill(t, Some("a"))).sea.rows, "b", tx, t.market, t.taker)
  {
    StartReachable(env, now);
    var w1 := CanAwait(env, Start(now), "a", owner, market, tx, sign);
    var w := CanAwait(env, w1, "b", owner, market, tx, sign);
    var t := Desk.Trade(market, 1, owner, 1, 1, Some(tx));
    assert Awaits(w.sea.rows, "a", tx, market, owner);
    StepReachable(env, w, WatchFill(t, Some("a")));
    FillEffect(env, w, t, Some("a"), tx);
  }

  // ---------------------------------------------------------------------------
  // Monitor and marker at once
  // ---------------------------------------------------------------------------

  /** The monitor moves the row, and a marker with the current token is still accepted. */
  predicate BothAct(env: Env, w: World, id: string, rearmSec: nat, tx: TxHash, reverted: bool)
    requires id in w.sea.rows && w.sea.rows[id].walletLockUntilAt.Some? && w.sea.rows[id].preparedQuoteAt.Some?
  {
    var x := w.sea.rows[id];
    && Next(env, w, MonitorReady(id, rearmSec)) != w
    && MarkExecutingOp(env, w.sea, w.trades, w.now, id, tx,
                       TokenOf(env, id, x.owner, x.walletLockUntilAt.value, x.preparedQuoteAt.value), reverted).1.Ok?
  }

  lemma MonitorActsIff(env: Env, w: World, id: string, rearmSec: nat)
    requires Watched(w, id) && w.sea.rows[id].preparedQuoteAt.Some? && w.sea.rows[id].preparedQuoteAt.value > 0
    ensures MonitorStep(w, id, rearmSec) != w <==> w.now > w.sea.rows[id].expiresAt || TakenBack(w, w.sea.rows[id])
  {
    MonitorMoves(w, id, rearmSec);
    if w.now <= w.sea.rows[id].expiresAt && !TakenBack(w, w.sea.rows[id]) {
      MonitorIdle(env, w, id, rearmSec);
    }
  }

  /** The marker looks at the lock and its grace and never at the expiry; the monitor puts the expiry
      first and ends the grace one instant earlier. Both act exactly from the expiry to the end of
      the grace, and, when the intent has not expired, at the one instant where the grace ends with
      the quote's time to live over. */
  lemma BothMayActIff(env: Env, w: World, id: string, rearmSec: nat, tx: TxHash, reverted: bool)
    requires Reachable(env, w) && At(w.sea.rows, id, READY) && w.sea.rows[id].walletLockUntilAt.Some?
    ensures w.sea.rows[id].preparedQuoteAt.Some?
    ensures var x, end := w.sea.rows[id], w.sea.rows[id].walletLockUntilAt.value + MARK_GRACE_MS;
            BothAct(env, w, id, rearmSec, tx, reverted)
            <==> x.expiresAt < w.now <= end || (w.now == end && w.now <= x.expiresAt && TtlOver(x, w.now))
  {
    ReachableHasInv(env, w);
    ReadyIsMarket(w, id, w.sea.rows[id]);
    ReadyHasEpoch(w, id, w.sea.rows[id]);
    MonitorActsIff(env, w, id, rearmSec);
    CurrentTokenTakenIff(env, w, id, tx, reverted);
    assert Next(env, w, MonitorReady(id, rearmSec)) == MonitorStep(w, id, rearmSec);
  }

  lemma CanOpenFirst(env: Env, now: int, owner: Address, wait: nat, until: int, sign: string -> string) returns (w: World)
    requires Ideal(env) && now > 0 && BarFree(owner) && Signs(env, owner, sign)
    requires now + wait < until <= now + wait + LOCK_SKEW_SEC * 1000 && until <= now + 60001
    ensures Reachable(env, w) && Locked(Start(now), w, "a", owner, "M", now + 60001, wait, 5, until)
  {
    StartReachable(env, now);
    w := CanOpen(env, Start(now), "a", owner, "M", now + 60001, wait, 5, until, sign);
  }

  /** Either way is met in a run the protocol can take: one millisecond after the expiry of an intent
      whose lock ends with it, and at the last instant of the grace of a quote that lives five seconds. */
  lemma BothDoAct(env: Env, now: int, owner: Address, rearmSec: nat, tx: TxHash, sign: string -> string, expired: bool)
    requires Ideal(env) && now > 0 && BarFree(owner) && Signs(env, owner, sign)
    ensures exists w :: Reachable(env, w) && At(w.sea.rows, "a", READY) && w.sea.rows["a"].walletLockUntilAt.Some?
                        && w.sea.rows["a"].preparedQuoteAt.Some? && expired == (w.now > w.sea.rows["a"].expiresAt)
                        && BothAct(env, w, "a", rearmSec, tx, false)
  {
    var locked, more := Start(now), if expired then 5002 else 55000;
    if expired {
      locked := CanOpenFirst(env, now, owner, 55000, now + 60001, sign);
    } else {
      locked := CanOpenFirst(env, now, owner, 0, now + 10000, sign);
    }
    CanWait(env, locked, more);
    var w := locked.(now := locked.now + more);
    BothMayActIff(env, w, "a", rearmSec, tx, false);
    assert At(w.sea.rows, "a", READY);
  }
}
