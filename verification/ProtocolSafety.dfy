/** Every step keeps the protocol's invariant, so every reachable world has it. */
module ProtocolSafety {
  import opened Prelude
  import opened Intents
  import opened Tokens
  import opened Sea
  import opened Protocol
  import Desk

  /** A row that ends: cancelled, expired, failed or placed, with its event. */
  predicate Ends(x: Intent, x': Intent, e: Event) {
    && x'.owner == x.owner && x'.market == x.market && x'.kind == x.kind && x'.expiresAt == x.expiresAt
    && x'.walletLockUntilAt == x.walletLockUntilAt
    && x'.status == StatusAfter(e) && Terminal(x'.status) && x'.status != EXECUTED
    && (x'.status == PLACED ==> x.kind == CL)
    && (x'.status == FAILED || x'.linkedTxHash.None?)
  }

  lemma EndKeeps(env: Env, w: World, id: string, x': Intent, e: Event)
    requires Inv(env, w) && id in w.sea.rows && Ends(w.sea.rows[id], x', e)
    ensures Inv(env, Updated(w, id, x', [e]))
  {
    EndFits(w, id, w.sea.rows[id], x', e);
    UpdateKeepsInv(env, w, id, x', [e]);
  }

  lemma EndFits(w: World, id: string, x: Intent, x': Intent, e: Event)
    requires RowFits(w, id, x) && Ends(x, x', e)
    ensures KindFits(x') && TxFits(w.trades, x') && EpochFits(w.now, EpochsOf(w, id), x')
    ensures LockFits(w.now, w.minted, id, x') && LogFits(History(w.sea.log, id) + [e], x')
  {
  }

  lemma UnlinkedEnds(x: Intent, x': Intent, e: Event)
    requires x.linkedTxHash.None? && (e == Cancelled || e == Expired)
    requires x' == x.(status := StatusAfter(e), ttlSec := x'.ttlSec, preparedQuoteAt := x'.preparedQuoteAt,
                      failureReason := x'.failureReason, updatedAt := x'.updatedAt)
    ensures Ends(x, x', e)
  {
  }

  function Failing(x: Intent, reason: string, now: int): Intent {
    x.(status := FAILED, updatedAt := now, failureReason := Some(reason))
  }

  lemma FailingEnds(x: Intent, reason: string, now: int)
    ensures Ends(x, Failing(x, reason, now), Failed)
  {
  }

  lemma FailKeeps(env: Env, w: World, id: string, reason: string)
    requires Inv(env, w) && id in w.sea.rows
    ensures Inv(env, Updated(w, id, Failing(w.sea.rows[id], reason, w.now), [Failed]))
  {
    FailingEnds(w.sea.rows[id], reason, w.now);
    EndKeeps(env, w, id, Failing(w.sea.rows[id], reason, w.now), Failed);
  }

  lemma TickKeeps(env: Env, w: World, ms: nat)
    requires Inv(env, w)
    ensures Inv(env, TickStep(w, ms))
  {
    KeepInv(env, w, TickStep(w, ms), {});
  }

  lemma CreatedFits(w: World, id: string, x: Intent)
    requires BarFree(id) && BarFree(x.owner) && id !in w.sea.log && id !in w.epochs
    requires x.status == ACTIVE && x.linkedTxHash.None? && x.walletLockUntilAt.None?
    ensures RowFits(w.(sea := CreateOp(w.sea, w.now, id, x)), id, x)
  {
    assert ([] + [Created, Activated])[1] == Activated;
  }

  lemma CreateAdvances(w: World, id: string, x: Intent)
    requires id !in w.sea.rows && w.sea.log.Keys == w.sea.rows.Keys && w.epochs.Keys <= w.sea.rows.Keys
    ensures Advanced(w, w.(sea := CreateOp(w.sea, w.now, id, x)), {id})
  {
  }

  lemma CreateKeeps(env: Env, w: World, id: string, owner: Address, market: Symbol, kind: Kind, expiresAt: int)
    requires Inv(env, w) && Enabled(w, Create(id, owner, market, kind, expiresAt))
    ensures Inv(env, CreateStep(w, id, owner, market, kind, expiresAt))
  {
    var x := NewIntent(owner, market, kind, expiresAt, w.now);
    CreatedFits(w, id, x);
    CreateAdvances(w, id, x);
    KeepInv(env, w, CreateStep(w, id, owner, market, kind, expiresAt), {id});
  }

  lemma CooldownFits(w: World, id: string, x: Intent, x': Intent)
    requires RowFits(w, id, x) && x.status == ACTIVE
    requires x' == x.(cooldownUntilAt := x'.cooldownUntilAt, updatedAt := x'.updatedAt)
    ensures KindFits(x') && TxFits(w.trades, x') && EpochFits(w.now, EpochsOf(w, id), x')
    ensures LockFits(w.now, w.minted, id, x') && LogFits(History(w.sea.log, id) + [Progress], x')
  {
  }

  function NewEpoch(w: World, id: string): World {
    w.(epochs := w.epochs[id := EpochsOf(w, id) + [w.now]])
  }

  lemma PrepareReady(w: World, id: string, ttlSec: nat, debounceSec: nat)
    requires id in w.sea.rows && Due(w.sea.rows[id], w.now)
    ensures PrepareStep(w, id, Fillable, ttlSec, debounceSec)
         == Updated(NewEpoch(w, id), id,
                    w.sea.rows[id].(status := READY, ttlSec := Some(ttlSec), preparedQuoteAt := Some(w.now), updatedAt := w.now),
                    [Ready])
  {
  }

  /** A new epoch: its time is later than every earlier one, and any lock left over is past its grace. */
  lemma ReadyKeeps(env: Env, w: World, id: string, ttlSec: nat, debounceSec: nat)
    requires Inv(env, w) && id in w.sea.rows && Due(w.sea.rows[id], w.now)
    ensures Inv(env, PrepareStep(w, id, Fillable, ttlSec, debounceSec))
  {
    var x := w.sea.rows[id];
    var x' := x.(status := READY, ttlSec := Some(ttlSec), preparedQuoteAt := Some(w.now), updatedAt := w.now);
    PrepareReady(w, id, ttlSec, debounceSec);
    ReadyFits(w, id, x, x');
    UpdatedRowFits(env, NewEpoch(w, id), id, x', [Ready]);
    EpochAdvances(w, id, x');
    KeepInv(env, w, Updated(NewEpoch(w, id), id, x', [Ready]), {id});
  }

  lemma ReadyFits(w: World, id: string, x: Intent, x': Intent)
    requires RowFits(w, id, x) && x.status == ACTIVE && x.kind == CMR && w.now > 0
    requires x' == x.(status := READY, ttlSec := x'.ttlSec, preparedQuoteAt := Some(w.now), updatedAt := w.now)
    ensures KindFits(x') && TxFits(w.trades, x') && EpochFits(w.now, EpochsOf(w, id) + [w.now], x')
    ensures LockFits(w.now, w.minted, id, x') && LogFits(History(w.sea.log, id) + [Ready], x')
  {
    var was := EpochsOf(w, id);
    assert (was + [w.now])[..|was + [w.now]| - 1] == was;
  }

  lemma EpochAdvances(w: World, id: string, x': Intent)
    requires id in w.sea.rows && w.sea.log.Keys == w.sea.rows.Keys && w.epochs.Keys <= w.sea.rows.Keys
    requires x'.owner == w.sea.rows[id].owner && x'.expiresAt == w.sea.rows[id].expiresAt
    ensures Advanced(w, Updated(NewEpoch(w, id), id, x', [Ready]), {id})
  {
    var w' := Updated(NewEpoch(w, id), id, x', [Ready]);
    forall other | other in w.sea.rows && other != id
      ensures w'.sea.rows[other] == w.sea.rows[other] && History(w'.sea.log, other) == History(w.sea.log, other)
      ensures EpochsOf(w', other) == EpochsOf(w, other)
    {
    }
    assert EpochsOf(w', id) == EpochsOf(w, id) + [w.now];
  }

  lemma ShortKeeps(env: Env, w: World, id: string, ttlSec: nat, debounceSec: nat)
    requires Inv(env, w) && id in w.sea.rows && Due(w.sea.rows[id], w.now)
    ensures Inv(env, PrepareStep(w, id, Short, ttlSec, debounceSec))
  {
    var x := w.sea.rows[id];
    var x' := x.(cooldownUntilAt := Some(w.now + debounceSec * 1000), updatedAt := w.now);
    assert RowFits(w, id, x);
    CooldownFits(w, id, x, x');
    UpdateKeepsInv(env, w, id, x', [Progress]);
    PrepareShort(env, w, id, ttlSec, debounceSec, x');
  }

  lemma PrepareShort(env: Env, w: World, id: string, ttlSec: nat, debounceSec: nat, x': Intent)
    requires id in w.sea.rows && Due(w.sea.rows[id], w.now)
    requires x' == w.sea.rows[id].(cooldownUntilAt := Some(w.now + debounceSec * 1000), updatedAt := w.now)
    ensures PrepareStep(w, id, Short, ttlSec, debounceSec) == Updated(w, id, x', [Progress])
  {
  }

  lemma PrepareIdle(env: Env, w: World, id: string, verdict: Verdict, ttlSec: nat, debounceSec: nat)
    requires id in w.sea.rows && Due(w.sea.rows[id], w.now) ==> verdict == Untriggered
    ensures PrepareStep(w, id, verdict, ttlSec, debounceSec) == w
  {
  }

  lemma PrepareKeeps(env: Env, w: World, id: string, verdict: Verdict, ttlSec: nat, debounceSec: nat)
    requires Inv(env, w)
    ensures Inv(env, PrepareStep(w, id, verdict, ttlSec, debounceSec))
  {
    if id !in w.sea.rows || !Due(w.sea.rows[id], w.now) || verdict == Untriggered {
      PrepareIdle(env, w, id, verdict, ttlSec, debounceSec);
    } else if verdict == Fillable {
      ReadyKeeps(env, w, id, ttlSec, debounceSec);
    } else {
      ShortKeeps(env, w, id, ttlSec, debounceSec);
    }
  }

  /** Re-arming: the epoch is over, and so is the grace of any lock taken in it. */
  lemma RearmFits(w: World, id: string, x: Intent, x': Intent)
    requires RowFits(w, id, x) && x.status == READY && x.kind == CMR && x.preparedQuoteAt.Some?
    requires !LockShields(x, w.now) && TtlOver(x, w.now)
    requires x' == x.(status := ACTIVE, ttlSec := None, preparedQuoteAt := None,
                      cooldownUntilAt := x'.cooldownUntilAt, updatedAt := w.now)
    ensures KindFits(x') && TxFits(w.trades, x') && EpochFits(w.now, EpochsOf(w, id), x')
    ensures LockFits(w.now, w.minted, id, x') && LogFits(History(w.sea.log, id) + [Progress], x')
  {
  }

  predicate Watched(w: World, id: string) {
    At(w.sea.rows, id, READY) && w.sea.rows[id].kind == CMR
  }

  lemma ExpireKeeps(env: Env, w: World, id: string, rearmSec: nat)
    requires Inv(env, w) && Watched(w, id) && w.now > w.sea.rows[id].expiresAt
    ensures Inv(env, MonitorStep(w, id, rearmSec))
  {
    var x := w.sea.rows[id];
    var x' := x.(status := EXPIRED, ttlSec := None, preparedQuoteAt := None,
                 failureReason := Some("intent_expired_by_ts"), updatedAt := w.now);
    CancellableHasNoTx(w, id, x);
    UnlinkedEnds(x, x', Expired);
    EndKeeps(env, w, id, x', Expired);
    MonitorExpires(env, w, id, rearmSec, x');
  }

  lemma MonitorExpires(env: Env, w: World, id: string, rearmSec: nat, x': Intent)
    requires Watched(w, id) && w.now > w.sea.rows[id].expiresAt
    requires x' == w.sea.rows[id].(status := EXPIRED, ttlSec := None, preparedQuoteAt := None,
                                   failureReason := Some("intent_expired_by_ts"), updatedAt := w.now)
    ensures MonitorStep(w, id, rearmSec) == Updated(w, id, x', [Expired])
  {
  }

  /** The monitor takes a READY row back exactly when its epoch ran out and no lock shields it. */
  predicate TakenBack(w: World, x: Intent) {
    w.now <= x.expiresAt && !LockShields(x, w.now) && x.preparedQuoteAt.Some? && TtlOver(x, w.now)
  }

  lemma RearmKeeps(env: Env, w: World, id: string, rearmSec: nat)
    requires Inv(env, w) && Watched(w, id) && TakenBack(w, w.sea.rows[id])
    ensures Inv(env, MonitorStep(w, id, rearmSec))
  {
    var x := w.sea.rows[id];
    var x' := x.(status := ACTIVE, ttlSec := None, preparedQuoteAt := None,
                 cooldownUntilAt := Some(w.now + rearmSec * 1000), updatedAt := w.now);
    assert RowFits(w, id, x);
    RearmFits(w, id, x, x');
    UpdateKeepsInv(env, w, id, x', [Progress]);
    MonitorRearms(env, w, id, rearmSec, x');
  }

  lemma MonitorRearms(env: Env, w: World, id: string, rearmSec: nat, x': Intent)
    requires Watched(w, id) && TakenBack(w, w.sea.rows[id])
    requires x' == w.sea.rows[id].(status := ACTIVE, ttlSec := None, preparedQuoteAt := None,
                                   cooldownUntilAt := Some(w.now + rearmSec * 1000), updatedAt := w.now)
    ensures MonitorStep(w, id, rearmSec) == Updated(w, id, x', [Progress])
  {
  }

  lemma MonitorIdle(env: Env, w: World, id: string, rearmSec: nat)
    requires Watched(w, id) ==>
               && w.sea.rows[id].preparedQuoteAt.Some? && w.sea.rows[id].preparedQuoteAt.value > 0
               && w.now <= w.sea.rows[id].expiresAt && !TakenBack(w, w.sea.rows[id])
    ensures MonitorStep(w, id, rearmSec) == w
  {
  }

  lemma MonitorKeeps(env: Env, w: World, id: string, rearmSec: nat)
    requires Inv(env, w)
    ensures Inv(env, MonitorStep(w, id, rearmSec))
  {
    if Watched(w, id) {
      ReadyHasEpoch(w, id, w.sea.rows[id]);
    }
    if Watched(w, id) && w.now > w.sea.rows[id].expiresAt {
      ExpireKeeps(env, w, id, rearmSec);
    } else if Watched(w, id) && TakenBack(w, w.sea.rows[id]) {
      RearmKeeps(env, w, id, rearmSec);
    } else {
      MonitorIdle(env, w, id, rearmSec);
    }
  }

  lemma ReadyHasEpoch(w: World, id: string, x: Intent)
    requires RowFits(w, id, x) && x.status == READY
    ensures x.preparedQuoteAt.Some? && 0 < x.preparedQuoteAt.value <= w.now
  {
    LastIsGreatest(EpochsOf(w, id), EpochsOf(w, id)[|EpochsOf(w, id)| - 1]);
  }

  lemma CancelCases(env: Env, w: World, id: string, signature: string)
    ensures CancelOp(env, w.sea, w.now, id, signature).1.Ok? ==>
              && id in w.sea.rows && Cancellable(w.sea.rows[id].status)
              && CancelStep(env, w, id, signature)
                 == Updated(w, id, w.sea.rows[id].(status := CANCELLED, updatedAt := w.now,
                                                   failureReason := Some("user_cancel")), [Cancelled])
    ensures CancelOp(env, w.sea, w.now, id, signature).1.Fail? ==> CancelStep(env, w, id, signature) == w
  {
  }

  lemma CancelledKeeps(env: Env, w: World, id: string)
    requires Inv(env, w) && id in w.sea.rows && Cancellable(w.sea.rows[id].status)
    ensures Inv(env, Updated(w, id, w.sea.rows[id].(status := CANCELLED, updatedAt := w.now,
                                                    failureReason := Some("user_cancel")), [Cancelled]))
  {
    CancellableHasNoTx(w, id, w.sea.rows[id]);
    var x' := w.sea.rows[id].(status := CANCELLED, updatedAt := w.now, failureReason := Some("user_cancel"));
    UnlinkedEnds(w.sea.rows[id], x', Cancelled);
    EndKeeps(env, w, id, x', Cancelled);
  }

  lemma CancelKeeps(env: Env, w: World, id: string, signature: string)
    requires Inv(env, w)
    ensures Inv(env, CancelStep(env, w, id, signature))
  {
    CancelCases(env, w, id, signature);
    if CancelOp(env, w.sea, w.now, id, signature).1.Ok? {
      CancelledKeeps(env, w, id);
    }
  }

  lemma CancellableHasNoTx(w: World, id: string, x: Intent)
    requires RowFits(w, id, x) && (Cancellable(x.status) || x.status == TRIGGERED)
    ensures x.linkedTxHash.None?
  {
  }

  /** A fresh lock: what it checked, stored and handed out. */
  lemma FreshLock(env: Env, w: World, id: string, b: LockBody)
    requires LockWalletOp(env, w.sea, w.now, id, b).1.Ok? && !LockLive(w.sea.rows[id], w.now)
    ensures var x := w.sea.rows[id];
            && At(w.sea.rows, id, READY) && x.preparedQuoteAt.Some? && env.parse(b.until).Some?
            && LockInBounds(env, w.now, x, env.parse(b.until).value)
            && b.lockNonce == IssueLockNonce(env, id, x.owner, x.preparedQuoteAt.value)
            && SignedBy(env, WalletLockMessage(env, id, x.owner, b.lockNonce, b.until), b.signature, x.owner)
            && LockStep(env, w, id, b)
               == w.(sea := w.sea.(rows := w.sea.rows[id := x.(walletLockUntilAt := env.parse(b.until), updatedAt := w.now)]),
                     minted := w.minted + {Mint(id, x.owner, env.parse(b.until).value, x.preparedQuoteAt.value, b.until, b.signature)})
  {
  }

  /** Otherwise nothing is stored and nothing new is handed out. */
  lemma NoFreshLock(env: Env, w: World, id: string, b: LockBody)
    requires LockWalletOp(env, w.sea, w.now, id, b).1.Ok? ==> LockLive(w.sea.rows[id], w.now)
    ensures LockStep(env, w, id, b) == w
  {
    assert w.minted + {} == w.minted;
  }

  lemma StoreLockKeeps(env: Env, w: World, id: string, m: Mint)
    requires Inv(env, w) && At(w.sea.rows, id, READY) && MintFits(env, w, m)
    requires m.id == id && w.sea.rows[id].preparedQuoteAt == Some(m.epoch)
    ensures Inv(env, w.(sea := w.sea.(rows := w.sea.rows[id := w.sea.rows[id].(walletLockUntilAt := Some(m.lockUntil), updatedAt := w.now)]),
                        minted := w.minted + {m}))
  {
    var x := w.sea.rows[id];
    var w1 := w.(minted := w.minted + {m});
    MintKeeps(env, w, m);
    assert RowFits(w1, id, x);
    var x' := x.(walletLockUntilAt := Some(m.lockUntil), updatedAt := w.now);
    LockedFits(w1, id, x, x', m);
    UpdateKeepsInv(env, w1, id, x', []);
    AppendNothing(w1, id, x');
  }

  /** A stored lock is within the intent's life, belongs to the current epoch and is minted. */
  lemma LockKeeps(env: Env, w: World, id: string, b: LockBody)
    requires Inv(env, w)
    ensures Inv(env, LockStep(env, w, id, b))
  {
    if LockWalletOp(env, w.sea, w.now, id, b).1.Ok? && !LockLive(w.sea.rows[id], w.now) {
      FreshLock(env, w, id, b);
      var x := w.sea.rows[id];
      var m := Mint(id, x.owner, env.parse(b.until).value, x.preparedQuoteAt.value, b.until, b.signature);
      FreshMintFits(env, w, x, m);
      StoreLockKeeps(env, w, id, m);
    } else {
      NoFreshLock(env, w, id, b);
    }
  }

  lemma FreshMintFits(env: Env, w: World, x: Intent, m: Mint)
    requires m.id in w.sea.rows && x == w.sea.rows[m.id] && RowFits(w, m.id, x) && x.status == READY
    requires m.owner == x.owner && x.preparedQuoteAt == Some(m.epoch) && m.lockUntil <= x.expiresAt
    requires env.parse(m.until) == Some(m.lockUntil)
    requires SignedBy(env, WalletLockMessage(env, m.id, m.owner, IssueLockNonce(env, m.id, m.owner, m.epoch), m.until),
                      m.signature, m.owner)
    ensures MintFits(env, w, m)
  {
    assert EpochsOf(w, m.id)[|EpochsOf(w, m.id)| - 1] in EpochsOf(w, m.id);
  }

  lemma MintKeeps(env: Env, w: World, m: Mint)
    requires Inv(env, w) && MintFits(env, w, m)
    ensures Inv(env, w.(minted := w.minted + {m}))
  {
    var w' := w.(minted := w.minted + {m});
    forall n | n in w'.minted && n !in w.minted ensures MintFits(env, w', n) {
    }
    KeepInv(env, w, w', {});
  }

  lemma LockedFits(w: World, id: string, x: Intent, x': Intent, m: Mint)
    requires RowFits(w, id, x) && x.status == READY && x.preparedQuoteAt.Some?
    requires m in w.minted && (m.id, m.owner, m.epoch) == (id, x.owner, x.preparedQuoteAt.value)
    requires m.lockUntil <= x.expiresAt
    requires x' == x.(walletLockUntilAt := Some(m.lockUntil), updatedAt := x'.updatedAt)
    ensures KindFits(x') && TxFits(w.trades, x') && EpochFits(w.now, EpochsOf(w, id), x')
    ensures LockFits(w.now, w.minted, id, x') && LogFits(History(w.sea.log, id) + [], x')
  {
    assert History(w.sea.log, id) + [] == History(w.sea.log, id);
  }

  /** EXECUTING or EXECUTED under a transaction that, for EXECUTED, has its trade. */
  lemma ExecutingFits(w: World, id: string, x: Intent, x': Intent, events: seq<Event>)
    requires RowFits(w, id, x) && x.kind == CMR
    requires x'.status == EXECUTING || x'.status == EXECUTED
    requires x' == x.(status := x'.status, linkedTxHash := x'.linkedTxHash, updatedAt := x'.updatedAt)
    requires x'.linkedTxHash.Some?
    requires x'.status == EXECUTED ==> Traded(w.trades, x'.linkedTxHash.value, x.market, x.owner)
    requires events != [] && StatusAfter(events[|events| - 1]) == x'.status
    ensures KindFits(x') && TxFits(w.trades, x') && EpochFits(w.now, EpochsOf(w, id), x')
    ensures LockFits(w.now, w.minted, id, x') && LogFits(History(w.sea.log, id) + events, x')
  {
    assert (History(w.sea.log, id) + events)[|History(w.sea.log, id) + events| - 1] == events[|events| - 1];
  }

  lemma ExecutingKeeps(env: Env, w: World, id: string, x': Intent, events: seq<Event>)
    requires Inv(env, w) && id in w.sea.rows && w.sea.rows[id].kind == CMR
    requires x'.status == EXECUTING || x'.status == EXECUTED
    requires x' == w.sea.rows[id].(status := x'.status, linkedTxHash := x'.linkedTxHash, updatedAt := x'.updatedAt)
    requires x'.linkedTxHash.Some?
    requires x'.status == EXECUTED ==> Traded(w.trades, x'.linkedTxHash.value, x'.market, x'.owner)
    requires events != [] && StatusAfter(events[|events| - 1]) == x'.status
    ensures Inv(env, Updated(w, id, x', events))
  {
    ExecutingFits(w, id, w.sea.rows[id], x', events);
    UpdateKeepsInv(env, w, id, x', events);
  }

  lemma ReadyIsMarket(w: World, id: string, x: Intent)
    requires RowFits(w, id, x) && (x.status == READY || x.status == EXECUTING)
    ensures x.kind == CMR
  {
  }

  /** The three paths of an accepted marker as one row rewritten. */
  lemma AcceptedCases(w: World, id: string, tx: TxHash, reverted: bool)
    requires At(w.sea.rows, id, READY)
    ensures var x := w.sea.rows[id];
            w.(sea := MarkAccepted(w.sea, w.trades, w.now, id, tx, reverted))
            == if Traded(w.trades, tx, x.market, x.owner) then
                 Updated(w, id, x.(status := EXECUTED, linkedTxHash := Some(tx), updatedAt := w.now), [Executing, Executed])
               else if reverted then
                 Updated(w, id, Failing(x, "tx_reverted_at_marker", w.now).(linkedTxHash := Some(tx)), [Failed])
               else Updated(w, id, x.(status := EXECUTING, linkedTxHash := Some(tx), updatedAt := w.now), [Executing])
  {
  }

  lemma AcceptedFilled(env: Env, w: World, id: string, tx: TxHash)
    requires Inv(env, w) && At(w.sea.rows, id, READY)
    requires Traded(w.trades, tx, w.sea.rows[id].market, w.sea.rows[id].owner)
    ensures Inv(env, Updated(w, id, w.sea.rows[id].(status := EXECUTED, linkedTxHash := Some(tx), updatedAt := w.now),
                             [Executing, Executed]))
  {
    var x' := w.sea.rows[id].(status := EXECUTED, linkedTxHash := Some(tx), updatedAt := w.now);
    ReadyIsMarket(w, id, w.sea.rows[id]);
    ExecutingKeeps(env, w, id, x', [Executing, Executed]);
  }

  lemma AcceptedReverted(env: Env, w: World, id: string, tx: TxHash)
    requires Inv(env, w) && At(w.sea.rows, id, READY)
    ensures Inv(env, Updated(w, id, Failing(w.sea.rows[id], "tx_reverted_at_marker", w.now).(linkedTxHash := Some(tx)), [Failed]))
  {
    var x' := Failing(w.sea.rows[id], "tx_reverted_at_marker", w.now).(linkedTxHash := Some(tx));
    FailingEnds(w.sea.rows[id], "tx_reverted_at_marker", w.now);
    EndKeeps(env, w, id, x', Failed);
  }

  lemma AcceptedPending(env: Env, w: World, id: string, tx: TxHash)
    requires Inv(env, w) && At(w.sea.rows, id, READY)
    ensures Inv(env, Updated(w, id, w.sea.rows[id].(status := EXECUTING, linkedTxHash := Some(tx), updatedAt := w.now),
                             [Executing]))
  {
    var x' := w.sea.rows[id].(status := EXECUTING, linkedTxHash := Some(tx), updatedAt := w.now);
    ReadyIsMarket(w, id, w.sea.rows[id]);
    ExecutingKeeps(env, w, id, x', [Executing]);
  }

  lemma AcceptedKeeps(env: Env, w: World, id: string, tx: TxHash, reverted: bool)
    requires Inv(env, w) && At(w.sea.rows, id, READY)
    ensures Inv(env, w.(sea := MarkAccepted(w.sea, w.trades, w.now, id, tx, reverted)))
  {
    AcceptedCases(w, id, tx, reverted);
    if Traded(w.trades, tx, w.sea.rows[id].market, w.sea.rows[id].owner) {
      AcceptedFilled(env, w, id, tx);
    } else if reverted {
      AcceptedReverted(env, w, id, tx);
    } else {
      AcceptedPending(env, w, id, tx);
    }
  }

  /** A marker either is accepted or changes nothing. */
  lemma MarkCases(env: Env, w: World, id: string, tx: TxHash, token: string, reverted: bool)
    ensures MarkStep(env, w, id, tx, token, reverted)
         == if At(w.sea.rows, id, READY) && MarkRefusal(env, w.now, id, w.sea.rows[id], token).None? then
              w.(sea := MarkAccepted(w.sea, w.trades, w.now, id, tx, reverted))
            else w
  {
  }

  lemma MarkKeeps(env: Env, w: World, id: string, tx: TxHash, token: string, reverted: bool)
    requires Inv(env, w)
    ensures Inv(env, MarkStep(env, w, id, tx, token, reverted))
  {
    MarkCases(env, w, id, tx, token, reverted);
    if MarkStep(env, w, id, tx, token, reverted) != w {
      AcceptedKeeps(env, w, id, tx, reverted);
    }
  }

  lemma TradeKeeps(env: Env, w: World, t: Desk.Trade)
    requires Inv(env, w)
    ensures Inv(env, w.(trades := w.trades + [t]))
  {
    KeepInv(env, w, w.(trades := w.trades + [t]), {});
  }

  lemma FillCases(env: Env, w: World, t: Desk.Trade, hit: Option<string>)
    requires Enabled(w, WatchFill(t, hit))
    ensures hit.Some? ==>
              t.txHash.Some? && At(w.sea.rows, hit.value, EXECUTING) && Awaits(w.sea.rows, hit.value, t.txHash.value, t.market, t.taker)
    ensures FillStep(w, t, hit)
         == if hit.Some? then
              Updated(w.(trades := w.trades + [t]), hit.value,
                      w.sea.rows[hit.value].(status := EXECUTED, updatedAt := w.now), [Executed])
            else w.(trades := w.trades + [t])
  {
  }

  lemma LastTradeCounts(trades: Trades, t: Desk.Trade)
    requires t.txHash.Some?
    ensures Traded(trades + [t], t.txHash.value, t.market, t.taker)
  {
    assert t in trades + [t];
  }

  lemma WatchFillKeeps(env: Env, w: World, t: Desk.Trade, hit: Option<string>)
    requires Inv(env, w) && Enabled(w, WatchFill(t, hit))
    ensures Inv(env, FillStep(w, t, hit))
  {
    FillCases(env, w, t, hit);
    TradeKeeps(env, w, t);
    if hit.Some? {
      LastTradeCounts(w.trades, t);
      CloseKeeps(env, w.(trades := w.trades + [t]), t, hit.value);
    }
  }

  lemma CloseKeeps(env: Env, w: World, t: Desk.Trade, id: string)
    requires Inv(env, w) && t.txHash.Some? && Traded(w.trades, t.txHash.value, t.market, t.taker)
    requires Awaits(w.sea.rows, id, t.txHash.value, t.market, t.taker)
    ensures Inv(env, Updated(w, id, w.sea.rows[id].(status := EXECUTED, updatedAt := w.now), [Executed]))
  {
    var x := w.sea.rows[id];
    var x' := x.(status := EXECUTED, updatedAt := w.now);
    ReadyIsMarket(w, id, x);
    ExecutingKeeps(env, w, id, x', [Executed]);
  }

  lemma RevertCases(w: World, tx: TxHash, id: string)
    requires At(w.sea.rows, id, EXECUTING) && w.sea.rows[id].linkedTxHash == Some(tx)
    ensures RevertStep(w, tx, Some(id)) == Updated(w, id, Failing(w.sea.rows[id], "tx_reverted", w.now), [Failed])
  {
  }

  lemma WatchRevertKeeps(env: Env, w: World, tx: TxHash, market: Symbol, owner: Address, hit: Option<string>)
    requires Inv(env, w) && Enabled(w, WatchRevert(tx, market, owner, hit))
    ensures Inv(env, RevertStep(w, tx, hit))
  {
    if hit.Some? {
      RevertCases(w, tx, hit.value);
      FailKeeps(env, w, hit.value, "tx_reverted");
    }
  }

  lemma SweepKeeps(env: Env, w: World, ids: set<string>, to: IntentStatus, reason: string, e: Event)
    requires Inv(env, w) && ids <= w.sea.rows.Keys && StatusAfter(e) == to && (to == FAILED || to == EXPIRED)
    requires forall id :: id in ids && to == EXPIRED ==> w.sea.rows[id].linkedTxHash.None?
    ensures Inv(env, w.(sea := NotedAll(w.sea, Swept(w.sea.rows, ids, to, reason, w.now), ids, e)))
  {
    var w' := w.(sea := NotedAll(w.sea, Swept(w.sea.rows, ids, to, reason, w.now), ids, e));
    forall id | id in ids ensures RowFits(w', id, w'.sea.rows[id]) {
      assert RowFits(w, id, w.sea.rows[id]);
      EndFits(w, id, w.sea.rows[id], w'.sea.rows[id], e);
      assert History(w'.sea.log, id) == History(w.sea.log, id) + [e];
    }
    SweepAdvances(w, ids, to, reason, e);
    KeepInv(env, w, w', ids);
  }

  lemma SweepAdvances(w: World, ids: set<string>, to: IntentStatus, reason: string, e: Event)
    requires ids <= w.sea.rows.Keys && w.sea.log.Keys == w.sea.rows.Keys && w.epochs.Keys <= w.sea.rows.Keys
    ensures Advanced(w, w.(sea := NotedAll(w.sea, Swept(w.sea.rows, ids, to, reason, w.now), ids, e)), ids)
  {
  }

  lemma SweepStaleKeeps(env: Env, w: World, ids: set<string>, thresholdMs: nat)
    requires Inv(env, w) && Enabled(w, SweepStale(ids, thresholdMs))
    ensures Inv(env, SweepStaleStep(w, ids))
  {
    SweepKeeps(env, w, ids, FAILED, "stale_pending", Failed);
  }

  lemma SweepDueKeeps(env: Env, w: World, ids: set<string>)
    requires Inv(env, w) && Enabled(w, SweepDue(ids))
    ensures Inv(env, SweepDueStep(w, ids))
  {
    forall id | id in ids ensures w.sea.rows[id].linkedTxHash.None? {
      assert RowFits(w, id, w.sea.rows[id]);
    }
    SweepKeeps(env, w, ids, EXPIRED, "intent_expired_by_ts", Expired);
  }

  lemma LatchFits(w: World, id: string, x: Intent, x': Intent)
    requires RowFits(w, id, x) && x.status == ACTIVE && x.kind == CL
    requires x' == x.(status := TRIGGERED, updatedAt := x'.updatedAt)
    ensures KindFits(x') && TxFits(w.trades, x') && EpochFits(w.now, EpochsOf(w, id), x')
    ensures LockFits(w.now, w.minted, id, x') && LogFits(History(w.sea.log, id) + [], x')
  {
    assert History(w.sea.log, id) + [] == History(w.sea.log, id);
  }

  lemma LatchKeeps(env: Env, w: World, id: string)
    requires Inv(env, w)
    ensures Inv(env, LatchStep(w, id))
  {
    if LatchOp(w.sea, w.now, id).1 {
      var x := w.sea.rows[id];
      assert RowFits(w, id, x);
      var x' := x.(status := TRIGGERED, updatedAt := w.now);
      LatchFits(w, id, x, x');
      UpdateKeepsInv(env, w, id, x', []);
      AppendNothing(w, id, x');
    }
  }

  lemma FirePlacedCases(w: World, id: string, hash: Hash)
    requires At(w.sea.rows, id, TRIGGERED)
    ensures FirePlacedStep(w, id, hash)
         == Updated(w, id, w.sea.rows[id].(status := PLACED, linkedOrderHash := Some(hash), updatedAt := w.now), [Placed])
  {
  }

  lemma FireFailedCases(w: World, id: string, reason: string)
    requires At(w.sea.rows, id, TRIGGERED)
    ensures FireFailedStep(w, id, reason) == Updated(w, id, Failing(w.sea.rows[id], reason, w.now), [Failed])
  {
  }

  lemma TriggeredIsLimit(w: World, id: string, x: Intent)
    requires RowFits(w, id, x) && x.status == TRIGGERED
    ensures x.kind == CL && x.linkedTxHash.None?
  {
  }

  lemma PlacedEnds(x: Intent, x': Intent)
    requires x.kind == CL && x.linkedTxHash.None?
    requires x' == x.(status := PLACED, linkedOrderHash := x'.linkedOrderHash, updatedAt := x'.updatedAt)
    ensures Ends(x, x', Placed)
  {
  }

  lemma FirePlacedKeeps(env: Env, w: World, id: string, hash: Hash)
    requires Inv(env, w) && At(w.sea.rows, id, TRIGGERED)
    ensures Inv(env, FirePlacedStep(w, id, hash))
  {
    var x' := w.sea.rows[id].(status := PLACED, linkedOrderHash := Some(hash), updatedAt := w.now);
    FirePlacedCases(w, id, hash);
    TriggeredIsLimit(w, id, w.sea.rows[id]);
    PlacedEnds(w.sea.rows[id], x');
    EndKeeps(env, w, id, x', Placed);
  }

  lemma FireFailedKeeps(env: Env, w: World, id: string, reason: string)
    requires Inv(env, w) && At(w.sea.rows, id, TRIGGERED)
    ensures Inv(env, FireFailedStep(w, id, reason))
  {
    FireFailedCases(w, id, reason);
    FailKeeps(env, w, id, reason);
  }

  /** What owners and fire calls do. */
  predicate OfCaller(s: Step) {
    s.Create? || s.Cancel? || s.LockWallet? || s.MarkExecuting? || s.Latch? || s.FirePlaced? || s.FireFailed?
  }

  lemma CallerKeepsInv(env: Env, w: World, s: Step)
    requires Inv(env, w) && Enabled(w, s) && OfCaller(s)
    ensures Inv(env, Next(env, w, s))
  {
    match s
    case Create(id, owner, market, kind, expiresAt) => CreateKeeps(env, w, id, owner, market, kind, expiresAt);
    case Cancel(id, signature) => CancelKeeps(env, w, id, signature);
    case LockWallet(id, body) => LockKeeps(env, w, id, body);
    case MarkExecuting(id, tx, token, reverted) => MarkKeeps(env, w, id, tx, token, reverted);
    case Latch(id) => LatchKeeps(env, w, id);
    case FirePlaced(id, hash) => FirePlacedKeeps(env, w, id, hash);
    case FireFailed(id, reason) => FireFailedKeeps(env, w, id, reason);
  }

  predicate OfWatcher(s: Step) {
    s.WatchFill? || s.WatchRevert?
  }

  lemma WatcherKeepsInv(env: Env, w: World, s: Step)
    requires Inv(env, w) && Enabled(w, s) && OfWatcher(s)
    ensures Inv(env, Next(env, w, s))
  {
    match s
    case WatchFill(trade, hit) => WatchFillKeeps(env, w, trade, hit);
    case WatchRevert(tx, market, owner, hit) => WatchRevertKeeps(env, w, tx, market, owner, hit);
  }

  /** What the clock, the monitor and the sweepers do. */
  lemma BackgroundKeepsInv(env: Env, w: World, s: Step)
    requires Inv(env, w) && Enabled(w, s) && !OfCaller(s) && !OfWatcher(s)
    ensures Inv(env, Next(env, w, s))
  {
    match s
    case Tick(ms) => TickKeeps(env, w, ms);
    case Prepare(id, verdict, ttlSec, debounceSec) => PrepareKeeps(env, w, id, verdict, ttlSec, debounceSec);
    case MonitorReady(id, rearmSec) => MonitorKeeps(env, w, id, rearmSec);
    case SweepStale(ids, thresholdMs) => SweepStaleKeeps(env, w, ids, thresholdMs);
    case SweepDue(ids) => SweepDueKeeps(env, w, ids);
  }

  /** No step breaks the invariant. */
  lemma NextKeepsInv(env: Env, w: World, s: Step)
    requires Inv(env, w) && Enabled(w, s)
    ensures Inv(env, Next(env, w, s))
  {
    if OfCaller(s) {
      CallerKeepsInv(env, w, s);
    } else if OfWatcher(s) {
      WatcherKeepsInv(env, w, s);
    } else {
      BackgroundKeepsInv(env, w, s);
    }
  }

  lemma {:induction false} RunKeepsInv(env: Env, now: int, steps: seq<Step>)
    requires now > 0 && Legal(env, Start(now), steps)
    ensures Inv(env, Run(env, Start(now), steps))
  {
    if steps != [] {
      RunKeepsInv(env, now, steps[..|steps| - 1]);
      NextKeepsInv(env, Run(env, Start(now), steps[..|steps| - 1]), steps[|steps| - 1]);
    }
  }

  /** Every world any legal run reaches has the invariant. */
  lemma ReachableHasInv(env: Env, w: World)
    requires Reachable(env, w)
    ensures Inv(env, w)
  {
    var now, steps :| now > 0 && Legal(env, Start(now), steps) && w == Run(env, Start(now), steps);
    RunKeepsInv(env, now, steps);
  }
}
