/** What needs the owner's word: cancelling, locking and marking an intent, each with the exact condition
    under which it is granted, and over whole runs.
    Models apps/api/src/sea/intent.service.ts:128-508 with the owner messages of
    apps/api/src/sea/intent-validator.service.ts:135-167. */
module OwnerConsent {
  import opened Prelude
  import opened Intents
  import opened Tokens
  import opened Sea
  import opened Protocol
  import opened ProtocolSafety
  import opened ProtocolTheorems
  import Desk

  /** The signature over `message` recovers to `owner`, or signature checks are switched off. */
  predicate Consents(env: Env, owner: Address, message: string, signature: string) {
    env.devSkip || env.recover(message, signature) == Some(owner)
  }

  // ---------------------------------------------------------------------------
  // Cancelling
  // ---------------------------------------------------------------------------

  /** A cancel succeeds exactly when the intent is there and still waiting and its owner signed for
      cancelling this very intent; the row is then cancelled, and otherwise nothing changes. */
  lemma CancelIff(env: Env, w: Ledger, now: int, id: string, signature: string)
    ensures CancelOp(env, w, now, id, signature).1.Ok? <==>
              && id in w.rows && w.rows[id].status in {DRAFT, ACTIVE, READY}
              && Consents(env, w.rows[id].owner, CancelMessage(env, id, w.rows[id].owner), signature)
    ensures CancelOp(env, w, now, id, signature).1.Ok? ==>
              CancelOp(env, w, now, id, signature).0.rows
              == w.rows[id := w.rows[id].(status := CANCELLED, failureReason := Some("user_cancel"), updatedAt := now)]
    ensures CancelOp(env, w, now, id, signature).1.Fail? ==> CancelOp(env, w, now, id, signature).0 == w
  {
  }

  lemma Suffix(prefix: string, a: string, b: string)
    requires prefix + a == prefix + b
    ensures a == b
  {
    assert (prefix + a)[|prefix|..] == a && (prefix + b)[|prefix|..] == b;
  }

  lemma BarFreeJoined(prefix: string, a: string)
    requires BarFree(prefix) && BarFree(a)
    ensures BarFree(prefix + a)
  {
  }

  function CancelFields(chainId: string, id: string, owner: Address): seq<string> {
    ["SEA-CANCEL-INTENT", "v=1", "chainId=" + chainId, "owner=" + owner, "intentId=" + id]
  }

  lemma CancelFieldsAreBarFree(chainId: string, id: string, owner: Address)
    requires BarFree(chainId) && BarFree(id) && BarFree(owner)
    ensures forall s :: s in CancelFields(chainId, id, owner) ==> BarFree(s)
  {
    BarFreeJoined("chainId=", chainId);
    BarFreeJoined("owner=", owner);
    BarFreeJoined("intentId=", id);
  }

  /** A signature for cancelling one intent is one for no other intent, owner or chain. */
  lemma CancelMessageBinds(env: Env, id: string, owner: Address, env': Env, id': string, owner': Address)
    requires BarFree(env.chainId) && BarFree(id) && BarFree(owner)
    requires BarFree(env'.chainId) && BarFree(id') && BarFree(owner')
    requires CancelMessage(env, id, owner) == CancelMessage(env', id', owner')
    ensures id == id' && owner == owner' && env.chainId == env'.chainId
  {
    var f, f' := CancelFields(env.chainId, id, owner), CancelFields(env'.chainId, id', owner');
    CancelFieldsAreBarFree(env.chainId, id, owner);
    CancelFieldsAreBarFree(env'.chainId, id', owner');
    JoinInjective(f, f');
    assert f[2] == f'[2] && f[3] == f'[3] && f[4] == f'[4];
    Suffix("chainId=", env.chainId, env'.chainId);
    Suffix("owner=", owner, owner');
    Suffix("intentId=", id, id');
  }

  /** Nor is it one for locking anything. */
  lemma CancelIsNoLock(env: Env, id: string, owner: Address, id': string, owner': Address, nonce: string, until: string)
    requires BarFree(env.chainId) && BarFree(id) && BarFree(owner) && BarFree(id') && BarFree(owner')
    requires BarFree(nonce) && BarFree(until)
    ensures CancelMessage(env, id, owner) != WalletLockMessage(env, id', owner', nonce, until)
  {
    var f := CancelFields(env.chainId, id, owner);
    var f' := ["sea:wallet-lock", id', owner', env.chainId, nonce, until];
    CancelFieldsAreBarFree(env.chainId, id, owner);
    if CancelMessage(env, id, owner) == WalletLockMessage(env, id', owner', nonce, until) {
      JoinInjective(f, f');
      assert false;
    }
  }

  /** The step is a cancel of this intent under its owner's signature. */
  predicate CancelledBy(env: Env, s: Step, id: string, owner: Address) {
    s.Cancel? && s.id == id && Consents(env, owner, CancelMessage(env, id, owner), s.signature)
  }

  /** What one step may do to an intent that is there: its owner stays, and it is cancelled by such a step only. */
  predicate Consensual(env: Env, w: World, w': World, s: Step, id: string) {
    && (id in w.sea.rows ==> id in w'.sea.rows && w'.sea.rows[id].owner == w.sea.rows[id].owner)
    && (At(w'.sea.rows, id, CANCELLED) && !At(w.sea.rows, id, CANCELLED) ==>
          id in w.sea.rows && CancelledBy(env, s, id, w.sea.rows[id].owner))
  }

  lemma MarkIsConsensual(env: Env, w: World, s: Step, id: string)
    requires s.MarkExecuting?
    ensures Consensual(env, w, Next(env, w, s), s, id)
  {
    MarkCases(env, w, s.id, s.tx, s.token, s.reverted);
    if At(w.sea.rows, s.id, READY) {
      AcceptedCases(w, s.id, s.tx, s.reverted);
    }
  }

  lemma RequestIsConsensual(env: Env, w: World, s: Step, id: string)
    requires s.Cancel? || s.LockWallet?
    ensures Consensual(env, w, Next(env, w, s), s, id)
  {
  }

  lemma FireIsConsensual(env: Env, w: World, s: Step, id: string)
    requires Enabled(w, s) && OfCaller(s) && !s.MarkExecuting? && !s.Cancel? && !s.LockWallet?
    ensures Consensual(env, w, Next(env, w, s), s, id)
  {
  }

  lemma TickIsConsensual(env: Env, w: World, s: Step, id: string)
    requires Enabled(w, s) && !OfCaller(s)
    ensures Consensual(env, w, Next(env, w, s), s, id)
  {
  }

  lemma StepIsConsensual(env: Env, w: World, s: Step, id: string)
    requires Enabled(w, s)
    ensures Consensual(env, w, Next(env, w, s), s, id)
  {
    if s.MarkExecuting? {
      MarkIsConsensual(env, w, s, id);
    } else if s.Cancel? || s.LockWallet? {
      RequestIsConsensual(env, w, s, id);
    } else if OfCaller(s) {
      FireIsConsensual(env, w, s, id);
    } else {
      TickIsConsensual(env, w, s, id);
    }
  }

  /** In any run, an intent that is cancelled was cancelled by a request its owner signed. */
  lemma {:induction false} CancelledByItsOwner(env: Env, now: int, steps: seq<Step>, id: string)
    requires Legal(env, Start(now), steps) && At(Run(env, Start(now), steps).sea.rows, id, CANCELLED)
    ensures exists s :: s in steps && CancelledBy(env, s, id, Run(env, Start(now), steps).sea.rows[id].owner)
  {
    if steps != [] {
      var front, s := steps[..|steps| - 1], steps[|steps| - 1];
      var w := Run(env, Start(now), front);
      StepIsConsensual(env, w, s, id);
      if At(w.sea.rows, id, CANCELLED) {
        CancelledByItsOwner(env, now, front, id);
        var c :| c in front && CancelledBy(env, c, id, w.sea.rows[id].owner);
        assert c in steps;
      } else {
        assert s in steps;
      }
    }
  }

  // ---------------------------------------------------------------------------
  // Locking
  // ---------------------------------------------------------------------------

  /** Seconds a prepared quote lives: what its snapshot says, from five to three hundred, sixty if it says
      nothing usable. */
  function LifeSecs(ttlSec: Option<int>): int {
    if ttlSec.None? || ttlSec.value <= 0 then 60
    else if ttlSec.value < 5 then 5
    else if ttlSec.value > 300 then 300
    else ttlSec.value
  }

  /** A lock request no live lock answers is granted exactly when the quote is open and fresh, the nonce is
      the one handed out for this intent, owner and preparation, the end asked for lies ahead, not past the
      intent's expiry and at most the configured length and ten seconds away, and the owner signed for
      exactly that. */
  lemma LockGrantedIff(env: Env, w: Ledger, now: int, id: string, b: LockBody)
    requires id in w.rows && (w.rows[id].walletLockUntilAt.None? || w.rows[id].walletLockUntilAt.value <= now)
    ensures var x, until := w.rows[id], env.parse(b.until);
            LockWalletOp(env, w, now, id, b).1.Ok? <==>
              && x.status == READY && x.kind == CMR && now < x.expiresAt && x.preparedQuoteAt.Some?
              && now <= x.preparedQuoteAt.value + LifeSecs(x.ttlSec) * 1000
              && b.lockNonce == IssueLockNonce(env, id, x.owner, x.preparedQuoteAt.value)
              && until.Some? && now < until.value <= x.expiresAt && until.value <= now + env.lockSecs * 1000 + 10000
              && Consents(env, x.owner, WalletLockMessage(env, id, x.owner, b.lockNonce, b.until), b.signature)
    ensures LockWalletOp(env, w, now, id, b).1.Fail? ==> LockWalletOp(env, w, now, id, b).0 == w
  {
  }

  /** What is granted: the end asked for is stored and answered with the token of this lock and epoch, which
      ends at most that far ahead. */
  lemma GrantedLock(env: Env, w: Ledger, now: int, id: string, b: LockBody)
    requires LockWalletOp(env, w, now, id, b).1.Ok?
    requires w.rows[id].walletLockUntilAt.None? || w.rows[id].walletLockUntilAt.value <= now
    ensures var x, (w', out) := w.rows[id], LockWalletOp(env, w, now, id, b);
            var until := env.parse(b.until).value;
            && x.preparedQuoteAt.Some? && now < until <= now + env.lockSecs * 1000 + 10000
            && w'.log == w.log && w'.rows == w.rows[id := x.(walletLockUntilAt := Some(until), updatedAt := now)]
            && out.value == LockReply(env.iso(until), TokenOf(env, id, x.owner, until, x.preparedQuoteAt.value))
  {
    LockGrantedIff(env, w, now, id, b);
  }

  // ---------------------------------------------------------------------------
  // Marking
  // ---------------------------------------------------------------------------

  /** A marker moves a READY intent exactly while its lock and forty-five seconds of grace last, and with the
      very token its lock request was answered with. */
  lemma MarkAcceptedIff(env: Env, w: Ledger, trades: Trades, now: int, id: string, tx: TxHash, token: string, reverted: bool)
    requires At(w.rows, id, READY)
    ensures var x := w.rows[id];
            MarkExecutingOp(env, w, trades, now, id, tx, token, reverted).1.Ok? <==>
              && x.walletLockUntilAt.Some? && x.preparedQuoteAt.Some? && now <= x.walletLockUntilAt.value + 45000
              && token == TokenOf(env, id, x.owner, x.walletLockUntilAt.value, x.preparedQuoteAt.value)
    ensures MarkExecutingOp(env, w, trades, now, id, tx, token, reverted).1.Fail? ==>
              MarkExecutingOp(env, w, trades, now, id, tx, token, reverted).0 == w
  {
  }

  /** What the marker leaves: EXECUTED when the owner's fill under this transaction is on record, FAILED when
      it is not and the receipt shows a revert, waiting otherwise; under this transaction in any case, and
      no other intent changes. */
  lemma MarkedRow(env: Env, w: Ledger, trades: Trades, now: int, id: string, tx: TxHash, token: string, reverted: bool)
    requires At(w.rows, id, READY) && MarkExecutingOp(env, w, trades, now, id, tx, token, reverted).1.Ok?
    ensures var x, (w', out) := w.rows[id], MarkExecutingOp(env, w, trades, now, id, tx, token, reverted);
            var filled := exists t :: t in trades && t.txHash == Some(tx) && t.market == x.market && t.taker == x.owner;
            var x' := x.(linkedTxHash := Some(tx), updatedAt := now,
                         status := if filled then EXECUTED else if reverted then FAILED else EXECUTING,
                         failureReason := if !filled && reverted then Some("tx_reverted_at_marker") else x.failureReason);
            w'.rows == w.rows[id := x'] && out.value == x'
  {
    var x := w.rows[id];
    if Traded(trades, tx, x.market, x.owner) {
      var t :| t in trades && Desk.Concerns(t, tx, x.market, x.owner);
      assert t.txHash == Some(tx) && t.market == x.market && t.taker == x.owner;
    }
    if exists t :: t in trades && t.txHash == Some(tx) && t.market == x.market && t.taker == x.owner {
      var t :| t in trades && t.txHash == Some(tx) && t.market == x.market && t.taker == x.owner;
      assert Desk.Concerns(t, tx, x.market, x.owner);
    }
  }

  /** Marking again: the same transaction is answered with the row as it stands, whatever the token and the
      hour, another one is a conflict, and neither changes anything. */
  lemma MarkAgain(env: Env, w: Ledger, trades: Trades, now: int, id: string, tx: TxHash, token: string, reverted: bool)
    requires id in w.rows && w.rows[id].status in {EXECUTING, EXECUTED, FAILED}
    ensures MarkExecutingOp(env, w, trades, now, id, tx, token, reverted)
         == (w, if w.rows[id].linkedTxHash == Some(tx) then Ok(w.rows[id]) else Fail("executing_tx_hash_conflict"))
  {
  }

  /** In every other status a marker is refused and changes nothing. */
  lemma MarkTooEarlyOrTooLate(env: Env, w: Ledger, trades: Trades, now: int, id: string, tx: TxHash, token: string, reverted: bool)
    requires id in w.rows ==> w.rows[id].status !in {READY, EXECUTING, EXECUTED, FAILED}
    ensures MarkExecutingOp(env, w, trades, now, id, tx, token, reverted).0 == w
    ensures MarkExecutingOp(env, w, trades, now, id, tx, token, reverted).1.Fail?
  {
  }
}
