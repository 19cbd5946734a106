/** What the protocol guarantees in every reachable world: tokens, lock windows, the marker and the
    watcher in either order, and the event log. */
module ProtocolTheorems {
  import opened Prelude
  import opened Intents
  import opened Tokens
  import opened Sea
  import opened Protocol
  import opened ProtocolSafety
  import Desk

  // ---------------------------------------------------------------------------
  // Tokens and epochs
  // ---------------------------------------------------------------------------

  function TokenFor(env: Env, m: Mint): string {
    TokenOf(env, m.id, m.owner, m.lockUntil, m.epoch)
  }

  /** The presenter cannot compute the keyed hash: what is presented was handed out, or it is no
      hash under the token secret at all. */
  ghost predicate Unforged(env: Env, w: World, token: string) {
    (exists m :: m in w.minted && token == TokenFor(env, m)) || (forall p :: token != env.hmac(env.tokenSecret, p))
  }

  /** A mint that says exactly what the row says now, signed for by the owner. */
  predicate Covers(env: Env, m: Mint, id: string, x: Intent) {
    && m.id == id && m.owner == x.owner
    && x.walletLockUntilAt == Some(m.lockUntil) && x.preparedQuoteAt == Some(m.epoch)
    && SignedBy(env, WalletLockMessage(env, id, x.owner, IssueLockNonce(env, id, x.owner, m.epoch), m.until),
                m.signature, x.owner)
    && env.parse(m.until) == Some(m.lockUntil)
  }

  /** A marker moves a READY row only with a token that a wallet lock handed out for this intent,
      this owner, the stored lock and the current epoch, on the owner's own signature. */
  lemma AcceptedTokenWasMinted(env: Env, w: World, id: string, tx: TxHash, token: string, reverted: bool)
    requires Ideal(env) && Reachable(env, w) && Unforged(env, w, token)
    requires At(w.sea.rows, id, READY)
    requires MarkExecutingOp(env, w.sea, w.trades, w.now, id, tx, token, reverted).1.Ok?
    ensures exists m :: m in w.minted && token == TokenFor(env, m) && Covers(env, m, id, w.sea.rows[id])
  {
    ReachableHasInv(env, w);
    var x := w.sea.rows[id];
    assert MarkRefusal(env, w.now, id, x, token).None?;
    var m := PresentedMint(env, w, id, x, token);
    assert MintFits(env, w, m) && RowFits(w, id, x) && RowFits(w, m.id, w.sea.rows[m.id]);
    TokenBinds(env, m.id, m.owner, m.lockUntil, m.epoch, id, x.owner, x.walletLockUntilAt.value, x.preparedQuoteAt.value);
    assert Covers(env, m, id, x);
  }

  lemma PresentedMint(env: Env, w: World, id: string, x: Intent, token: string) returns (m: Mint)
    requires Unforged(env, w, token) && MarkRefusal(env, w.now, id, x, token).None?
    ensures m in w.minted && token == TokenFor(env, m)
    ensures x.walletLockUntilAt.Some? && x.preparedQuoteAt.Some?
    ensures token == TokenOf(env, id, x.owner, x.walletLockUntilAt.value, x.preparedQuoteAt.value)
  {
    var nonce := IssueLockNonce(env, id, x.owner, x.preparedQuoteAt.value);
    var payload := Join(TokenFields(env, id, x.owner, x.walletLockUntilAt.value, nonce));
    assert token == env.hmac(env.tokenSecret, payload);
    m :| m in w.minted && token == TokenFor(env, m);
  }

  lemma {:induction false} MintsAreKept(env: Env, w: World, steps: seq<Step>)
    ensures w.minted <= Run(env, w, steps).minted
  {
    if steps != [] {
      MintsAreKept(env, w, steps[..|steps| - 1]);
      MintKept(env, Run(env, w, steps[..|steps| - 1]), steps[|steps| - 1]);
    }
  }

  lemma MintKept(env: Env, w: World, s: Step)
    ensures w.minted <= Next(env, w, s).minted
  {
  }

  lemma {:induction false} RunsCompose(env: Env, w: World, a: seq<Step>, b: seq<Step>)
    requires Legal(env, w, a) && Legal(env, Run(env, w, a), b)
    ensures Legal(env, w, a + b) && Run(env, w, a + b) == Run(env, Run(env, w, a), b)
  {
    if b == [] {
      assert a + b == a;
    } else {
      var front := b[..|b| - 1];
      RunsCompose(env, w, a, front);
      assert (a + b)[..|a + b| - 1] == a + front && (a + b)[|a + b| - 1] == b[|b| - 1];
    }
  }

  lemma StaysReachable(env: Env, w: World, steps: seq<Step>)
    requires Reachable(env, w) && Legal(env, w, steps)
    ensures Reachable(env, Run(env, w, steps))
  {
    var now, before :| now > 0 && Legal(env, Start(now), before) && w == Run(env, Start(now), before);
    RunsCompose(env, Start(now), before, steps);
  }

  /** A token dies with its epoch: in any later READY world the current epoch is its own, or is
      strictly later and the token no longer verifies, whatever lock the row still stores. */
  lemma TokensDieWithTheirEpoch(env: Env, w: World, m: Mint, steps: seq<Step>, tx: TxHash, reverted: bool)
    requires Ideal(env) && Reachable(env, w) && m in w.minted && Legal(env, w, steps)
    ensures var w' := Run(env, w, steps);
            At(w'.sea.rows, m.id, READY) && w'.sea.rows[m.id].preparedQuoteAt != Some(m.epoch) ==>
              && w'.sea.rows[m.id].preparedQuoteAt.Some? && m.epoch < w'.sea.rows[m.id].preparedQuoteAt.value
              && MarkExecutingOp(env, w'.sea, w'.trades, w'.now, m.id, tx, TokenFor(env, m), reverted).0 == w'.sea
              && MarkExecutingOp(env, w'.sea, w'.trades, w'.now, m.id, tx, TokenFor(env, m), reverted).1.Fail?
  {
    var w' := Run(env, w, steps);
    StaysReachable(env, w, steps);
    ReachableHasInv(env, w');
    MintsAreKept(env, w, steps);
    if At(w'.sea.rows, m.id, READY) && w'.sea.rows[m.id].preparedQuoteAt != Some(m.epoch) {
      StaleTokenRefused(env, w', m);
    }
  }

  lemma StaleTokenRefused(env: Env, w: World, m: Mint)
    requires Ideal(env) && Inv(env, w) && m in w.minted
    requires At(w.sea.rows, m.id, READY) && w.sea.rows[m.id].preparedQuoteAt != Some(m.epoch)
    ensures w.sea.rows[m.id].preparedQuoteAt.Some? && m.epoch < w.sea.rows[m.id].preparedQuoteAt.value
    ensures MarkRefusal(env, w.now, m.id, w.sea.rows[m.id], TokenFor(env, m)).Some?
  {
    var x := w.sea.rows[m.id];
    assert MintFits(env, w, m) && RowFits(w, m.id, x);
    var epochs := EpochsOf(w, m.id);
    LastIsGreatest(epochs, m.epoch);
    if MarkRefusal(env, w.now, m.id, x, TokenFor(env, m)).None? {
      TokenBinds(env, m.id, m.owner, m.lockUntil, m.epoch, m.id, x.owner, x.walletLockUntilAt.value, x.preparedQuoteAt.value);
      assert false;
    }
  }

  /** Each time an intent becomes READY is later than every time before. */
  lemma EpochsIncrease(env: Env, w: World, id: string)
    requires Reachable(env, w) && id in w.sea.rows
    ensures Increasing(EpochsOf(w, id))
    ensures w.sea.rows[id].status == READY ==>
              EpochsOf(w, id) != [] && Some(EpochsOf(w, id)[|EpochsOf(w, id)| - 1]) == w.sea.rows[id].preparedQuoteAt
  {
    ReachableHasInv(env, w);
    assert RowFits(w, id, w.sea.rows[id]);
  }

  // ---------------------------------------------------------------------------
  // The lock window
  // ---------------------------------------------------------------------------

  /** A marker with the current token is accepted to the last instant of the grace, and no longer. */
  lemma CurrentTokenTakenIff(env: Env, w: World, id: string, tx: TxHash, reverted: bool)
    requires At(w.sea.rows, id, READY) && w.sea.rows[id].walletLockUntilAt.Some? && w.sea.rows[id].preparedQuoteAt.Some?
    ensures var x := w.sea.rows[id];
            MarkExecutingOp(env, w.sea, w.trades, w.now, id, tx,
                            TokenOf(env, id, x.owner, x.walletLockUntilAt.value, x.preparedQuoteAt.value), reverted).1.Ok?
            <==> w.now <= x.walletLockUntilAt.value + MARK_GRACE_MS
  {
  }

  lemma MonitorLeaves(env: Env, w: World, id: string, rearmSec: nat)
    requires At(w.sea.rows, id, READY) && w.sea.rows[id].preparedQuoteAt.Some? && w.sea.rows[id].preparedQuoteAt.value > 0
    requires w.now <= w.sea.rows[id].expiresAt && !TakenBack(w, w.sea.rows[id])
    ensures Next(env, w, MonitorReady(id, rearmSec)) == w
  {
    MonitorIdle(env, w, id, rearmSec);
  }

  /** While a lock and its grace last and the intent has not expired, the monitor leaves the row
      alone and the holder of the current token is served; no lock outlasts the intent. */
  lemma LockWindowIsSafe(env: Env, w: World, id: string, rearmSec: nat, tx: TxHash, reverted: bool)
    requires Reachable(env, w) && At(w.sea.rows, id, READY) && w.sea.rows[id].walletLockUntilAt.Some?
    ensures w.sea.rows[id].preparedQuoteAt.Some?
    ensures var x := w.sea.rows[id];
            var lock := x.walletLockUntilAt.value;
            && lock <= x.expiresAt
            && (w.now < lock + MARK_GRACE_MS && w.now <= x.expiresAt ==>
                  && Next(env, w, MonitorReady(id, rearmSec)) == w
                  && MarkExecutingOp(env, w.sea, w.trades, w.now, id, tx,
                                     TokenOf(env, id, x.owner, lock, x.preparedQuoteAt.value), reverted).1.Ok?)
  {
    ReachableHasInv(env, w);
    assert RowFits(w, id, w.sea.rows[id]);
    ReadyHasEpoch(w, id, w.sea.rows[id]);
    CurrentTokenTakenIff(env, w, id, tx, reverted);
    if w.now < w.sea.rows[id].walletLockUntilAt.value + MARK_GRACE_MS && w.now <= w.sea.rows[id].expiresAt {
      MonitorLeaves(env, w, id, rearmSec);
    }
  }

  /** Exactly when the monitor moves a READY row: past its expiry it always ends, lock or no lock;
      before that it is re-armed once its epoch ran out and no lock or grace shields it. */
  lemma MonitorMovesIff(env: Env, w: World, id: string, rearmSec: nat)
    requires Reachable(env, w) && At(w.sea.rows, id, READY)
    ensures var x, x' := w.sea.rows[id], Next(env, w, MonitorReady(id, rearmSec)).sea.rows[id];
            && (x'.status == EXPIRED <==> w.now > x.expiresAt)
            && (x'.status == ACTIVE <==> TakenBack(w, x))
            && (x' == x || x'.status == EXPIRED || x'.status == ACTIVE)
  {
    ReachableHasInv(env, w);
    ReadyIsMarket(w, id, w.sea.rows[id]);
    ReadyHasEpoch(w, id, w.sea.rows[id]);
    MonitorMoves(w, id, rearmSec);
  }

  lemma MonitorMoves(w: World, id: string, rearmSec: nat)
    requires Watched(w, id) && w.sea.rows[id].preparedQuoteAt.Some? && w.sea.rows[id].preparedQuoteAt.value > 0
    ensures var x, x' := w.sea.rows[id], MonitorStep(w, id, rearmSec).sea.rows[id];
            && (x'.status == EXPIRED <==> w.now > x.expiresAt)
            && (x'.status == ACTIVE <==> TakenBack(w, x))
            && (x' == x || x'.status == EXPIRED || x'.status == ACTIVE)
  {
  }

  /** A proposal made earlier is within bounds exactly until its own time comes. */
  lemma ProposalStaysInBounds(env: Env, x: Intent, proposedAt: int, now: int)
    requires proposedAt <= now
    ensures LockInBounds(env, now, x, LockProposal(env, proposedAt, x)) <==> now < LockProposal(env, proposedAt, x)
  {
  }

  /** So a lock asked for with the proposal, the epoch's nonce and the owner's signature is granted
      for as long as the quote is fresh, the proposal lies ahead and no other lock is live. */
  lemma ProposedLockIsGranted(env: Env, w: Ledger, id: string, proposedAt: int, now: int, signature: string)
    requires Ideal(env) && At(w.rows, id, READY) && w.rows[id].kind == CMR && w.rows[id].preparedQuoteAt.Some?
    requires proposedAt <= now < LockProposal(env, proposedAt, w.rows[id])
    requires !TtlOver(w.rows[id], now) && !LockLive(w.rows[id], now)
    requires var x := w.rows[id];
             SignedBy(env, WalletLockMessage(env, id, x.owner, IssueLockNonce(env, id, x.owner, x.preparedQuoteAt.value),
                                             env.iso(LockProposal(env, proposedAt, x))), signature, x.owner)
    ensures var x := w.rows[id];
            var until := LockProposal(env, proposedAt, x);
            var nonce := IssueLockNonce(env, id, x.owner, x.preparedQuoteAt.value);
            var (w', out) := LockWalletOp(env, w, now, id, LockBody(nonce, env.iso(until), signature));
            && out == Ok(LockReply(env.iso(until), TokenOf(env, id, x.owner, until, x.preparedQuoteAt.value)))
            && w'.rows == w.rows[id := x.(walletLockUntilAt := Some(until), updatedAt := now)]
  {
    ProposalStaysInBounds(env, w.rows[id], proposedAt, now);
  }

  lemma LiveLockReplies(env: Env, w: Ledger, now: int, id: string, b: LockBody)
    requires id in w.rows && LockLive(w.rows[id], now)
    ensures LockWalletOp(env, w, now, id, b).0 == w
    ensures LockWalletOp(env, w, now, id, b).1.Ok? ==>
              var x := w.rows[id];
              && x.status == READY && x.preparedQuoteAt.Some? && b.until == env.iso(x.walletLockUntilAt.value)
              && LockWalletOp(env, w, now, id, b).1.value.token
                 == TokenOf(env, id, x.owner, x.walletLockUntilAt.value, x.preparedQuoteAt.value)
  {
  }

  lemma LiveLockIsMinted(env: Env, w: World, id: string, x: Intent)
    requires RowFits(w, id, x) && x.status == READY && x.preparedQuoteAt.Some? && LockLive(x, w.now)
    ensures exists m :: m in w.minted && m.id == id
                        && TokenFor(env, m) == TokenOf(env, id, x.owner, x.walletLockUntilAt.value, x.preparedQuoteAt.value)
  {
    var m :| m in w.minted && m.id == id && m.owner == x.owner && m.lockUntil == x.walletLockUntilAt.value
             && m.epoch == x.preparedQuoteAt.value;
  }

  /** A live lock cannot be replaced, extended or re-issued under another end: a request is refused,
      or answered with a token already handed out. */
  lemma LiveLockIsImmutable(env: Env, w: World, id: string, b: LockBody)
    requires Reachable(env, w) && id in w.sea.rows && LockLive(w.sea.rows[id], w.now)
    ensures LockWalletOp(env, w.sea, w.now, id, b).0 == w.sea
    ensures LockWalletOp(env, w.sea, w.now, id, b).1.Ok? ==>
              && b.until == env.iso(w.sea.rows[id].walletLockUntilAt.value)
              && exists m :: m in w.minted && m.id == id && LockWalletOp(env, w.sea, w.now, id, b).1.value.token == TokenFor(env, m)
  {
    ReachableHasInv(env, w);
    LiveLockReplies(env, w.sea, w.now, id, b);
    if LockWalletOp(env, w.sea, w.now, id, b).1.Ok? {
      LiveLockIsMinted(env, w, id, w.sea.rows[id]);
    }
  }

  /** Repeating an accepted request while its lock is live returns the same token exactly when the
      request spelt the time the way the service writes it. */
  lemma RetryRepeatsIff(env: Env, w: Ledger, now: int, later: int, id: string, b: LockBody)
    requires LockWalletOp(env, w, now, id, b).1.Ok? && !LockLive(w.rows[id], now) && env.parse(b.until).Some?
    requires now <= later < env.parse(b.until).value
    requires w.rows[id].preparedQuoteAt.Some? && !TtlOver(w.rows[id], later)
    ensures LockWalletOp(env, LockWalletOp(env, w, now, id, b).0, later, id, b).1 == LockWalletOp(env, w, now, id, b).1
       <==> b.until == env.iso(env.parse(b.until).value)
  {
  }

  // ---------------------------------------------------------------------------
  // Marker and watcher in either order
  // ---------------------------------------------------------------------------

  predicate ExecutedWith(w: World, id: string, tx: TxHash) {
    At(w.sea.rows, id, EXECUTED) && w.sea.rows[id].linkedTxHash == Some(tx)
  }

  predicate FillFor(t: Desk.Trade, tx: TxHash, x: Intent) {
    t.txHash == Some(tx) && t.market == x.market && t.taker == x.owner
  }

  lemma MarkEffect(env: Env, w: World, id: string, tx: TxHash, token: string, reverted: bool)
    requires At(w.sea.rows, id, READY) && MarkRefusal(env, w.now, id, w.sea.rows[id], token).None?
    ensures var w' := Next(env, w, MarkExecuting(id, tx, token, reverted));
            && w'.trades == w.trades && w'.sea.rows.Keys == w.sea.rows.Keys
            && (forall other :: other in w.sea.rows && other != id ==> w'.sea.rows[other] == w.sea.rows[other])
            && (Traded(w.trades, tx, w.sea.rows[id].market, w.sea.rows[id].owner) ==> ExecutedWith(w', id, tx))
            && (!Traded(w.trades, tx, w.sea.rows[id].market, w.sea.rows[id].owner) && !reverted ==>
                  Awaits(w'.sea.rows, id, tx, w.sea.rows[id].market, w.sea.rows[id].owner))
  {
  }

  lemma FillEffect(env: Env, w: World, t: Desk.Trade, hit: Option<string>, tx: TxHash)
    requires Enabled(w, WatchFill(t, hit)) && t.txHash == Some(tx)
    ensures var w' := Next(env, w, WatchFill(t, hit));
            && w'.trades == w.trades + [t] && w'.now == w.now && w'.sea.rows.Keys == w.sea.rows.Keys
            && (forall other :: other in w.sea.rows && hit != Some(other) ==> w'.sea.rows[other] == w.sea.rows[other])
            && (hit.Some? ==> Awaits(w.sea.rows, hit.value, tx, t.market, t.taker) && ExecutedWith(w', hit.value, tx))
  {
  }

  /** Fill seen first, marker second: the marker closes the intent, even on a wrong receipt. */
  lemma WatchThenMark(env: Env, w: World, id: string, t: Desk.Trade, hit: Option<string>, tx: TxHash, token: string, reverted: bool)
    requires At(w.sea.rows, id, READY) && FillFor(t, tx, w.sea.rows[id])
    requires MarkRefusal(env, w.now, id, w.sea.rows[id], token).None? && Enabled(w, WatchFill(t, hit))
    ensures ExecutedWith(Next(env, Next(env, w, WatchFill(t, hit)), MarkExecuting(id, tx, token, reverted)), id, tx)
  {
    var w1 := Next(env, w, WatchFill(t, hit));
    FillEffect(env, w, t, hit, tx);
    assert t in w1.trades && w1.sea.rows[id] == w.sea.rows[id];
    MarkEffect(env, w1, id, tx, token, reverted);
  }

  predicate OthersAwait(rows: Rows, id: string, tx: TxHash, market: Symbol, owner: Address) {
    exists other :: other in rows && other != id && Awaits(rows, other, tx, market, owner)
  }

  /** Whichever waiting row the lookup answers with, this intent ends executed. */
  ghost predicate AlwaysCloses(env: Env, w: World, t: Desk.Trade, id: string, tx: TxHash) {
    forall hit :: Enabled(w, WatchFill(t, hit)) ==> ExecutedWith(Next(env, w, WatchFill(t, hit)), id, tx)
  }

  lemma WaitingClosesIff(env: Env, w: World, id: string, t: Desk.Trade, tx: TxHash)
    requires t.txHash == Some(tx) && Awaits(w.sea.rows, id, tx, t.market, t.taker)
    ensures AlwaysCloses(env, w, t, id, tx) <==> !OthersAwait(w.sea.rows, id, tx, t.market, t.taker)
  {
    if OthersAwait(w.sea.rows, id, tx, t.market, t.taker) {
      var other :| other in w.sea.rows && other != id && Awaits(w.sea.rows, other, tx, t.market, t.taker);
      assert Enabled(w, WatchFill(t, Some(other)));
      FillEffect(env, w, t, Some(other), tx);
    } else {
      forall hit | Enabled(w, WatchFill(t, hit)) ensures ExecutedWith(Next(env, w, WatchFill(t, hit)), id, tx) {
        assert hit == Some(id);
        FillEffect(env, w, t, hit, tx);
      }
    }
  }

  /** Marker first, fill second: the intent ends executed, unless another intent of the same owner
      and market waits on the same transaction. Then the lookup may answer with that one and this
      intent keeps waiting. */
  lemma MarkThenWatchIff(env: Env, w: World, id: string, t: Desk.Trade, tx: TxHash, token: string)
    requires At(w.sea.rows, id, READY) && FillFor(t, tx, w.sea.rows[id])
    requires MarkRefusal(env, w.now, id, w.sea.rows[id], token).None?
    ensures AlwaysCloses(env, Next(env, w, MarkExecuting(id, tx, token, false)), t, id, tx)
       <==> Traded(w.trades, tx, t.market, t.taker) || !OthersAwait(w.sea.rows, id, tx, t.market, t.taker)
  {
    var w1 := Next(env, w, MarkExecuting(id, tx, token, false));
    MarkEffect(env, w, id, tx, token, false);
    if Traded(w.trades, tx, t.market, t.taker) {
      forall hit | Enabled(w1, WatchFill(t, hit)) ensures ExecutedWith(Next(env, w1, WatchFill(t, hit)), id, tx) {
        FillEffect(env, w1, t, hit, tx);
      }
    } else {
      WaitingClosesIff(env, w1, id, t, tx);
      OthersUnchanged(w, w1, id, tx, t.market, t.taker);
    }
  }

  lemma OthersUnchanged(w: World, w1: World, id: string, tx: TxHash, market: Symbol, owner: Address)
    requires w1.sea.rows.Keys == w.sea.rows.Keys
    requires forall other :: other in w.sea.rows && other != id ==> w1.sea.rows[other] == w.sea.rows[other]
    ensures OthersAwait(w1.sea.rows, id, tx, market, owner) <==> OthersAwait(w.sea.rows, id, tx, market, owner)
  {
    if OthersAwait(w.sea.rows, id, tx, market, owner) {
      var other :| other in w.sea.rows && other != id && Awaits(w.sea.rows, other, tx, market, owner);
      assert Awaits(w1.sea.rows, other, tx, market, owner);
    }
    if OthersAwait(w1.sea.rows, id, tx, market, owner) {
      var other :| other in w1.sea.rows && other != id && Awaits(w1.sea.rows, other, tx, market, owner);
      assert Awaits(w.sea.rows, other, tx, market, owner);
    }
  }

  // ---------------------------------------------------------------------------
  // Over whole runs
  // ---------------------------------------------------------------------------

  predicate NeverFilled(steps: seq<Step>, tx: TxHash) {
    forall s :: s in steps && s.WatchFill? ==> s.trade.txHash != Some(tx)
  }

  lemma {:induction false} TradesComeFromTheWatcher(env: Env, now: int, steps: seq<Step>, tx: TxHash)
    requires NeverFilled(steps, tx)
    ensures forall t :: t in Run(env, Start(now), steps).trades ==> t.txHash != Some(tx)
  {
    if steps != [] {
      TradesComeFromTheWatcher(env, now, steps[..|steps| - 1], tx);
      assert steps[|steps| - 1] in steps;
    }
  }

  /** A transaction without a watched fill leaves no trade and executes nothing, whenever and however
      often a marker names it. */
  lemma UnseenNeverExecutes(env: Env, now: int, steps: seq<Step>, tx: TxHash, id: string)
    requires now > 0 && Legal(env, Start(now), steps) && NeverFilled(steps, tx)
    ensures forall t :: t in Run(env, Start(now), steps).trades ==> t.txHash != Some(tx)
    ensures !ExecutedWith(Run(env, Start(now), steps), id, tx)
  {
    TradesComeFromTheWatcher(env, now, steps, tx);
    RunKeepsInv(env, now, steps);
    ExecutedHasTrade(env, Run(env, Start(now), steps), id, tx);
  }

  lemma ExecutedHasTrade(env: Env, w: World, id: string, tx: TxHash)
    requires Inv(env, w)
    ensures ExecutedWith(w, id, tx) ==> exists t :: t in w.trades && t.txHash == Some(tx)
  {
    if ExecutedWith(w, id, tx) {
      assert RowFits(w, id, w.sea.rows[id]);
    }
  }

  /** Replaying an intent's event log gives its status, a latched row reading as active. */
  lemma LogReplaysStatus(env: Env, w: World, id: string)
    requires Reachable(env, w) && id in w.sea.rows
    ensures History(w.sea.log, id) != []
    ensures Replay(History(w.sea.log, id)) == if w.sea.rows[id].status == TRIGGERED then ACTIVE else w.sea.rows[id].status
  {
    ReachableHasInv(env, w);
    assert RowFits(w, id, w.sea.rows[id]);
  }
}
