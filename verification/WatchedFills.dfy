/** What becomes of one fill on chain: read off its transaction, recorded once the watcher goes through its
    block, and told to the intent that waits for it.
    Models apps/api/src/onchain/fill-watcher.service.ts:262-404 and 455-655. */
module WatchedFills {
  import opened Prelude
  import opened Arith
  import opened Levels
  import opened Sweep
  import opened Desk
  import opened Coherence
  import opened Placement
  import opened FillScan
  import opened FillWatcher
  import opened I = Intents
  import Amounts
  import R = ReadyGate
  import Sea

  // ---------------------------------------------------------------------------
  // What calldata says
  // ---------------------------------------------------------------------------

  /** Whoever sent the transaction took the order; without a sender, nobody is named. */
  function TakerOf(tx: ChainTx): Address {
    if tx.from.Some? then tx.from.value else "0x0000000000000000000000000000000000000000"
  }

  /** The trade a decoded fill is recorded as: its market, the order named in the call, the sender as taker,
      the transaction, and price and size read off the amounts. */
  lemma DecodedTrade(c: Chain, tx: ChainTx)
    requires Decode(c, tx).Some?
    ensures var t := TradeOf(Decode(c, tx).value);
            && tx.call.Some? && t.txHash == tx.hash && t.taker == TakerOf(tx) && t.makerOrderHash == tx.call.value.orderHash
            && FindMarket(c.markets, c.listing, tx.call.value.order.makerToken, tx.call.value.order.takerToken) == Some(t.market)
            && t.sizeBase == Decode(c, tx).value.key.execBase && t.priceTicks == Decode(c, tx).value.priceTicks
  {
  }

  /** Exactly the fills are read that name a market, take some base, and have a price. */
  lemma DecodedIff(c: Chain, tx: ChainTx)
    ensures Decode(c, tx).Some? <==>
              && tx.call.Some?
              && var o, m := tx.call.value.order, FindMarket(c.markets, c.listing, tx.call.value.order.makerToken,
                                                             tx.call.value.order.takerToken);
                 m.Some? &&
                 if o.makerToken == c.markets[m.value].baseAddress then
                   o.takerAmount > 0 && tx.call.value.takerFill * o.makerAmount >= o.takerAmount
                   && o.makerAmount * c.markets[m.value].priceTickQ > 0
                 else tx.call.value.takerFill > 0 && o.takerAmount * c.markets[m.value].priceTickQ > 0
  {
    if tx.call.Some? && tx.call.value.order.takerAmount > 0 {
      FloorGate(tx.call.value.takerFill * tx.call.value.order.makerAmount, tx.call.value.order.takerAmount, 1);
    }
  }

  /** A quoted fill put in calldata is reconciled with what was quoted: to the unit when it sells to a resting
      bid or takes an ask whole, and otherwise short by less than one unit of each token. */
  lemma QuotedFillReadsBack(c: Chain, tx: ChainTx, m: Symbol, t: Terms, f: Fill)
    requires tx.call.Some? && m in c.markets && c.markets[m].baseAddress != c.markets[m].quoteAddress
    requires var o := tx.call.value.order;
             && FindMarket(c.markets, c.listing, o.makerToken, o.takerToken) == Some(m)
             && Derive(c.markets[m], o) == Ok(t) && o.takerAmount > 0
             && f.raw.Some? && f.raw.value.makerAmount == o.makerAmount && f.raw.value.takerAmount == o.takerAmount
    requires 0 < f.sizeBase <= t.sizeBase
    requires tx.call.value.takerFill == R.FillTakerAmount(Opposite(t.side), f)
    ensures t.side == BUY ==> Decode(c, tx).Some? && Decode(c, tx).value.key.execBase == f.sizeBase
    ensures t.side == SELL && Decode(c, tx).Some? ==>
              var o, e := tx.call.value.order, Decode(c, tx).value.key.execBase;
              && e <= f.sizeBase && (f.sizeBase - e) * o.takerAmount < o.makerAmount + o.takerAmount
              && (f.sizeBase == t.sizeBase ==> e == f.sizeBase)
  {
    var o, r := tx.call.value.order, c.markets[m];
    DerivedSizeIsPositive(r, o);
    if t.side == SELL {
      AcceptedOrdersAreReadBack(c, tx, m, t, f.sizeBase);
      if f.sizeBase == t.sizeBase {
        Amounts.WholeOrderIsExact(o.makerAmount, o.takerAmount);
      }
    } else {
      DecodedIff(c, tx);
    }
  }

  // ---------------------------------------------------------------------------
  // One tick
  // ---------------------------------------------------------------------------

  /** What a tick has added so far: every key it remembers was remembered before or is of a new effect, and
      every new effect is of a fill on the chain, by its receipt. */
  ghost predicate AddedBy(c: Chain, w0: Watch, w: Watch, reverted: TxHash -> bool) {
    && w0.effects <= w.effects
    && (forall k :: k in w.seen && k !in w0.seen ==> KeyKnown(w.effects[|w0.effects|..], k))
    && (forall e :: e in w.effects[|w0.effects|..] ==> e == EffectOf(reverted, e.found) && exists b :: Came(c, b, e))
  }

  lemma AddedOneMore(c: Chain, w0: Watch, w: Watch, reverted: TxHash -> bool, b: int, tx: ChainTx)
    requires AddedBy(c, w0, w, reverted) && tx in c.block(b)
    ensures AddedBy(c, w0, ScanTx(c, w, tx, reverted), reverted)
    ensures forall k :: KeyKnown(w.effects[|w0.effects|..], k) ==> KeyKnown(ScanTx(c, w, tx, reverted).effects[|w0.effects|..], k)
    ensures Decode(c, tx).Some? && Decode(c, tx).value.key !in w0.seen ==>
              KeyKnown(ScanTx(c, w, tx, reverted).effects[|w0.effects|..], Decode(c, tx).value.key)
  {
    var w' := ScanTx(c, w, tx, reverted);
    if w' != w {
      var e := EffectOf(reverted, Decode(c, tx).value);
      var was, more := w.effects[|w0.effects|..], w'.effects[|w0.effects|..];
      assert more == was + [e] && e in more;
      forall k | KeyKnown(was, k) ensures KeyKnown(more, k) {
        KeyStaysKnown(was, [e], k);
      }
      assert Came(c, b, e);
      forall k | k in w'.seen && k !in w0.seen ensures KeyKnown(more, k) {
        assert k in w.seen + [e.found.key];
      }
    }
  }

  lemma {:induction false} AddedByTxs(c: Chain, w0: Watch, w: Watch, reverted: TxHash -> bool, b: int, txs: seq<ChainTx>)
    requires AddedBy(c, w0, w, reverted) && txs <= c.block(b)
    ensures AddedBy(c, w0, ScanTxs(c, w, txs, reverted), reverted)
    ensures forall k :: KeyKnown(w.effects[|w0.effects|..], k) ==> KeyKnown(ScanTxs(c, w, txs, reverted).effects[|w0.effects|..], k)
    ensures forall tx :: tx in txs && Decode(c, tx).Some? && Decode(c, tx).value.key !in w0.seen ==>
              KeyKnown(ScanTxs(c, w, txs, reverted).effects[|w0.effects|..], Decode(c, tx).value.key)
  {
    if txs != [] {
      var front, last := txs[..|txs| - 1], txs[|txs| - 1];
      AddedByTxs(c, w0, w, reverted, b, front);
      assert last in c.block(b) && txs == front + [last];
      AddedOneMore(c, w0, ScanTxs(c, w, front, reverted), reverted, b, last);
    }
  }

  /** The tick goes through this block: it is in range, readable, and nothing before it failed to load. */
  predicate GoesThrough(a: Attempt, from: int, target: int, b: int) {
    from <= b <= target && a.fetch(b) == FillScan.Block && forall x :: from <= x < b ==> a.fetch(x) != Failed
  }

  lemma {:induction false} AddedByScan(c: Chain, w0: Watch, w: Watch, from: int, target: int, a: Attempt, b: int, tx: ChainTx)
    requires AddedBy(c, w0, w, a.reverted) && tx in c.block(b) && Decode(c, tx).Some? && Decode(c, tx).value.key !in w0.seen
    requires GoesThrough(a, from, target, b) || KeyKnown(w.effects[|w0.effects|..], Decode(c, tx).value.key)
    ensures AddedBy(c, w0, ScanFrom(c, w, from, target, a).0, a.reverted)
    ensures KeyKnown(ScanFrom(c, w, from, target, a).0.effects[|w0.effects|..], Decode(c, tx).value.key)
    decreases target - from + 1
  {
    if from <= target && a.fetch(from) != Failed {
      if a.fetch(from) == FillScan.Block {
        AddedByTxs(c, w0, w, a.reverted, from, c.block(from));
        AddedByScan(c, w0, ScanBlock(c, w, from, a.reverted), from + 1, target, a, b, tx);
      } else {
        AddedByScan(c, w0, w, from + 1, target, a, b, tx);
      }
    }
  }

  /** The effects a tick adds. */
  function NewEffects(w: Watch, w': Watch): seq<Effect>
    requires |w.effects| <= |w'.effects|
  {
    w'.effects[|w.effects|..]
  }

  /** Effects under this transaction are all of this fill, by its receipt, and there is one. */
  predicate TakesUp(more: seq<Effect>, tx: ChainTx, e: Effect) {
    e in more && forall x :: x in more && x.found.key.tx == tx.hash ==> x == e
  }

  lemma TakenUp(c: Chain, w: Watch, w': Watch, reverted: TxHash -> bool, b: int, tx: ChainTx)
    requires DistinctHashes(c) && AddedBy(c, w, w', reverted) && tx in c.block(b) && Decode(c, tx).Some?
    requires KeyKnown(w'.effects[|w.effects|..], Decode(c, tx).value.key)
    ensures TakesUp(w'.effects[|w.effects|..], tx, EffectOf(reverted, Decode(c, tx).value))
  {
    var f, more := Decode(c, tx).value, w'.effects[|w.effects|..];
    forall e | e in more && e.found.key.tx == tx.hash ensures e == EffectOf(reverted, f) {
      OfThatTransaction(c, e, tx);
    }
    var e :| e in more && e.found.key == f.key;
  }

  /** A tick that goes through a block adds an effect for each fill of it whose key is not remembered, and every
      effect it adds under that transaction is of that fill, by its receipt. */
  lemma TickTakesUp(c: Chain, w: Watch, a: Attempt, maxBlocks: nat, b: int, tx: ChainTx)
    requires DistinctHashes(c) && a.latest.Some?
    requires GoesThrough(a, w.lastScanned + 1, Min(a.latest.value, w.lastScanned + maxBlocks), b)
    requires tx in c.block(b) && Decode(c, tx).Some? && Decode(c, tx).value.key !in w.seen
    ensures w.effects <= TickOp(c, w, a, maxBlocks).effects
    ensures TakesUp(NewEffects(w, TickOp(c, w, a, maxBlocks)), tx, EffectOf(a.reverted, Decode(c, tx).value))
  {
    var target := Min(a.latest.value, w.lastScanned + maxBlocks);
    assert w.effects[|w.effects|..] == [];
    AddedByScan(c, w, w, w.lastScanned + 1, target, a, b, tx);
    var w1 := ScanFrom(c, w, w.lastScanned + 1, target, a).0;
    TakenUp(c, w, w1, a.reverted, b, tx);
    assert TickOp(c, w, a, maxBlocks).effects == w1.effects;
  }

  lemma OfThatTransaction(c: Chain, e: Effect, tx: ChainTx)
    requires DistinctHashes(c) && (exists b :: Came(c, b, e)) && (exists b :: tx in c.block(b))
    requires Decode(c, tx).Some? && e.found.key.tx == tx.hash
    ensures e.found == Decode(c, tx).value
  {
    var b :| Came(c, b, e);
    var tx' :| tx' in c.block(b) && Decode(c, tx') == Some(e.found);
    assert tx'.hash == tx.hash;
  }

  // ---------------------------------------------------------------------------
  // The waiting intent
  // ---------------------------------------------------------------------------

  /** This intent and no other waits for the transaction. */
  predicate OnlyWaiter(rows: I.Rows, id: string, tx: TxHash, m: Symbol, owner: Address) {
    && I.Awaits(rows, id, tx, m, owner)
    && forall other :: other in rows && other != id ==> !I.Awaits(rows, other, tx, m, owner)
  }

  /** It has been told: executed by a fill, failed by a revert, under its transaction. */
  predicate Closed(rows: I.Rows, id: string, tx: TxHash, applied: bool) {
    && id in rows && rows[id].linkedTxHash == Some(tx)
    && if applied then rows[id].status == I.EXECUTED
       else rows[id].status == I.FAILED && rows[id].failureReason == Some("tx_reverted")
  }

  lemma OtherTxLeaves(w: Sea.Ledger, e: Effect, now: int, w': Sea.Ledger, id: string, tx: TxHash, m: Symbol, owner: Address)
    requires Told(w, e, now, w') && e.found.key.tx != Some(tx) && OnlyWaiter(w.rows, id, tx, m, owner)
    ensures OnlyWaiter(w'.rows, id, tx, m, owner)
  {
  }

  lemma ThatTxCloses(w: Sea.Ledger, e: Effect, now: int, w': Sea.Ledger, id: string, tx: TxHash)
    requires Told(w, e, now, w') && e.found.key.tx == Some(tx)
    requires OnlyWaiter(w.rows, id, tx, e.found.market, e.found.taker)
    ensures Closed(w'.rows, id, tx, e.Applied?)
  {
  }

  lemma ClosedStays(w: Sea.Ledger, e: Effect, now: int, w': Sea.Ledger, id: string, tx: TxHash, applied: bool)
    requires Told(w, e, now, w') && Closed(w.rows, id, tx, applied)
    ensures Closed(w'.rows, id, tx, applied)
  {
  }

  /** An intent that waits alone is closed by the effects under its transaction, and by no others. */
  lemma {:induction false} WaiterIsClosed(w: Sea.Ledger, effects: seq<Effect>, now: int, w': Sea.Ledger, id: string, tx: TxHash,
                                          m: Symbol, owner: Address, applied: bool)
    requires ToldAll(w, effects, now, w') && OnlyWaiter(w.rows, id, tx, m, owner)
    requires forall e :: e in effects && e.found.key.tx == Some(tx) ==>
               e.found.market == m && e.found.taker == owner && e.Applied? == applied
    ensures if exists e :: e in effects && e.found.key.tx == Some(tx) then Closed(w'.rows, id, tx, applied)
            else OnlyWaiter(w'.rows, id, tx, m, owner)
  {
    if effects != [] {
      var front, last := effects[..|effects| - 1], effects[|effects| - 1];
      var w1 :| ToldAll(w, front, now, w1) && Told(w1, last, now, w');
      assert effects == front + [last] && forall e :: e in effects <==> e in front || e == last;
      WaiterIsClosed(w, front, now, w1, id, tx, m, owner, applied);
      if exists e :: e in front && e.found.key.tx == Some(tx) {
        ClosedStays(w1, last, now, w', id, tx, applied);
      } else if last.found.key.tx == Some(tx) {
        ThatTxCloses(w1, last, now, w', id, tx);
      } else {
        OtherTxLeaves(w1, last, now, w', id, tx, m, owner);
      }
    }
  }

  lemma {:induction false} AppliedIsTraded(effects: seq<Effect>, f: Found)
    requires Applied(f) in effects
    ensures TradeOf(f) in TradesOf(effects)
  {
    var front, last := effects[..|effects| - 1], effects[|effects| - 1];
    assert effects == front + [last];
    if last != Applied(f) {
      AppliedIsTraded(front, f);
    }
  }

  lemma {:induction false} TradesAdded(d: State, effects: seq<Effect>, clock: nat -> int)
    ensures ReconcileAll(d, effects, clock).trades == d.trades + TradesOf(effects)
  {
    if effects == [] {
      assert d.trades + [] == d.trades;
    } else {
      var front, e := effects[..|effects| - 1], effects[|effects| - 1];
      TradesAdded(d, front, clock);
      ReconciledTrades(ReconcileAll(d, front, clock), e, clock(|effects| - 1));
    }
  }

  lemma ReconciledTrades(d: State, e: Effect, now: int)
    ensures Reconciled(d, e, now).trades == d.trades + if e.Applied? then [TradeOf(e.found)] else []
  {
    assert d.trades + [] == d.trades;
  }

  /** From the chain to the user: when a tick goes through the block of a fill it does not remember, sent by
      `owner` under hash `h` and not reverted, the desk gains a trade under that hash with the sender as taker;
      and the one intent of the sender waiting for it in that market is executed. A reverted one fails it. */
  lemma FillReachesItsOwner(c: Chain, w: Watch, a: Attempt, maxBlocks: nat, b: int, tx: ChainTx, h: TxHash, owner: Address,
                            d: State, clock: nat -> int, l: Sea.Ledger, now: int, l': Sea.Ledger)
    requires DistinctHashes(c) && a.latest.Some?
    requires GoesThrough(a, w.lastScanned + 1, Min(a.latest.value, w.lastScanned + maxBlocks), b)
    requires tx in c.block(b) && tx.hash == Some(h) && tx.from == Some(owner)
    requires Decode(c, tx).Some? && Decode(c, tx).value.key !in w.seen
    requires w.effects <= TickOp(c, w, a, maxBlocks).effects
    requires ToldAll(l, NewEffects(w, TickOp(c, w, a, maxBlocks)), now, l')
    ensures var f, d' := Decode(c, tx).value, ReconcileAll(d, NewEffects(w, TickOp(c, w, a, maxBlocks)), clock);
            && (!a.reverted(h) ==>
                  && d.trades <= d'.trades
                  && Trade(f.market, tx.call.value.orderHash, owner, f.priceTicks, f.key.execBase, Some(h))
                     in d'.trades[|d.trades|..])
            && forall id :: OnlyWaiter(l.rows, id, h, f.market, owner) ==> Closed(l'.rows, id, h, !a.reverted(h))
  {
    var f, more := Decode(c, tx).value, NewEffects(w, TickOp(c, w, a, maxBlocks));
    TickTakesUp(c, w, a, maxBlocks, b, tx);
    DecodedTrade(c, tx);
    TradesAdded(d, more, clock);
    if !a.reverted(h) {
      AppliedIsTraded(more, f);
    }
    forall id | OnlyWaiter(l.rows, id, h, f.market, owner) ensures Closed(l'.rows, id, h, !a.reverted(h)) {
      WaiterIsClosed(l, more, now, l', id, h, f.market, owner, !a.reverted(h));
    }
  }

  // ---------------------------------------------------------------------------
  // Where a tick starts and ends
  // ---------------------------------------------------------------------------

  lemma {:induction false} ScanEnds(c: Chain, w: Watch, from: int, target: int, a: Attempt)
    ensures ScanFrom(c, w, from, target, a).1 <==> forall x :: from <= x <= target ==> a.fetch(x) != Failed
    ensures ScanFrom(c, w, from, target, a).0.lastScanned == w.lastScanned
    ensures w.done <= ScanFrom(c, w, from, target, a).0.done
    ensures forall x :: GoesThrough(a, from, target, x) ==> x in ScanFrom(c, w, from, target, a).0.done
    decreases target - from + 1
  {
    if from <= target && a.fetch(from) != Failed {
      if a.fetch(from) == FillScan.Block {
        TxsLeaveCursor(c, w, c.block(from), a.reverted);
        TxsLeaveDone(c, w, c.block(from), a.reverted);
        ScanEnds(c, ScanBlock(c, w, from, a.reverted), from + 1, target, a);
      } else {
        ScanEnds(c, w, from + 1, target, a);
      }
    }
  }

  lemma {:induction false} TxsLeaveDone(c: Chain, w: Watch, txs: seq<ChainTx>, reverted: TxHash -> bool)
    ensures ScanTxs(c, w, txs, reverted).done == w.done
  {
    if txs != [] {
      TxsLeaveDone(c, w, txs[..|txs| - 1], reverted);
    }
  }

  /** A tick that sees a head goes for the blocks after the cursor up to the head, but at most `maxBlocks` of
      them; it goes through each it can read until one fails to load, passes over malformed ones, and moves
      its cursor to the end exactly when none failed. */
  lemma TickEnds(c: Chain, w: Watch, a: Attempt, maxBlocks: nat)
    requires a.latest.Some?
    ensures var w', target := TickOp(c, w, a, maxBlocks), Min(a.latest.value, w.lastScanned + maxBlocks);
            && w'.lastScanned == (if forall x :: w.lastScanned < x <= target ==> a.fetch(x) != Failed then target else w.lastScanned)
            && forall x :: GoesThrough(a, w.lastScanned + 1, target, x) ==> x in w'.done
  {
    ScanEnds(c, w, w.lastScanned + 1, Min(a.latest.value, w.lastScanned + maxBlocks), a);
  }

  /** A process that resumes a usable persisted cursor skips no block after it; one that has none begins with
      the head itself. */
  lemma NothingSkippedOnStart(c: Chain, persisted: Option<int>, a: Attempt, maxBlocks: nat)
    requires a.latest.Some? && a.latest.value > 0 && maxBlocks > 0 && forall x :: a.fetch(x) == FillScan.Block
    ensures var latest, w' := a.latest.value, TickOp(c, Boot(InitCursor(persisted, a.latest.value)), a, maxBlocks);
            if persisted.Some? && persisted.value != 0 && persisted.value <= latest then
              && w'.lastScanned == Min(latest, persisted.value + maxBlocks)
              && forall x :: persisted.value < x <= w'.lastScanned ==> x in w'.done
            else w'.lastScanned == latest && latest in w'.done
  {
    TickEnds(c, Boot(InitCursor(persisted, a.latest.value)), a, maxBlocks);
  }

  // ---------------------------------------------------------------------------
  // The memory
  // ---------------------------------------------------------------------------

  /** What one transaction does to the memory of keys: a fill already remembered, and anything that is no
      fill, leaves it alone; a reverted fill only adds its key; a reconciled one adds its key and lets the
      oldest go when more than ten thousand are held. */
  lemma MemoryAfter(c: Chain, w: Watch, tx: ChainTx, reverted: TxHash -> bool)
    ensures ScanTx(c, w, tx, reverted).seen
         == var f := Decode(c, tx);
            if f.None? || f.value.key in w.seen then w.seen
            else if tx.hash.Some? && reverted(tx.hash.value) then w.seen + [f.value.key]
            else if |w.seen| >= 10000 then (w.seen + [f.value.key])[1..] else w.seen + [f.value.key]
  {
  }
}
