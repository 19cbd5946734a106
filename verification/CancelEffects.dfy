/** What a cancel seen on chain leaves behind: a single order off its book with its row cancelled, a pair's
    orders below the bound and its floor, one transaction at a time and over whole schedules.
    Models apps/api/src/onchain/cancel-watcher.service.ts:337-617. */
module CancelEffects {
  import opened Prelude
  import opened Levels
  import opened Desk
  import opened Coherence
  import opened Placement
  import opened CancelScan
  import DeskOutcomes
  import F = Floors
  import FillScan

  /** The order rests nowhere in its market, and its row, if there is one, is cancelled. */
  predicate Withdrawn(d: State, m: Symbol, id: Hash) {
    && (forall o :: o in BookOf(d, m).bids ==> o.id != id)
    && (forall o :: o in BookOf(d, m).asks ==> o.id != id)
    && (id in d.rows ==> d.rows[id].status == CANCELLED)
  }

  /** Only this market's book and this order's row changed, and of the row only the status. */
  predicate OnlyThisOrder(d: State, d': State, m: Symbol, id: Hash) {
    && DeskOutcomes.OtherLevelsKept(BookOf(d, m), BookOf(d', m), id) && DeskOutcomes.OnlyMarket(d, d', m)
    && DeskOutcomes.OnlyRow(d.rows, d'.rows, id) && d'.trades == d.trades
    && (id in d.rows ==> d'.rows[id] == d.rows[id].(status := d'.rows[id].status))
  }

  lemma RetractedIs(d: State, m: Symbol, id: Hash)
    ensures Withdrawn(RetractOp(d, m, id), m, id) && OnlyThisOrder(d, RetractOp(d, m, id), m, id)
  {
    RetractRows(d, m, id);
  }

  /** A single cancel of a market's order: the order is withdrawn and nothing else changes; the desk stays
      coherent exactly when the order rests under no other market. */
  lemma SingleCancelWithdraws(c: CancelChain, d: State, tx: CancelTx, m: Symbol)
    requires tx.OrderCancel? && FindMarket(c.markets, c.listing, tx.makerToken, tx.takerToken) == Some(m)
    ensures Withdrawn(DeskAfter(c, d, tx), m, tx.orderHash) && OnlyThisOrder(d, DeskAfter(c, d, tx), m, tx.orderHash)
    ensures Coherent(d) ==>
              (Coherent(DeskAfter(c, d, tx)) <==> forall m' :: m' in d.books && m' != m ==> !Holds(d.books[m'], tx.orderHash))
  {
    RetractedIs(d, m, tx.orderHash);
    if Coherent(d) {
      RetractKeepsIff(d, m, tx.orderHash);
      assert RestsElsewhere(d, m, tx.orderHash) <==> exists m' :: m' in d.books && m' != m && Holds(d.books[m'], tx.orderHash);
    }
  }

  /** A cancel of another exchange's pair, or any other transaction, changes nothing. */
  lemma UnrelatedChangesNothing(c: CancelChain, d: State, tx: CancelTx)
    requires tx.Unrelated? || FindMarket(c.markets, c.listing, tx.makerToken, tx.takerToken).None?
    ensures DeskAfter(c, d, tx) == d && EventOf(c, tx).None?
  {
  }

  /** A pair cancel takes exactly the maker's listed orders whose stored salt is below its bound. */
  lemma PairCancelWithdraws(c: CancelChain, d: State, tx: CancelTx, m: Symbol, h: Hash)
    requires Coherent(d) && tx.PairCancel? && FindMarket(c.markets, c.listing, tx.makerToken, tx.takerToken) == Some(m)
    requires h in d.rows
    ensures var d' := DeskAfter(c, d, tx);
            var taken := h in Listing(d.rows, m) && d.rows[h].maker == tx.maker && h in c.saltOf && c.saltOf[h] < tx.minValidSalt;
            && Coherent(d') && h in d'.rows && d'.rows[h] == (if taken then d.rows[h].(status := CANCELLED) else d.rows[h])
            && (taken ==> Withdrawn(d', m, h))
  {
    PairCancelTakesExactly(c, d, tx, m);
    var d' := DeskAfter(c, d, tx);
    if h in Listing(d.rows, m) && Invalidated(c, d.rows, tx, h) {
      assert !Holds(BookOf(d', m), h);
    }
  }

  // ---------------------------------------------------------------------------
  // Over schedules
  // ---------------------------------------------------------------------------

  lemma RetractKeepsWithdrawn(d: State, m: Symbol, id: Hash, m': Symbol, id': Hash)
    requires Withdrawn(d, m', id')
    ensures Withdrawn(RetractOp(d, m, id), m', id') && RetractOp(d, m, id).rows.Keys == d.rows.Keys
  {
    RetractRows(d, m, id);
  }

  lemma {:induction false} RetractAllKeepsWithdrawn(d: State, m: Symbol, ids: seq<Hash>, m': Symbol, id': Hash)
    requires Withdrawn(d, m', id')
    ensures Withdrawn(RetractAll(d, m, ids), m', id')
  {
    if ids != [] {
      RetractAllKeepsWithdrawn(d, m, ids[..|ids| - 1], m', id');
      RetractKeepsWithdrawn(RetractAll(d, m, ids[..|ids| - 1]), m, ids[|ids| - 1], m', id');
    }
  }

  lemma TxKeepsWithdrawn(c: CancelChain, w: CancelWatch, tx: CancelTx, m: Symbol, id: Hash)
    requires Withdrawn(w.desk, m, id)
    ensures Withdrawn(ScanTx(c, w, tx).desk, m, id)
  {
    if MarketOf(c, tx).Some? {
      var m1 := MarketOf(c, tx).value;
      if tx.PairCancel? {
        RetractAllKeepsWithdrawn(w.desk, m1, Doomed(c, w.desk.rows, tx, Listing(w.desk.rows, m1)), m, id);
      } else {
        RetractKeepsWithdrawn(w.desk, m1, tx.orderHash, m, id);
      }
    }
  }

  lemma {:induction false} TxsKeepWithdrawn(c: CancelChain, w: CancelWatch, txs: seq<CancelTx>, m: Symbol, id: Hash)
    requires Withdrawn(w.desk, m, id)
    ensures Withdrawn(ScanTxs(c, w, txs).desk, m, id)
  {
    if txs != [] {
      TxsKeepWithdrawn(c, w, txs[..|txs| - 1], m, id);
      TxKeepsWithdrawn(c, ScanTxs(c, w, txs[..|txs| - 1]), txs[|txs| - 1], m, id);
    }
  }

  /** Whatever the desk was, going through a block leaves each order withdrawn that it cancels by itself. */
  lemma {:induction false} BlockWithdraws(c: CancelChain, w: CancelWatch, txs: seq<CancelTx>, tx: CancelTx, m: Symbol)
    requires tx in txs && tx.OrderCancel? && FindMarket(c.markets, c.listing, tx.makerToken, tx.takerToken) == Some(m)
    ensures Withdrawn(ScanTxs(c, w, txs).desk, m, tx.orderHash)
  {
    var front, last := txs[..|txs| - 1], txs[|txs| - 1];
    assert txs == front + [last];
    if last == tx {
      SingleCancelWithdraws(c, ScanTxs(c, w, front).desk, tx, m);
    } else {
      BlockWithdraws(c, w, front, tx, m);
      TxKeepsWithdrawn(c, ScanTxs(c, w, front), last, m, tx.orderHash);
    }
  }

  /** Every single cancel of the blocks after `start` up to the highest one gone through has been carried out. */
  ghost predicate AllWithdrawn(c: CancelChain, start: int, w: CancelWatch) {
    forall b, tx, m :: start < b <= w.reach && tx in c.block(b) && tx.OrderCancel?
                       && FindMarket(c.markets, c.listing, tx.makerToken, tx.takerToken) == Some(m) ==>
                         Withdrawn(w.desk, m, tx.orderHash)
  }

  lemma BlockKeepsAllWithdrawn(c: CancelChain, start: int, w: CancelWatch, b: int)
    requires AllWithdrawn(c, start, w) && b <= w.reach + 1
    ensures AllWithdrawn(c, start, ScanTxs(c, w, c.block(b)).(reach := Max(w.reach, b)))
  {
    var w' := ScanTxs(c, w, c.block(b)).(reach := Max(w.reach, b));
    forall b', tx, m | start < b' <= w'.reach && tx in c.block(b') && tx.OrderCancel?
                       && FindMarket(c.markets, c.listing, tx.makerToken, tx.takerToken) == Some(m)
      ensures Withdrawn(w'.desk, m, tx.orderHash)
    {
      if b' == b {
        BlockWithdraws(c, w, c.block(b), tx, m);
      } else {
        TxsKeepWithdrawn(c, w, c.block(b), m, tx.orderHash);
      }
    }
  }

  lemma {:induction false} ScanKeepsAllWithdrawn(c: CancelChain, start: int, stored: F.FloorTable, w: CancelWatch, b: int,
                                                 target: int, fetch: int -> FillScan.Fetch)
    requires Tracks(c, start, stored, w) && AllWithdrawn(c, start, w) && start < b <= w.reach + 1
    requires forall x :: fetch(x) != FillScan.Malformed
    ensures AllWithdrawn(c, start, ScanFrom(c, w, b, target, fetch).0)
    decreases target - b + 1
  {
    if b <= target && fetch(b) == FillScan.Block {
      BlockTracks(c, start, stored, w, b);
      BlockKeepsAllWithdrawn(c, start, w, b);
      ScanTxsTrack(c, stored, w, c.block(b));
      ScanKeepsAllWithdrawn(c, start, stored, ScanTxs(c, w, c.block(b)).(reach := Max(w.reach, b)), b + 1, target, fetch);
    }
  }

  lemma {:induction false} TicksKeepAllWithdrawn(c: CancelChain, stored: F.FloorTable, w: CancelWatch, start: int,
                                                 attempts: seq<FillScan.Attempt>, maxBlocks: nat)
    requires Tracks(c, start, stored, w) && AllWithdrawn(c, start, w) && FillScan.NeverMalformed(attempts)
    ensures AllWithdrawn(c, start, Ticks(c, w, attempts, maxBlocks))
  {
    if attempts != [] {
      var front, a := attempts[..|attempts| - 1], attempts[|attempts| - 1];
      assert forall x :: x in front ==> x in attempts;
      TicksKeepAllWithdrawn(c, stored, w, start, front, maxBlocks);
      TicksTrack(c, stored, w, start, front, maxBlocks);
      var w1 := Ticks(c, w, front, maxBlocks);
      assert a in attempts;
      if a.latest.Some? && a.latest.value > w1.lastScanned {
        ScanKeepsAllWithdrawn(c, start, stored, w1, w1.lastScanned + 1, Min(a.latest.value, w1.lastScanned + maxBlocks), a.fetch);
      }
    }
  }

  /** Without malformed blocks, under any schedule of failures, caps and head regressions, every order that a
      block up to the cursor cancels by itself rests nowhere in its market and has its row cancelled. */
  lemma SingleCancelsAreCarriedOut(c: CancelChain, start: int, d: State, stored: F.FloorTable, attempts: seq<FillScan.Attempt>,
                                   maxBlocks: nat, b: int, tx: CancelTx, m: Symbol)
    requires FillScan.NeverMalformed(attempts)
    requires start < b <= Ticks(c, Boot(start, d, stored), attempts, maxBlocks).lastScanned
    requires tx in c.block(b) && tx.OrderCancel? && FindMarket(c.markets, c.listing, tx.makerToken, tx.takerToken) == Some(m)
    ensures Withdrawn(Ticks(c, Boot(start, d, stored), attempts, maxBlocks).desk, m, tx.orderHash)
  {
    TicksTrack(c, stored, Boot(start, d, stored), start, attempts, maxBlocks);
    TicksKeepAllWithdrawn(c, stored, Boot(start, d, stored), start, attempts, maxBlocks);
  }

  lemma {:induction false} EventOfBlock(c: CancelChain, txs: seq<CancelTx>, tx: CancelTx, m: Symbol)
    requires tx in txs && tx.PairCancel? && FindMarket(c.markets, c.listing, tx.makerToken, tx.takerToken) == Some(m)
    ensures F.PairCancelled(F.Triple(tx.maker, tx.makerToken, tx.takerToken), tx.minValidSalt, tx.txHash) in EventsIn(c, txs)
  {
    var front, last := txs[..|txs| - 1], txs[|txs| - 1];
    assert txs == front + [last];
    if last != tx {
      EventOfBlock(c, front, tx, m);
    }
  }

  /** And every pair cancel of such a block has raised the floor of its maker and ordered pair to its bound at
      least. */
  lemma PairCancelsRaiseFloors(c: CancelChain, start: int, d: State, stored: F.FloorTable, attempts: seq<FillScan.Attempt>,
                               maxBlocks: nat, b: int, tx: CancelTx, m: Symbol)
    requires FillScan.NeverMalformed(attempts)
    requires start < b <= Ticks(c, Boot(start, d, stored), attempts, maxBlocks).lastScanned
    requires tx in c.block(b) && tx.PairCancel? && FindMarket(c.markets, c.listing, tx.makerToken, tx.takerToken) == Some(m)
    ensures var t := F.Triple(tx.maker, tx.makerToken, tx.takerToken);
            var floors := Ticks(c, Boot(start, d, stored), attempts, maxBlocks).floors;
            t in floors && floors[t].minValidSalt >= tx.minValidSalt
  {
    var w := Ticks(c, Boot(start, d, stored), attempts, maxBlocks);
    var t := F.Triple(tx.maker, tx.makerToken, tx.takerToken);
    TicksTrack(c, stored, Boot(start, d, stored), start, attempts, maxBlocks);
    EventOfBlock(c, c.block(b), tx, m);
    CleanScanHasBlock(c, start, b, w.reach);
    F.FloorIsTheMaximum(stored, w.events, t);
  }

  lemma {:induction false} CancelScanEnds(c: CancelChain, w: CancelWatch, b: int, target: int, fetch: int -> FillScan.Fetch)
    ensures ScanFrom(c, w, b, target, fetch).1 <==> forall x :: b <= x <= target ==> fetch(x) != FillScan.Failed
    decreases target - b + 1
  {
    if b <= target && fetch(b) != FillScan.Failed {
      CancelScanEnds(c, if fetch(b) == FillScan.Block then ScanTxs(c, w, c.block(b)).(reach := Max(w.reach, b)) else w, b + 1,
                     target, fetch);
    }
  }

  /** A tick whose head is above the cursor moves it to the head, but by at most `maxBlocks`, exactly when no
      block on the way failed to load; malformed ones are passed over. Any other tick leaves it. */
  lemma CancelTickEnds(c: CancelChain, w: CancelWatch, a: FillScan.Attempt, maxBlocks: nat)
    ensures TickOp(c, w, a, maxBlocks).lastScanned
         == if a.latest.None? || a.latest.value <= w.lastScanned then w.lastScanned
            else
              var target := Min(a.latest.value, w.lastScanned + maxBlocks);
              if forall x :: w.lastScanned < x <= target ==> a.fetch(x) != FillScan.Failed then target else w.lastScanned
  {
    if a.latest.Some? && a.latest.value > w.lastScanned {
      var target := Min(a.latest.value, w.lastScanned + maxBlocks);
      CancelScanEnds(c, w, w.lastScanned + 1, target, a.fetch);
      CursorUnmovedByScan(c, w, w.lastScanned + 1, target, a.fetch);
    }
  }
}
