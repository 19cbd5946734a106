/** The cancel watcher: a cursor that never goes back, cancels that may repeat, floors that do not
    mind, and the service as it runs.
    Models apps/api/src/onchain/cancel-watcher.service.ts:273-639. */
module CancelScan {
  import opened Prelude
  import opened Desk
  import opened Coherence
  import opened Placement
  import opened F = Floors
  import FillScan

  /** A transaction to the exchange, as far as its data is a well-formed cancel. */
  datatype CancelTx =
    | Unrelated
    | PairCancel(maker: Address, makerToken: Address, takerToken: Address, minValidSalt: nat, txHash: Option<TxHash>)
    | OrderCancel(makerToken: Address, takerToken: Address, orderHash: Hash)

  /** `saltOf` is the salt in an order's stored raw order, absent when there is none. */
  datatype CancelChain = CancelChain(block: int -> seq<CancelTx>, markets: map<Symbol, Rules>, listing: seq<Symbol>,
                                     saltOf: map<Hash, nat>)

  // ---------------------------------------------------------------------------
  // One transaction
  // ---------------------------------------------------------------------------

  function MarketOf(c: CancelChain, tx: CancelTx): Option<Symbol> {
    if tx.Unrelated? then None else FindMarket(c.markets, c.listing, tx.makerToken, tx.takerToken)
  }

  /** A placed order of this maker whose salt is below the bound. */
  predicate Invalidated(c: CancelChain, rows: map<Hash, Row>, tx: CancelTx, h: Hash)
    requires tx.PairCancel? && h in rows
  {
    rows[h].maker == tx.maker && h in c.saltOf && c.saltOf[h] < tx.minValidSalt
  }

  function RetractAll(d: State, m: Symbol, ids: seq<Hash>): State {
    if ids == [] then d else RetractOp(RetractAll(d, m, ids[..|ids| - 1]), m, ids[|ids| - 1])
  }

  /** The listed orders a pair cancel invalidates, in listing order. */
  function Doomed(c: CancelChain, rows: map<Hash, Row>, tx: CancelTx, ids: seq<Hash>): (r: seq<Hash>)
    requires tx.PairCancel? && forall h :: h in ids ==> h in rows
    ensures forall h :: h in r <==> h in ids && Invalidated(c, rows, tx, h)
  {
    if ids == [] then []
    else
      var last := ids[|ids| - 1];
      assert ids == ids[..|ids| - 1] + [last];
      Doomed(c, rows, tx, ids[..|ids| - 1]) + if Invalidated(c, rows, tx, last) then [last] else []
  }

  function EventOf(c: CancelChain, tx: CancelTx): Option<PairCancelled> {
    if tx.PairCancel? && MarketOf(c, tx).Some? then
      Some(PairCancelled(Triple(tx.maker, tx.makerToken, tx.takerToken), tx.minValidSalt, tx.txHash))
    else None
  }

  ghost function DeskAfter(c: CancelChain, d: State, tx: CancelTx): State {
    match MarketOf(c, tx)
    case None => d
    case Some(m) =>
      if tx.PairCancel? then RetractAll(d, m, Doomed(c, d.rows, tx, Listing(d.rows, m)))
      else RetractOp(d, m, tx.orderHash)
  }

  // ---------------------------------------------------------------------------
  // What a pair cancel does to the desk
  // ---------------------------------------------------------------------------

  lemma RetractRows(d: State, m: Symbol, id: Hash)
    ensures RetractOp(d, m, id).rows == StatusSet(d.rows, id, CANCELLED)
    ensures RetractOp(d, m, id).books == d.books[m := Drop(BookOf(d, m), id)]
  {
  }

  /** Every retracted order is off its book with its row cancelled; no other row changes. */
  predicate Gone(d: State, d': State, m: Symbol, ids: seq<Hash>) {
    && d'.rows.Keys == d.rows.Keys && d'.trades == d.trades
    && (forall h :: h in d.rows ==> d'.rows[h] == if h in ids then d.rows[h].(status := CANCELLED) else d.rows[h])
    && (forall h :: h in ids ==> !Holds(BookOf(d', m), h))
  }

  lemma {:induction false} RetractAllKeeps(d: State, m: Symbol, ids: seq<Hash>)
    requires Coherent(d) && forall h :: h in ids ==> h in d.rows && d.rows[h].market == m
    ensures Coherent(RetractAll(d, m, ids)) && Gone(d, RetractAll(d, m, ids), m, ids)
  {
    if ids != [] {
      var front, last := ids[..|ids| - 1], ids[|ids| - 1];
      assert ids == front + [last];
      RetractAllKeeps(d, m, front);
      var d1 := RetractAll(d, m, front);
      NotElsewhere(d1, m, last);
      RetractKeepsIff(d1, m, last);
      GoneOneMore(d, d1, m, front, last);
    }
  }

  lemma GoneOneMore(d: State, d1: State, m: Symbol, front: seq<Hash>, last: Hash)
    requires Gone(d, d1, m, front) && last in d.rows
    ensures Gone(d, RetractOp(d1, m, last), m, front + [last])
  {
    RetractRows(d1, m, last);
  }

  /** A pair cancel keeps the desk coherent, cancels exactly the maker's listed orders salted below
      the bound, on either side of the market, and takes them off the book. */
  lemma PairCancelTakesExactly(c: CancelChain, d: State, tx: CancelTx, m: Symbol)
    requires Coherent(d) && tx.PairCancel? && MarketOf(c, tx) == Some(m)
    ensures var d' := DeskAfter(c, d, tx);
            && Coherent(d') && d'.rows.Keys == d.rows.Keys && d'.trades == d.trades
            && forall h :: h in d.rows ==>
                 d'.rows[h] == if h in Listing(d.rows, m) && Invalidated(c, d.rows, tx, h)
                               then d.rows[h].(status := CANCELLED) else d.rows[h]
    ensures forall h :: h in Listing(d.rows, m) && Invalidated(c, d.rows, tx, h) ==>
              !Holds(BookOf(DeskAfter(c, d, tx), m), h)
  {
    RetractAllKeeps(d, m, Doomed(c, d.rows, tx, Listing(d.rows, m)));
  }

  // ---------------------------------------------------------------------------
  // The machine
  // ---------------------------------------------------------------------------

  /** `events` and `reach` (the highest block gone through) are history. */
  datatype CancelWatch = CancelWatch(lastScanned: int, reach: int, desk: State, floors: FloorTable, events: seq<PairCancelled>)

  ghost function ScanTx(c: CancelChain, w: CancelWatch, tx: CancelTx): CancelWatch {
    var w1 := w.(desk := DeskAfter(c, w.desk, tx));
    match EventOf(c, tx)
    case None => w1
    case Some(e) => w1.(floors := F.Upserted(w.floors, e), events := w.events + [e])
  }

  ghost function ScanTxs(c: CancelChain, w: CancelWatch, txs: seq<CancelTx>): CancelWatch {
    if txs == [] then w else ScanTx(c, ScanTxs(c, w, txs[..|txs| - 1]), txs[|txs| - 1])
  }

  ghost function ScanFrom(c: CancelChain, w: CancelWatch, b: int, target: int, fetch: int -> FillScan.Fetch): (CancelWatch, bool)
    decreases target - b + 1
  {
    if b > target then (w, true)
    else
      match fetch(b)
      case Failed => (w, false)
      case Malformed => ScanFrom(c, w, b + 1, target, fetch)
      case Block => ScanFrom(c, ScanTxs(c, w, c.block(b)).(reach := Max(w.reach, b)), b + 1, target, fetch)
  }

  /** Unlike the fill watcher, a head at or below the cursor changes nothing. */
  ghost function TickOp(c: CancelChain, w: CancelWatch, a: FillScan.Attempt, maxBlocks: nat): CancelWatch {
    if a.latest.None? || a.latest.value <= w.lastScanned then w
    else
      var target := Min(a.latest.value, w.lastScanned + maxBlocks);
      var (w', finished) := ScanFrom(c, w, w.lastScanned + 1, target, a.fetch);
      if finished then w'.(lastScanned := target) else w'
  }

  /** The tick met a provider failure: no head, or a block that did not load. */
  ghost predicate Stalls(c: CancelChain, w: CancelWatch, a: FillScan.Attempt, maxBlocks: nat) {
    a.latest.None? ||
    (a.latest.value > w.lastScanned &&
     !ScanFrom(c, w, w.lastScanned + 1, Min(a.latest.value, w.lastScanned + maxBlocks), a.fetch).1)
  }

  ghost function Ticks(c: CancelChain, w: CancelWatch, attempts: seq<FillScan.Attempt>, maxBlocks: nat): CancelWatch {
    if attempts == [] then w
    else TickOp(c, Ticks(c, w, attempts[..|attempts| - 1], maxBlocks), attempts[|attempts| - 1], maxBlocks)
  }

  /** The pair cancels of the blocks after `start` up to `last`, each once, in chain order. */
  function CleanScan(c: CancelChain, start: int, last: int): seq<PairCancelled>
    decreases last - start
  {
    if last <= start then [] else CleanScan(c, start, last - 1) + EventsIn(c, c.block(last))
  }

  function EventsIn(c: CancelChain, txs: seq<CancelTx>): seq<PairCancelled> {
    if txs == [] then []
    else
      var e := EventOf(c, txs[|txs| - 1]);
      EventsIn(c, txs[..|txs| - 1]) + if e.Some? then [e.value] else []
  }

  predicate SameEvents(a: seq<PairCancelled>, b: seq<PairCancelled>) {
    (forall e :: e in a ==> e in b) && (forall e :: e in b ==> e in a)
  }

  /** The floors are what was stored at the start and the events make them, and the events are the ones
      a clean scan up to `reach` would see, some of them perhaps more than once. */
  predicate Tracks(c: CancelChain, start: int, stored: FloorTable, w: CancelWatch) {
    && start <= w.lastScanned <= w.reach
    && w.floors == After(stored, w.events)
    && SameEvents(w.events, CleanScan(c, start, w.reach))
  }

  lemma AfterOneMore(stored: FloorTable, events: seq<PairCancelled>, e: PairCancelled)
    ensures After(stored, events + [e]) == F.Upserted(After(stored, events), e)
  {
    assert (events + [e])[..|events + [e]| - 1] == events;
  }

  lemma ScanTxTracks(c: CancelChain, stored: FloorTable, w: CancelWatch, tx: CancelTx)
    requires w.floors == After(stored, w.events)
    ensures var w' := ScanTx(c, w, tx);
            && w'.floors == After(stored, w'.events) && w'.lastScanned == w.lastScanned && w'.reach == w.reach
            && w'.events == w.events + if EventOf(c, tx).Some? then [EventOf(c, tx).value] else []
  {
    if EventOf(c, tx).Some? {
      AfterOneMore(stored, w.events, EventOf(c, tx).value);
    } else {
      assert w.events + [] == w.events;
    }
  }

  lemma {:induction false} ScanTxsTrack(c: CancelChain, stored: FloorTable, w: CancelWatch, txs: seq<CancelTx>)
    requires w.floors == After(stored, w.events)
    ensures ScanTxs(c, w, txs).floors == After(stored, ScanTxs(c, w, txs).events)
    ensures ScanTxs(c, w, txs).lastScanned == w.lastScanned && ScanTxs(c, w, txs).reach == w.reach
    ensures ScanTxs(c, w, txs).events == w.events + EventsIn(c, txs)
  {
    if txs == [] {
      assert w.events + [] == w.events;
    } else {
      var front, last := txs[..|txs| - 1], txs[|txs| - 1];
      ScanTxsTrack(c, stored, w, front);
      ScanTxTracks(c, stored, ScanTxs(c, w, front), last);
      var more := if EventOf(c, last).Some? then [EventOf(c, last).value] else [];
      assert w.events + (EventsIn(c, front) + more) == w.events + EventsIn(c, front) + more;
    }
  }

  lemma {:induction false} CleanScanHasBlock(c: CancelChain, start: int, b: int, last: int)
    requires start < b <= last
    ensures forall e :: e in EventsIn(c, c.block(b)) ==> e in CleanScan(c, start, last)
    decreases last - start
  {
    if b < last {
      CleanScanHasBlock(c, start, b, last - 1);
    }
  }

  lemma SameEventsAgain(a: seq<PairCancelled>, b: seq<PairCancelled>, more: seq<PairCancelled>)
    requires SameEvents(a, b)
    ensures SameEvents(a + more, b + more)
    ensures (forall e :: e in more ==> e in b) ==> SameEvents(a + more, b)
  {
  }

  /** Going through block `b`, whether for the first time or again. */
  lemma BlockTracks(c: CancelChain, start: int, stored: FloorTable, w: CancelWatch, b: int)
    requires Tracks(c, start, stored, w) && start < b <= w.reach + 1
    ensures Tracks(c, start, stored, ScanTxs(c, w, c.block(b)).(reach := Max(w.reach, b)))
  {
    ScanTxsTrack(c, stored, w, c.block(b));
    SameEventsAgain(w.events, CleanScan(c, start, w.reach), EventsIn(c, c.block(b)));
    if b <= w.reach {
      CleanScanHasBlock(c, start, b, w.reach);
    } else {
      assert CleanScan(c, start, b) == CleanScan(c, start, w.reach) + EventsIn(c, c.block(b));
    }
  }

  lemma {:induction false} ScanFromTracks(c: CancelChain, start: int, stored: FloorTable, w: CancelWatch, b: int,
                                          target: int, fetch: int -> FillScan.Fetch)
    requires Tracks(c, start, stored, w) && start < b <= w.reach + 1
    requires forall x :: fetch(x) != FillScan.Malformed
    ensures var (w', finished) := ScanFrom(c, w, b, target, fetch);
            && Tracks(c, start, stored, w') && w'.lastScanned == w.lastScanned && w.reach <= w'.reach
            && (finished ==> target <= w'.reach || target < b)
    decreases target - b + 1
  {
    if b <= target && fetch(b) == FillScan.Block {
      BlockTracks(c, start, stored, w, b);
      ScanTxsTrack(c, stored, w, c.block(b));
      ScanFromTracks(c, start, stored, ScanTxs(c, w, c.block(b)).(reach := Max(w.reach, b)), b + 1, target, fetch);
    }
  }

  lemma {:induction false} TicksTrack(c: CancelChain, stored: FloorTable, w: CancelWatch, start: int, attempts: seq<FillScan.Attempt>,
                                      maxBlocks: nat)
    requires Tracks(c, start, stored, w) && FillScan.NeverMalformed(attempts)
    ensures Tracks(c, start, stored, Ticks(c, w, attempts, maxBlocks))
  {
    if attempts != [] {
      var front, a := attempts[..|attempts| - 1], attempts[|attempts| - 1];
      assert forall x :: x in front ==> x in attempts;
      TicksTrack(c, stored, w, start, front, maxBlocks);
      var w1 := Ticks(c, w, front, maxBlocks);
      assert a in attempts;
      if a.latest.Some? && a.latest.value > w1.lastScanned {
        ScanFromTracks(c, start, stored, w1, w1.lastScanned + 1, Min(a.latest.value, w1.lastScanned + maxBlocks), a.fetch);
      }
    }
  }

  /** A process starts from the saved cursor and the stored floors. */
  ghost function Boot(start: int, d: State, stored: FloorTable): CancelWatch {
    CancelWatch(start, start, d, stored, [])
  }

  /** Without malformed blocks, any schedule of failures, capped batches and head regressions leaves
      for every triple the stored floor raised by one clean pass over the chain, at least up to the
      cursor, though blocks may have been gone through several times. */
  lemma FloorsSurviveAnySchedule(c: CancelChain, start: int, d: State, stored: FloorTable, attempts: seq<FillScan.Attempt>,
                                 maxBlocks: nat, t: Triple)
    requires FillScan.NeverMalformed(attempts)
    ensures var w := Ticks(c, Boot(start, d, stored), attempts, maxBlocks);
            && start <= w.lastScanned <= w.reach
            && FloorOf(w.floors, t) == FloorOf(After(stored, CleanScan(c, start, w.reach)), t)
  {
    TicksTrack(c, stored, Boot(start, d, stored), start, attempts, maxBlocks);
    var w := Ticks(c, Boot(start, d, stored), attempts, maxBlocks);
    FloorIgnoresOrderAndDuplicates(stored, w.events, CleanScan(c, start, w.reach), t);
  }

  lemma {:induction false} CursorUnmovedByScan(c: CancelChain, w: CancelWatch, b: int, target: int, fetch: int -> FillScan.Fetch)
    ensures ScanFrom(c, w, b, target, fetch).0.lastScanned == w.lastScanned
    decreases target - b + 1
  {
    if b <= target {
      match fetch(b)
      case Failed =>
      case Malformed => CursorUnmovedByScan(c, w, b + 1, target, fetch);
      case Block =>
        TxsLeaveCursor(c, w, c.block(b));
        CursorUnmovedByScan(c, ScanTxs(c, w, c.block(b)).(reach := Max(w.reach, b)), b + 1, target, fetch);
    }
  }

  lemma {:induction false} TxsLeaveCursor(c: CancelChain, w: CancelWatch, txs: seq<CancelTx>)
    ensures ScanTxs(c, w, txs).lastScanned == w.lastScanned
  {
    if txs != [] {
      TxsLeaveCursor(c, w, txs[..|txs| - 1]);
    }
  }

  /** The cursor never goes back, whatever heads the provider reports. */
  lemma {:induction false} CursorNeverGoesBack(c: CancelChain, w: CancelWatch, attempts: seq<FillScan.Attempt>, maxBlocks: nat)
    ensures w.lastScanned <= Ticks(c, w, attempts, maxBlocks).lastScanned
  {
    if attempts != [] {
      var front, a := attempts[..|attempts| - 1], attempts[|attempts| - 1];
      CursorNeverGoesBack(c, w, front, maxBlocks);
      var w1 := Ticks(c, w, front, maxBlocks);
      if a.latest.Some? && a.latest.value > w1.lastScanned {
        CursorUnmovedByScan(c, w1, w1.lastScanned + 1, Min(a.latest.value, w1.lastScanned + maxBlocks), a.fetch);
      }
    }
  }
}
