/** Reconciling watched fills with the desk and the waiting intents, and the watcher as it runs.
    Models apps/api/src/onchain/fill-watcher.service.ts:262-404 and 485-667. */
module FillWatcher {
  import opened Prelude
  import opened Levels
  import opened Desk
  import opened Coherence
  import opened FillScan
  import opened OrderBooks
  import IntentStore
  import Sea
  import SeaServices

  function TradeOf(f: Found): Trade {
    Trade(f.market, f.key.orderHash, f.taker, f.priceTicks, f.key.execBase, f.key.tx)
  }

  function Recorded(d: State, f: Found): State {
    d.(trades := d.trades + [TradeOf(f)])
  }

  /** A reconciled fill is one trade and one external fill; a reverted one leaves the desk alone. */
  ghost function Reconciled(d: State, e: Effect, now: int): State {
    match e
    case SetAside(_) => d
    case Applied(f) =>
      ExternalFillOp(Recorded(d, f), f.market, f.key.orderHash, f.key.execBase,
                     f.key.orderHash in Listing(d.rows, f.market), now).0
  }

  ghost function ReconcileAll(d: State, effects: seq<Effect>, clock: nat -> int): State {
    if effects == [] then d
    else Reconciled(ReconcileAll(d, effects[..|effects| - 1], clock), effects[|effects| - 1], clock(|effects| - 1))
  }

  // ---------------------------------------------------------------------------
  // What the effects do to trades and remaining sizes
  // ---------------------------------------------------------------------------

  function TradesOf(effects: seq<Effect>): seq<Trade> {
    if effects == [] then []
    else
      var e := effects[|effects| - 1];
      TradesOf(effects[..|effects| - 1]) + if e.Applied? then [TradeOf(e.found)] else []
  }

  /** Base of one order filled by the effects. */
  function TakenOf(effects: seq<Effect>, id: Hash): int {
    if effects == [] then 0
    else
      var e := effects[|effects| - 1];
      TakenOf(effects[..|effects| - 1], id) + if e.Applied? && e.found.key.orderHash == id then e.found.key.execBase else 0
  }

  /** Fills name the market of their order, as the order's own hash makes sure. */
  predicate RightMarkets(rows: map<Hash, Row>, effects: seq<Effect>) {
    forall e :: e in effects && e.found.key.orderHash in rows ==> rows[e.found.key.orderHash].market == e.found.market
  }

  predicate Sizes(effects: seq<Effect>) {
    forall e :: e in effects ==> e.found.key.execBase > 0
  }

  lemma TradeIsMoot(d: State, f: Found)
    requires Coherent(d)
    ensures Coherent(Recorded(d, f))
  {
  }

  lemma HydrateKeepsRows(d: State, m: Symbol, o: Order)
    ensures HydrateOp(d, m, o).rows == d.rows && HydrateOp(d, m, o).trades == d.trades
  {
  }

  /** Rows after `exec` base was filled against one of them. */
  predicate TakenFrom(rows: map<Hash, Row>, rows': map<Hash, Row>, id: Hash, exec: int) {
    && rows'.Keys == rows.Keys
    && forall h :: h in rows ==>
         && rows'[h].market == rows[h].market
         && rows'[h].remainingBase == if h == id then Max(0, rows[h].remainingBase - exec) else rows[h].remainingBase
  }

  lemma DecreaseTakes(d: State, id: Hash, exec: int, s: OrderStatus)
    requires NoneNegative(d.rows) && exec > 0
    ensures id in d.rows ==> TakenFrom(d.rows, Decrease(d, id, Min(exec, d.rows[id].remainingBase), s).rows, id, exec)
    ensures id !in d.rows ==> TakenFrom(d.rows, d.rows, id, exec)
  {
  }

  lemma FillTakesInBook(d: State, m: Symbol, id: Hash, exec: int, listed: bool, now: int)
    requires Coherent(d) && exec > 0 && Holds(BookOf(d, m), id)
    ensures ExternalFillOp(d, m, id, exec, listed, now).0.trades == d.trades
    ensures TakenFrom(d.rows, ExternalFillOp(d, m, id, exec, listed, now).0.rows, id, exec)
  {
    BookOfBacked(d, m);
    assert Backed(d.rows, m, Locate(BookOf(d, m), id).value);
    DecreaseTakes(d, id, exec, FILLED);
    DecreaseTakes(d, id, exec, PARTIALLY_FILLED);
  }

  lemma FillTakesOutOfBook(d: State, m: Symbol, id: Hash, exec: int, listed: bool, now: int)
    requires NoneNegative(d.rows) && exec > 0 && !Holds(BookOf(d, m), id)
    ensures ExternalFillOp(d, m, id, exec, listed, now).0.trades == d.trades
    ensures TakenFrom(d.rows, ExternalFillOp(d, m, id, exec, listed, now).0.rows, id, exec)
  {
    if id in d.rows {
      var row := d.rows[id];
      var taken := Min(exec, row.remainingBase);
      var s := if taken >= row.remainingBase then FILLED else PARTIALLY_FILLED;
      DecreaseTakes(d, id, exec, s);
      HydrateKeepsRows(Decrease(d, id, taken, s), m, LevelOfRow(id, row, row.remainingBase - taken, now));
    } else {
      DecreaseTakes(d, id, exec, FILLED);
    }
  }

  /** One external fill takes from its row what it can, and from no other row. */
  lemma FillTakes(d: State, m: Symbol, id: Hash, exec: int, listed: bool, now: int)
    requires Coherent(d) && exec > 0
    ensures ExternalFillOp(d, m, id, exec, listed, now).0.trades == d.trades
    ensures TakenFrom(d.rows, ExternalFillOp(d, m, id, exec, listed, now).0.rows, id, exec)
  {
    if Holds(BookOf(d, m), id) {
      FillTakesInBook(d, m, id, exec, listed, now);
    } else {
      FillTakesOutOfBook(d, m, id, exec, listed, now);
    }
  }

  lemma ReconcileStep(d: State, e: Effect, now: int)
    requires Coherent(d) && e.found.key.execBase > 0
    requires e.found.key.orderHash in d.rows ==> d.rows[e.found.key.orderHash].market == e.found.market
    ensures Coherent(Reconciled(d, e, now)) && Reconciled(d, e, now).rows.Keys == d.rows.Keys
    ensures Reconciled(d, e, now).trades == d.trades + if e.Applied? then [TradeOf(e.found)] else []
    ensures forall h :: h in d.rows ==>
              && Reconciled(d, e, now).rows[h].market == d.rows[h].market
              && Reconciled(d, e, now).rows[h].remainingBase
                 == if e.Applied? && h == e.found.key.orderHash then Max(0, d.rows[h].remainingBase - e.found.key.execBase)
                    else d.rows[h].remainingBase
  {
    if e.Applied? {
      var f := e.found;
      var d1 := Recorded(d, f);
      TradeIsMoot(d, f);
      NotElsewhere(d1, f.market, f.key.orderHash);
      var listed := f.key.orderHash in Listing(d.rows, f.market);
      ExternalFillKeepsIff(d1, f.market, f.key.orderHash, f.key.execBase, listed, now);
      FillTakes(d1, f.market, f.key.orderHash, f.key.execBase, listed, now);
    } else {
      assert d.trades + [] == d.trades;
    }
  }

  lemma {:induction false} TakenNonNegative(effects: seq<Effect>, id: Hash)
    requires Sizes(effects)
    ensures TakenOf(effects, id) >= 0
  {
    if effects != [] {
      TakenNonNegative(effects[..|effects| - 1], id);
    }
  }

  /** Same rows in the same markets, each with what it had less all that was filled, never below zero. */
  predicate Drained(rows: map<Hash, Row>, rows': map<Hash, Row>, effects: seq<Effect>) {
    && rows'.Keys == rows.Keys
    && forall h :: h in rows ==>
         rows'[h].market == rows[h].market && rows'[h].remainingBase == Max(0, rows[h].remainingBase - TakenOf(effects, h))
  }

  lemma DrainStep(rows: map<Hash, Row>, rows1: map<Hash, Row>, rows2: map<Hash, Row>, effects: seq<Effect>)
    requires effects != [] && Sizes(effects) && Drained(rows, rows1, effects[..|effects| - 1])
    requires var e := effects[|effects| - 1];
             && rows2.Keys == rows1.Keys
             && forall h :: h in rows1 ==>
                  && rows2[h].market == rows1[h].market
                  && rows2[h].remainingBase
                     == if e.Applied? && h == e.found.key.orderHash then Max(0, rows1[h].remainingBase - e.found.key.execBase)
                        else rows1[h].remainingBase
    ensures Drained(rows, rows2, effects)
  {
    forall h | h in rows ensures TakenOf(effects[..|effects| - 1], h) >= 0 {
      TakenNonNegative(effects[..|effects| - 1], h);
    }
  }

  /** Reconciling any list of effects keeps the desk coherent, adds exactly their trades in order,
      and leaves every order with what it had less all that was filled. */
  lemma {:induction false} EffectsDrainRows(d: State, effects: seq<Effect>, clock: nat -> int)
    requires Coherent(d) && Sizes(effects) && RightMarkets(d.rows, effects)
    ensures Coherent(ReconcileAll(d, effects, clock)) && Drained(d.rows, ReconcileAll(d, effects, clock).rows, effects)
    ensures ReconcileAll(d, effects, clock).trades == d.trades + TradesOf(effects)
  {
    if effects == [] {
      assert d.trades + [] == d.trades;
    } else {
      var front, e := effects[..|effects| - 1], effects[|effects| - 1];
      assert forall x :: x in front ==> x in effects;
      EffectsDrainRows(d, front, clock);
      var d1 := ReconcileAll(d, front, clock);
      assert e in effects;
      ReconcileStep(d1, e, clock(|effects| - 1));
      DrainStep(d.rows, d1.rows, Reconciled(d1, e, clock(|effects| - 1)).rows, effects);
    }
  }

  lemma {:induction false} ReconcileInParts(d: State, a: seq<Effect>, e: Effect, clock: nat -> int)
    ensures ReconcileAll(d, a + [e], clock) == Reconciled(ReconcileAll(d, a, clock), e, clock(|a|))
  {
    assert (a + [e])[..|a + [e]| - 1] == a;
  }

  // ---------------------------------------------------------------------------
  // What the effects do to the intents
  // ---------------------------------------------------------------------------

  /** A row waiting on the transaction, if there is one, is executed by a reconciled fill and failed by
      a reverted one. */
  ghost predicate Told(w: Sea.Ledger, e: Effect, now: int, w': Sea.Ledger) {
    match e.found.key.tx
    case None => w' == w
    case Some(tx) =>
      exists hit :: Sea.Found(w.rows, hit, tx, e.found.market, e.found.taker)
                    && w' == if e.Applied? then Sea.CloseOp(w, now, tx, hit) else Sea.RevertOp(w, now, tx, hit)
  }

  /** Effect by effect, in order. */
  ghost predicate ToldAll(w: Sea.Ledger, effects: seq<Effect>, now: int, w': Sea.Ledger) {
    if effects == [] then w' == w
    else
      var front, last := effects[..|effects| - 1], effects[|effects| - 1];
      exists w1 :: ToldAll(w, front, now, w1) && Told(w1, last, now, w')
  }

  lemma ToldOneMore(w: Sea.Ledger, effects: seq<Effect>, w1: Sea.Ledger, e: Effect, now: int, w': Sea.Ledger)
    requires ToldAll(w, effects, now, w1) && Told(w1, e, now, w')
    ensures ToldAll(w, effects + [e], now, w')
  {
    assert (effects + [e])[..|effects + [e]| - 1] == effects;
  }

  // ---------------------------------------------------------------------------
  // The watcher
  // ---------------------------------------------------------------------------

  /** A persisted cursor is resumed unless it is missing, zero or ahead of the head. */
  function InitCursor(persisted: Option<int>, latest: int): int {
    if persisted.Some? && persisted.value != 0 && persisted.value <= latest then persisted.value else Max(0, latest - 1)
  }

  class FillWatcherService {
    const chain: Chain
    const ob: OrderBookService
    const intents: IntentStore.IntentRepository
    const events: SeaServices.IntentEventRepository
    const maxBlocksPerTick: nat
    var lastScanned: int
    var cooldownUntil: int
    var needsCursorInit: bool
    var seen: seq<Key>
    ghost var maxSaved: int
    ghost var effects: seq<Effect>
    ghost var done: set<int>

    ghost function Watched(): Watch
      reads this
    {
      Watch(lastScanned, maxSaved, seen, effects, done)
    }

    ghost function Ledger(): Sea.Ledger
      reads intents, events
    {
      Sea.Ledger(intents.rows, events.log)
    }

    constructor (chain: Chain, ob: OrderBookService, intents: IntentStore.IntentRepository,
                 events: SeaServices.IntentEventRepository, maxBlocksPerTick: nat, start: Option<int>)
      requires chain.markets == ob.repo.markets
      ensures this.chain == chain && this.ob == ob && this.intents == intents && this.events == events
      ensures this.maxBlocksPerTick == maxBlocksPerTick
      ensures needsCursorInit == start.None? && Watched() == Boot(if start.Some? then start.value else 0)
    {
      this.chain, this.ob, this.intents, this.events := chain, ob, intents, events;
      this.maxBlocksPerTick := maxBlocksPerTick;
      var at := if start.Some? then start.value else 0;
      lastScanned, maxSaved := at, at;
      cooldownUntil, needsCursorInit, seen, effects, done := 0, start.None?, [], [], {};
    }

    method InitCursorFrom(persisted: Option<int>, latest: int)
      modifies this
      ensures lastScanned == InitCursor(persisted, latest) && maxSaved == lastScanned
      ensures seen == old(seen) && effects == old(effects) && done == old(done)
      ensures cooldownUntil == old(cooldownUntil) && needsCursorInit == old(needsCursorInit)
    {
      if persisted.Some? && persisted.value != 0 && persisted.value <= latest {
        lastScanned := persisted.value;
      } else {
        lastScanned := Max(0, latest - 1);
      }
      maxSaved := lastScanned;
    }

    /** One tick at `now`; `a` is what the provider answers and `transient` whether its failures are
        of the kind that pause the watcher. */
    method Tick(now: int, a: Attempt, transient: bool, backoffMs: nat, persisted: Option<int>)
      requires chain.markets == ob.repo.markets
      modifies this, ob`books, ob.repo`orders, ob.repo`trades, intents, events
      ensures now < old(cooldownUntil) || a.latest.None? ==>
                && Watched() == old(Watched()) && ob.Abs() == old(ob.Abs()) && Ledger() == old(Ledger())
                && needsCursorInit == old(needsCursorInit)
      ensures now < old(cooldownUntil) ==> cooldownUntil == old(cooldownUntil)
      ensures now >= old(cooldownUntil) && a.latest.None? ==>
                cooldownUntil == if transient then now + backoffMs else old(cooldownUntil)
      ensures now >= old(cooldownUntil) && a.latest.Some? ==>
                var at := InitCursor(persisted, a.latest.value);
                var from := if old(needsCursorInit) then old(Watched()).(lastScanned := at, maxSaved := at) else old(Watched());
                && !needsCursorInit
                && Watched() == TickOp(chain, from, a, maxBlocksPerTick)
                && cooldownUntil == (if transient && Stalls(chain, from, a, maxBlocksPerTick) then now + backoffMs
                                     else old(cooldownUntil))
                && old(effects) <= effects
                && ob.Abs() == ReconcileAll(old(ob.Abs()), effects[|old(effects)|..], (_: nat) => now)
                && ToldAll(old(Ledger()), effects[|old(effects)|..], now, Ledger())
    {
      if now < cooldownUntil {
        return;
      }
      if a.latest.None? {
        if transient { cooldownUntil := now + backoffMs; }
        return;
      }
      var latest := a.latest.value;
      if needsCursorInit {
        InitCursorFrom(persisted, latest);
        needsCursorInit := false;
      }
      ghost var from := Watched();
      var target := Min(latest, lastScanned + maxBlocksPerTick);
      var finished := ScanRange(target, now, a);
      if finished {
        lastScanned, maxSaved := target, Max(maxSaved, target);
      } else if transient {
        cooldownUntil := now + backoffMs;
      }
    }

    /** The block loop; false when a fetch failed. */
    method ScanRange(target: int, now: int, a: Attempt) returns (finished: bool)
      requires chain.markets == ob.repo.markets
      modifies this`seen, this`effects, this`done, ob`books, ob.repo`orders, ob.repo`trades, intents, events
      ensures (Watched(), finished) == ScanFrom(chain, old(Watched()), old(lastScanned) + 1, target, a)
      ensures old(effects) <= effects
      ensures ob.Abs() == ReconcileAll(old(ob.Abs()), effects[|old(effects)|..], (_: nat) => now)
      ensures ToldAll(old(Ledger()), effects[|old(effects)|..], now, Ledger())
    {
      var b := lastScanned + 1;
      assert effects[|effects|..] == [];
      while b <= target
        invariant ScanFrom(chain, old(Watched()), old(lastScanned) + 1, target, a) == ScanFrom(chain, Watched(), b, target, a)
        invariant old(effects) <= effects
        invariant ob.Abs() == ReconcileAll(old(ob.Abs()), effects[|old(effects)|..], (_: nat) => now)
        invariant ToldAll(old(Ledger()), effects[|old(effects)|..], now, Ledger())
        decreases target - b + 1
      {
        match a.fetch(b) {
          case Failed => return false;
          case Malformed =>
          case Block => ScanTransactions(b, now, a.reverted, old(effects), old(ob.Abs()), old(Ledger()));
        }
        b := b + 1;
      }
      finished := true;
    }

    /** The transaction loop of one block; `first`, `desk` and `ledger` are the effects, the desk and the
        intents when the tick began. */
    method ScanTransactions(b: int, now: int, reverted: TxHash -> bool, ghost first: seq<Effect>, ghost desk: State,
                            ghost ledger: Sea.Ledger)
      requires chain.markets == ob.repo.markets
      requires first <= effects && ob.Abs() == ReconcileAll(desk, effects[|first|..], (_: nat) => now)
      requires ToldAll(ledger, effects[|first|..], now, Ledger())
      modifies this`seen, this`effects, this`done, ob`books, ob.repo`orders, ob.repo`trades, intents, events
      ensures Watched() == ScanBlock(chain, old(Watched()), b, reverted)
      ensures first <= effects && ob.Abs() == ReconcileAll(desk, effects[|first|..], (_: nat) => now)
      ensures ToldAll(ledger, effects[|first|..], now, Ledger())
    {
      var txs := chain.block(b);
      var i := 0;
      while i < |txs|
        invariant 0 <= i <= |txs|
        invariant Watched() == ScanTxs(chain, old(Watched()), txs[..i], reverted)
        invariant first <= effects && ob.Abs() == ReconcileAll(desk, effects[|first|..], (_: nat) => now)
        invariant ToldAll(ledger, effects[|first|..], now, Ledger())
      {
        assert txs[..i + 1][..i] == txs[..i];
        var found := Decode(chain, txs[i]);
        if found.Some? && found.value.key !in seen {
          Handle(found.value, now, reverted, first, desk, ledger);
        }
        i := i + 1;
      }
      assert txs[..i] == txs;
      done := done + {b};
    }

    /** The intent waiting on this transaction, if any, and its event. */
    method TellIntent(f: Found, executed: bool, now: int)
      requires executed || f.key.tx.Some?
      modifies intents, events
      ensures Told(old(Ledger()), if executed then Applied(f) else SetAside(f), now, Ledger())
    {
      if f.key.tx.None? {
        return;
      }
      var tx := f.key.tx.value;
      var hit := intents.FindExecutingByTxHashForOwner(tx, f.market, f.taker);
      assert Sea.Found(old(Ledger()).rows, hit, tx, f.market, f.taker);
      if hit.None? {
        return;
      }
      if executed {
        var ok := intents.MarkExecuted(hit.value, tx, now);
        if ok { events.Append(hit.value, Sea.Executed); }
        assert Ledger() == Sea.CloseOp(old(Ledger()), now, tx, hit);
      } else {
        var ok := intents.MarkFailedFromExecuting(hit.value, tx, "tx_reverted", now);
        if ok { events.Append(hit.value, Sea.Failed); }
        assert Ledger() == Sea.RevertOp(old(Ledger()), now, tx, hit);
      }
    }

    /** A fill not seen before: with a reverted receipt only the waiting intent is told; otherwise trade,
        book, intent, memory. */
    method Handle(f: Found, now: int, reverted: TxHash -> bool, ghost first: seq<Effect>, ghost desk: State,
                  ghost ledger: Sea.Ledger)
      requires chain.markets == ob.repo.markets && f.market in ob.repo.markets && f.key.execBase > 0
      requires first <= effects && ob.Abs() == ReconcileAll(desk, effects[|first|..], (_: nat) => now)
      requires ToldAll(ledger, effects[|first|..], now, Ledger())
      modifies this`seen, this`effects, ob`books, ob.repo`orders, ob.repo`trades, intents, events
      ensures effects == old(effects) + [EffectOf(reverted, f)] && seen == Remember(old(seen), EffectOf(reverted, f))
      ensures first <= effects && ob.Abs() == ReconcileAll(desk, effects[|first|..], (_: nat) => now)
      ensures ToldAll(ledger, effects[|first|..], now, Ledger())
    {
      ghost var e := EffectOf(reverted, f);
      ghost var told := effects[|first|..];
      ReconcileInParts(desk, told, e, (_: nat) => now);
      assert (effects + [e])[|first|..] == told + [e];
      effects := effects + [e];
      if f.key.tx.Some? && reverted(f.key.tx.value) {
        TellIntent(f, false, now);
        ToldOneMore(ledger, told, old(Ledger()), e, now, Ledger());
        seen := seen + [f.key];
        return;
      }
      ob.repo.AddTrade(Trade(f.market, f.key.orderHash, f.taker, f.priceTicks, f.key.execBase, f.key.tx));
      assert ob.Abs() == Recorded(old(ob.Abs()), f);
      var status := ob.ApplyExternalFill(f.market, f.key.orderHash, f.key.execBase, now);
      TellIntent(f, true, now);
      ToldOneMore(ledger, told, old(Ledger()), e, now, Ledger());
      seen := seen + [f.key];
      if |seen| > SEEN_CAP {
        seen := seen[1..];
      }
    }
  }
}
