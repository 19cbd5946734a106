/** What a transaction leaves behind whose receipt always shows success: each of its fills counts
    once, as one trade and one decrement.
    Models apps/api/src/onchain/fill-watcher.service.ts:335-404 together with 589-603. */
module FillsOnce {
  import opened Prelude
  import opened Levels
  import opened Desk
  import opened Coherence
  import opened FillScan
  import opened FillWatcher
  import Reverts

  /** No receipt the watcher ever reads for this transaction shows a revert. */
  ghost predicate NeverReverted(attempts: seq<Attempt>, tx: Option<TxHash>) {
    forall a :: a in attempts && tx.Some? ==> !a.reverted(tx.value)
  }

  /** No effect of this transaction was set aside. */
  predicate AllApplied(effects: seq<Effect>, tx: Option<TxHash>) {
    forall e :: e in effects && e.found.key.tx == tx ==> e.Applied?
  }

  lemma {:induction false} TxsApply(c: Chain, w: Watch, txs: seq<ChainTx>, reverted: TxHash -> bool, tx: Option<TxHash>)
    requires (tx.Some? ==> !reverted(tx.value)) && AllApplied(w.effects, tx)
    ensures AllApplied(ScanTxs(c, w, txs, reverted).effects, tx)
  {
    if txs != [] {
      TxsApply(c, w, txs[..|txs| - 1], reverted, tx);
    }
  }

  lemma {:induction false} ScanApplies(c: Chain, w: Watch, b: int, target: int, a: Attempt, tx: Option<TxHash>)
    requires (tx.Some? ==> !a.reverted(tx.value)) && AllApplied(w.effects, tx)
    ensures AllApplied(ScanFrom(c, w, b, target, a).0.effects, tx)
    decreases target - b + 1
  {
    if b <= target && a.fetch(b) != Failed {
      if a.fetch(b) == FillScan.Block {
        TxsApply(c, w, c.block(b), a.reverted, tx);
        ScanApplies(c, ScanBlock(c, w, b, a.reverted), b + 1, target, a, tx);
      } else {
        ScanApplies(c, w, b + 1, target, a, tx);
      }
    }
  }

  lemma {:induction false} SuccessIsApplied(view: nat -> Chain, start: int, attempts: seq<Attempt>, maxBlocks: nat,
                                            tx: Option<TxHash>)
    requires NeverReverted(attempts, tx)
    ensures AllApplied(Ticks(view, start, attempts, maxBlocks).effects, tx)
  {
    if attempts != [] {
      var front, a := attempts[..|attempts| - 1], attempts[|attempts| - 1];
      assert a in attempts && forall x :: x in front ==> x in attempts;
      SuccessIsApplied(view, start, front, maxBlocks, tx);
      var w := Ticks(view, start, front, maxBlocks);
      if a.latest.Some? {
        ScanApplies(view(|attempts| - 1), w, w.lastScanned + 1, Min(a.latest.value, w.lastScanned + maxBlocks), a, tx);
      }
    }
  }

  /** The effects of all other fills. */
  function Without(effects: seq<Effect>, k: Key): seq<Effect> {
    if effects == [] then []
    else
      var e := effects[|effects| - 1];
      Without(effects[..|effects| - 1], k) + if e.found.key == k then [] else [e]
  }

  /** Adding a fill to the others, anywhere, adds its size to what its order gave up. */
  predicate TakenBeside(effects: seq<Effect>, f: Found, h: Hash) {
    TakenOf(effects, h) == TakenOf(Without(effects, f.key), h) + if h == f.key.orderHash then f.key.execBase else 0
  }

  predicate TradedOnce(effects: seq<Effect>, f: Found) {
    multiset(TradesOf(effects))[TradeOf(f)] == 1
  }

  lemma {:induction false} NothingToTakeOut(effects: seq<Effect>, k: Key)
    requires forall e :: e in effects ==> e.found.key != k
    ensures Without(effects, k) == effects
  {
    if effects != [] {
      NothingToTakeOut(effects[..|effects| - 1], k);
    }
  }

  lemma {:induction false} NoTradeWithoutKey(effects: seq<Effect>, f: Found)
    requires forall e :: e in effects ==> e.found.key != f.key
    ensures TradeOf(f) !in TradesOf(effects)
  {
    if effects != [] {
      NoTradeWithoutKey(effects[..|effects| - 1], f);
    }
  }

  lemma {:induction false} TakenOnce(effects: seq<Effect>, f: Found, i: nat, h: Hash)
    requires i < |effects| && effects[i] == Applied(f)
    requires forall j :: 0 <= j < |effects| && j != i ==> effects[j].found.key != f.key
    ensures TakenBeside(effects, f, h)
  {
    var front, e := effects[..|effects| - 1], effects[|effects| - 1];
    if i == |effects| - 1 {
      NothingToTakeOut(front, f.key);
      assert front + [] == front;
    } else {
      TakenOnce(front, f, i, h);
      Reverts.TradesOneMore(Without(front, f.key), e);
    }
  }

  lemma {:induction false} OneTrade(effects: seq<Effect>, f: Found, i: nat)
    requires i < |effects| && effects[i] == Applied(f)
    requires forall j :: 0 <= j < |effects| && j != i ==> effects[j].found.key != f.key
    ensures TradedOnce(effects, f)
  {
    var front, e := effects[..|effects| - 1], effects[|effects| - 1];
    if i == |effects| - 1 {
      NoTradeWithoutKey(front, f);
    } else {
      OneTrade(front, f, i);
      assert TradeOf(e.found) != TradeOf(f);
    }
  }

  /** The one effect with the key of a fill that took effect once. */
  lemma OnceByKey(effects: seq<Effect>, f: Found) returns (i: nat)
    requires FarApart(effects) && |effects| <= SEEN_CAP + 1 && Once(effects, f)
    ensures i < |effects| && effects[i].found == f
    ensures forall j :: 0 <= j < |effects| && j != i ==> effects[j].found.key != f.key
  {
    i :| 0 <= i < |effects| && effects[i].found == f;
  }

  /** Rows that gave up one fill besides what the other effects took. */
  predicate DrainedBeside(rows: map<Hash, Row>, rows': map<Hash, Row>, others: seq<Effect>, f: Found) {
    && rows'.Keys == rows.Keys
    && forall h :: h in rows ==>
         rows'[h].remainingBase
         == Max(0, rows[h].remainingBase - TakenOf(others, h) - if h == f.key.orderHash then f.key.execBase else 0)
  }

  lemma DrainedByOne(rows: map<Hash, Row>, rows': map<Hash, Row>, effects: seq<Effect>, f: Found, i: nat)
    requires Drained(rows, rows', effects)
    requires i < |effects| && effects[i] == Applied(f)
    requires forall j :: 0 <= j < |effects| && j != i ==> effects[j].found.key != f.key
    ensures DrainedBeside(rows, rows', Without(effects, f.key), f)
  {
    forall h | h in rows ensures TakenBeside(effects, f, h) {
      TakenOnce(effects, f, i, h);
    }
  }

  /** Each fill took effect once, was reconciled, and no other effect has its key. */
  lemma TookEffectOnce(c: Chain, start: int, attempts: seq<Attempt>, maxBlocks: nat, b: int, tx: ChainTx) returns (i: nat)
    requires DistinctHashes(c) && NeverMalformed(attempts) && NeverReverted(attempts, tx.hash)
    requires |Ticks(Steady(c), start, attempts, maxBlocks).effects| <= 10001
    requires start < b <= Ticks(Steady(c), start, attempts, maxBlocks).maxSaved && tx in c.block(b) && Decode(c, tx).Some?
    ensures var effects, f := Ticks(Steady(c), start, attempts, maxBlocks).effects, Decode(c, tx).value;
            && i < |effects| && effects[i] == Applied(f)
            && forall j :: 0 <= j < |effects| && j != i ==> effects[j].found.key != f.key
  {
    var effects := Ticks(Steady(c), start, attempts, maxBlocks).effects;
    EachFillExactlyOnce(c, start, attempts, maxBlocks, b, tx);
    TicksRemember(Steady(c), start, attempts, maxBlocks);
    SuccessIsApplied(Steady(c), start, attempts, maxBlocks, tx.hash);
    i := OnceByKey(effects, Decode(c, tx).value);
    assert effects[i] in effects;
  }

  /** Without malformed or changing blocks and within the memory, a fill whose receipts show success, in
      a block up to the highest saved cursor, is on the desk once whatever the schedule: exactly one of
      the trades added is its trade, and its order alone gives up its size once. */
  lemma EachFillCountsOnce(c: Chain, start: int, attempts: seq<Attempt>, maxBlocks: nat, b: int, tx: ChainTx, d: State,
                           clock: nat -> int)
    requires DistinctHashes(c) && NeverMalformed(attempts) && NeverReverted(attempts, tx.hash)
    requires |Ticks(Steady(c), start, attempts, maxBlocks).effects| <= 10001
    requires start < b <= Ticks(Steady(c), start, attempts, maxBlocks).maxSaved && tx in c.block(b) && Decode(c, tx).Some?
    requires Coherent(d) && RightMarkets(d.rows, Ticks(Steady(c), start, attempts, maxBlocks).effects)
    ensures var effects, f := Ticks(Steady(c), start, attempts, maxBlocks).effects, Decode(c, tx).value;
            var d' := ReconcileAll(d, effects, clock);
            && Coherent(d') && d'.trades == d.trades + TradesOf(effects) && TradedOnce(effects, f)
            && DrainedBeside(d.rows, d'.rows, Without(effects, f.key), f)
  {
    var effects, f := Ticks(Steady(c), start, attempts, maxBlocks).effects, Decode(c, tx).value;
    var i := TookEffectOnce(c, start, attempts, maxBlocks, b, tx);
    Reverts.EffectsHaveSizes(Steady(c), start, attempts, maxBlocks);
    EffectsDrainRows(d, effects, clock);
    OneTrade(effects, f, i);
    DrainedByOne(d.rows, ReconcileAll(d, effects, clock).rows, effects, f, i);
  }
}
