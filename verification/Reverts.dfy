/** What a transaction leaves behind whose receipt always shows a revert: nothing, neither on the
    desk nor in the intents. Models apps/api/src/onchain/fill-watcher.service.ts:512-581 beside the
    marker of apps/api/src/sea/intent.service.ts:429-507. */
module Reverts {
  import opened Prelude
  import opened Desk
  import opened Coherence
  import opened FillScan
  import opened FillWatcher
  import T = Tokens
  import P = Protocol
  import ProtocolTheorems

  /** The effects of all other transactions. */
  function Others(effects: seq<Effect>, tx: TxHash): seq<Effect> {
    if effects == [] then []
    else
      var e := effects[|effects| - 1];
      Others(effects[..|effects| - 1], tx) + if e.found.key.tx == Some(tx) then [] else [e]
  }

  predicate NoTradeOf(trades: seq<Trade>, tx: TxHash) {
    forall t :: t in trades ==> t.txHash != Some(tx)
  }

  lemma TradesOneMore(effects: seq<Effect>, e: Effect)
    ensures TradesOf(effects + [e]) == TradesOf(effects) + if e.Applied? then [TradeOf(e.found)] else []
    ensures forall h :: TakenOf(effects + [e], h)
                        == TakenOf(effects, h) + if e.Applied? && e.found.key.orderHash == h then e.found.key.execBase else 0
  {
    assert (effects + [e])[..|effects + [e]| - 1] == effects;
  }

  /** A transaction never reconciled adds nothing to trades or taken base. */
  lemma {:induction false} OnlyOthersCount(effects: seq<Effect>, tx: TxHash)
    requires NeverApplied(effects, tx)
    ensures TradesOf(effects) == TradesOf(Others(effects, tx)) && NoTradeOf(TradesOf(effects), tx)
    ensures forall h :: TakenOf(effects, h) == TakenOf(Others(effects, tx), h)
  {
    if effects != [] {
      var front, e := effects[..|effects| - 1], effects[|effects| - 1];
      assert e in effects && forall x :: x in front ==> x in effects;
      OnlyOthersCount(front, tx);
      if e.found.key.tx == Some(tx) {
        assert Others(front, tx) + [] == Others(front, tx) && TradesOf(front) + [] == TradesOf(front);
      } else {
        TradesOneMore(Others(front, tx), e);
      }
    }
  }

  lemma {:induction false} TxsHaveSizes(c: Chain, w: Watch, txs: seq<ChainTx>, reverted: TxHash -> bool)
    requires Sizes(w.effects)
    ensures Sizes(ScanTxs(c, w, txs, reverted).effects)
  {
    if txs != [] {
      TxsHaveSizes(c, w, txs[..|txs| - 1], reverted);
    }
  }

  lemma {:induction false} ScanHasSizes(c: Chain, w: Watch, b: int, target: int, a: Attempt)
    requires Sizes(w.effects)
    ensures Sizes(ScanFrom(c, w, b, target, a).0.effects)
    decreases target - b + 1
  {
    if b <= target && a.fetch(b) != Failed {
      if a.fetch(b) == FillScan.Block {
        TxsHaveSizes(c, w, c.block(b), a.reverted);
        ScanHasSizes(c, ScanBlock(c, w, b, a.reverted), b + 1, target, a);
      } else {
        ScanHasSizes(c, w, b + 1, target, a);
      }
    }
  }

  lemma {:induction false} EffectsHaveSizes(view: nat -> Chain, start: int, attempts: seq<Attempt>, maxBlocks: nat)
    ensures Sizes(Ticks(view, start, attempts, maxBlocks).effects)
  {
    if attempts != [] {
      var front, a := attempts[..|attempts| - 1], attempts[|attempts| - 1];
      EffectsHaveSizes(view, start, front, maxBlocks);
      var w := Ticks(view, start, front, maxBlocks);
      if a.latest.Some? {
        ScanHasSizes(view(|attempts| - 1), w, w.lastScanned + 1, Min(a.latest.value, w.lastScanned + maxBlocks), a);
      }
    }
  }

  /** When every receipt read for a transaction shows a revert, no schedule lets it touch the desk:
      trades and remaining sizes are what the other transactions' fills alone make them, and none
      of those trades names it. */
  lemma RevertedLeavesNoTrace(view: nat -> Chain, start: int, attempts: seq<Attempt>, maxBlocks: nat, tx: TxHash,
                              d: State, clock: nat -> int)
    requires AlwaysReverted(attempts, tx)
    requires Coherent(d) && RightMarkets(d.rows, Ticks(view, start, attempts, maxBlocks).effects)
    ensures var effects := Ticks(view, start, attempts, maxBlocks).effects;
            var d' := ReconcileAll(d, effects, clock);
            && Coherent(d')
            && d'.trades == d.trades + TradesOf(Others(effects, tx)) && NoTradeOf(TradesOf(Others(effects, tx)), tx)
            && Drained(d.rows, d'.rows, Others(effects, tx))
  {
    var effects := Ticks(view, start, attempts, maxBlocks).effects;
    RevertedNeverApplied(view, start, attempts, maxBlocks, tx);
    EffectsHaveSizes(view, start, attempts, maxBlocks);
    OnlyOthersCount(effects, tx);
    EffectsDrainRows(d, effects, clock);
  }

  /** The fills a run of the intent protocol sees are ones the watcher reconciled. */
  predicate FillsComeFrom(steps: seq<P.Step>, effects: seq<Effect>) {
    forall s :: s in steps && s.WatchFill? ==> exists e :: e in effects && e.Applied? && s.trade == TradeOf(e.found)
  }

  /** Nor does it execute any intent, whenever and however often a marker names it. */
  lemma RevertedNeverExecutes(env: T.Env, now: int, steps: seq<P.Step>, view: nat -> Chain, start: int, attempts: seq<Attempt>,
                              maxBlocks: nat, tx: TxHash, id: string)
    requires AlwaysReverted(attempts, tx)
    requires now > 0 && P.Legal(env, P.Start(now), steps)
    requires FillsComeFrom(steps, Ticks(view, start, attempts, maxBlocks).effects)
    ensures NoTradeOf(P.Run(env, P.Start(now), steps).trades, tx)
    ensures !ProtocolTheorems.ExecutedWith(P.Run(env, P.Start(now), steps), id, tx)
  {
    RevertedNeverApplied(view, start, attempts, maxBlocks, tx);
    ProtocolTheorems.UnseenNeverExecutes(env, now, steps, tx, id);
  }
}
