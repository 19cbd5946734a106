/** Block scanning as a step machine: what a tick of the fill watcher does with its cursor, its
    memory of keys and the fills it reconciles, whatever the provider answers.
    Models apps/api/src/onchain/fill-watcher.service.ts:335-667. */
module FillScan {
  import opened Prelude
  import opened Arith
  import opened Levels
  import opened Desk
  import opened Placement
  import Amounts

  datatype FillCall = FillCall(order: ZxOrder, orderHash: Hash, takerFill: nat)

  /** A transaction to the exchange; `call` is absent when its data is not a well-formed fill. */
  datatype ChainTx = ChainTx(hash: Option<TxHash>, from: Option<Address>, call: Option<FillCall>)

  datatype Key = Key(tx: Option<TxHash>, orderHash: Hash, execBase: int)

  /** A fill as far as calldata tells. */
  datatype Found = Found(key: Key, market: Symbol, taker: Address, priceTicks: int)

  /** What became of it: reconciled, or set aside because its receipt shows a revert. */
  datatype Effect = Applied(found: Found) | SetAside(found: Found)

  datatype Chain = Chain(block: int -> seq<ChainTx>, markets: map<Symbol, Rules>, listing: seq<Symbol>)

  const SEEN_CAP: nat := 10000

  /** The fill a transaction asks for; nothing when its market is unknown, its size floors to zero
      or a division by zero is caught. */
  function Decode(c: Chain, tx: ChainTx): (r: Option<Found>)
    ensures r.Some? ==> r.value.key.tx == tx.hash && r.value.key.execBase > 0 && r.value.market in c.markets
  {
    if tx.call.None? then None
    else
      var o := tx.call.value.order;
      match FindMarket(c.markets, c.listing, o.makerToken, o.takerToken)
      case None => None
      case Some(m) =>
        var r := c.markets[m];
        var sell := o.makerToken == r.baseAddress;
        if sell && o.takerAmount == 0 then None
        else
          var exec := if sell then Amounts.ExecBase(tx.call.value.takerFill, o.makerAmount, o.takerAmount)
                      else tx.call.value.takerFill;
          var num := (if sell then o.takerAmount else o.makerAmount) * Pow10(r.baseDecimals);
          var den := (if sell then o.makerAmount else o.takerAmount) * r.priceTickQ;
          if exec <= 0 || den == 0 then None
          else
            Some(Found(Key(tx.hash, tx.call.value.orderHash, exec), m,
                       if tx.from.Some? then tx.from.value else ZERO_ADDR, num / den))
  }

  /** What the watcher reads off a fill of an order that placement accepted: the booked price, the
      whole booked size for the whole taker amount, and for calldata made from a quoted size never
      more than was quoted, short by less than one unit of each token. */
  lemma AcceptedOrdersAreReadBack(c: Chain, tx: ChainTx, m: Symbol, t: Terms, quoted: nat)
    requires tx.call.Some? && m in c.markets
    requires var o := tx.call.value.order;
             && FindMarket(c.markets, c.listing, o.makerToken, o.takerToken) == Some(m)
             && Derive(c.markets[m], o) == Ok(t) && o.takerAmount > 0
    requires c.markets[m].baseAddress != c.markets[m].quoteAddress
    ensures Decode(c, tx).Some? ==> Decode(c, tx).value.priceTicks == t.priceTicks
    ensures tx.call.value.takerFill == tx.call.value.order.takerAmount ==>
              Decode(c, tx).Some? && Decode(c, tx).value.key.execBase == t.sizeBase
    ensures var o := tx.call.value.order;
            Decode(c, tx).Some? && t.side == SELL && quoted <= o.makerAmount
            && tx.call.value.takerFill == Amounts.TakerFillAmount(quoted, o.makerAmount, o.takerAmount) ==>
              var e := Decode(c, tx).value.key.execBase;
              e <= quoted && (quoted - e) * o.takerAmount < o.makerAmount + o.takerAmount
  {
    var o, r := tx.call.value.order, c.markets[m];
    if o.makerToken == r.baseAddress {
      DerivedSizeIsPositive(r, o);
      DivUnique(o.takerAmount * o.makerAmount, o.takerAmount, o.makerAmount);
      if quoted <= o.makerAmount {
        Amounts.QuoteToWatcherRoundTrip(quoted, o.makerAmount, o.takerAmount);
      }
    }
  }

  lemma DerivedSizeIsPositive(r: Rules, o: ZxOrder)
    requires Derive(r, o).Ok?
    ensures Derive(r, o).value.sizeBase > 0 && r.priceTickQ > 0
  {
  }

  // ---------------------------------------------------------------------------
  // The machine
  // ---------------------------------------------------------------------------

  /** `lastScanned` is the saved cursor. `maxSaved` (its highest value), `effects` and `done` (the
      blocks whose transactions were gone through) are history. */
  datatype Watch = Watch(lastScanned: int, maxSaved: int, seen: seq<Key>, effects: seq<Effect>, done: set<int>)

  datatype Fetch = Block | Malformed | Failed

  /** What the provider answers during one tick; no head means it failed or the watcher is cooling down. */
  datatype Attempt = Attempt(latest: Option<int>, fetch: int -> Fetch, reverted: TxHash -> bool)

  function EffectOf(reverted: TxHash -> bool, f: Found): Effect {
    if f.key.tx.Some? && reverted(f.key.tx.value) then SetAside(f) else Applied(f)
  }

  /** Remember a key; only a reconciled fill makes the oldest key drop out. */
  function Remember(seen: seq<Key>, e: Effect): seq<Key> {
    var s := seen + [e.found.key];
    if e.Applied? && |s| > SEEN_CAP then s[1..] else s
  }

  function ScanTx(c: Chain, w: Watch, tx: ChainTx, reverted: TxHash -> bool): Watch {
    match Decode(c, tx)
    case None => w
    case Some(f) =>
      if f.key in w.seen then w
      else
        var e := EffectOf(reverted, f);
        w.(seen := Remember(w.seen, e), effects := w.effects + [e])
  }

  function ScanTxs(c: Chain, w: Watch, txs: seq<ChainTx>, reverted: TxHash -> bool): Watch {
    if txs == [] then w
    else ScanTx(c, ScanTxs(c, w, txs[..|txs| - 1], reverted), txs[|txs| - 1], reverted)
  }

  function ScanBlock(c: Chain, w: Watch, b: int, reverted: TxHash -> bool): Watch {
    var w' := ScanTxs(c, w, c.block(b), reverted);
    w'.(done := w'.done + {b})
  }

  /** From block `b` to `target`; false when a fetch failed and the cursor must stay. */
  function ScanFrom(c: Chain, w: Watch, b: int, target: int, a: Attempt): (Watch, bool)
    decreases target - b + 1
  {
    if b > target then (w, true)
    else
      match a.fetch(b)
      case Failed => (w, false)
      case Malformed => ScanFrom(c, w, b + 1, target, a)
      case Block => ScanFrom(c, ScanBlock(c, w, b, a.reverted), b + 1, target, a)
  }

  function TickOp(c: Chain, w: Watch, a: Attempt, maxBlocks: nat): Watch {
    match a.latest
    case None => w
    case Some(latest) =>
      var target := Min(latest, w.lastScanned + maxBlocks);
      var (w', finished) := ScanFrom(c, w, w.lastScanned + 1, target, a);
      if finished then w'.(lastScanned := target, maxSaved := Max(w'.maxSaved, target)) else w'
  }

  /** The tick met a provider failure: no head, or a block that did not load. */
  predicate Stalls(c: Chain, w: Watch, a: Attempt, maxBlocks: nat) {
    a.latest.None? || !ScanFrom(c, w, w.lastScanned + 1, Min(a.latest.value, w.lastScanned + maxBlocks), a).1
  }

  function Boot(start: int): Watch {
    Watch(start, start, [], [], {})
  }

  /** Attempt number i sees the chain `view(i)`: what a block holds may change between attempts. */
  function Ticks(view: nat -> Chain, start: int, attempts: seq<Attempt>, maxBlocks: nat): Watch {
    if attempts == [] then Boot(start)
    else
      TickOp(view(|attempts| - 1), Ticks(view, start, attempts[..|attempts| - 1], maxBlocks), attempts[|attempts| - 1], maxBlocks)
  }

  /** The chain never changes what a block holds. */
  function Steady(c: Chain): nat -> Chain {
    _ => c
  }

  // ---------------------------------------------------------------------------
  // At most once
  // ---------------------------------------------------------------------------

  function KeysOf(effects: seq<Effect>): (r: seq<Key>)
    ensures |r| == |effects| && forall i :: 0 <= i < |r| ==> r[i] == effects[i].found.key
  {
    seq(|effects|, i requires 0 <= i < |effects| => effects[i].found.key)
  }

  /** Two effects with one key are more than the memory's capacity apart. */
  predicate FarApart(effects: seq<Effect>) {
    forall i, j :: 0 <= i < j < |effects| && effects[i].found.key == effects[j].found.key ==> j - i > SEEN_CAP
  }

  /** The memory holds the latest keys, at least as many as fit. */
  predicate Remembers(w: Watch) {
    && Min(|w.effects|, SEEN_CAP) <= |w.seen| <= |w.effects|
    && w.seen == KeysOf(w.effects)[|w.effects| - |w.seen|..]
    && FarApart(w.effects)
  }

  lemma InTheSuffix(s: seq<Key>, from: nat, i: nat)
    requires from <= i < |s|
    ensures s[i] in s[from..]
  {
    assert s[from..][i - from] == s[i];
  }

  lemma StillFarApart(w: Watch, e: Effect)
    requires Remembers(w) && e.found.key !in w.seen
    ensures FarApart(w.effects + [e])
  {
    var n := |w.effects|;
    forall i | n - |w.seen| <= i < n ensures w.effects[i].found.key in w.seen {
      InTheSuffix(KeysOf(w.effects), n - |w.seen|, i);
    }
  }

  lemma SuffixGrows(s: seq<Key>, seen: seq<Key>, k: Key)
    requires |seen| <= |s| && seen == s[|s| - |seen|..]
    ensures seen + [k] == (s + [k])[|s| - |seen|..]
    ensures (seen + [k])[1..] == (s + [k])[|s| + 1 - |seen|..]
  {
  }

  lemma RememberedOneMore(w: Watch, e: Effect)
    requires Remembers(w) && e.found.key !in w.seen
    ensures Remembers(w.(seen := Remember(w.seen, e), effects := w.effects + [e]))
  {
    StillFarApart(w, e);
    assert KeysOf(w.effects + [e]) == KeysOf(w.effects) + [e.found.key];
    SuffixGrows(KeysOf(w.effects), w.seen, e.found.key);
  }

  lemma ScanTxRemembers(c: Chain, w: Watch, tx: ChainTx, reverted: TxHash -> bool)
    requires Remembers(w)
    ensures Remembers(ScanTx(c, w, tx, reverted))
  {
    if Decode(c, tx).Some? && Decode(c, tx).value.key !in w.seen {
      RememberedOneMore(w, EffectOf(reverted, Decode(c, tx).value));
    }
  }

  lemma {:induction false} ScanTxsRemember(c: Chain, w: Watch, txs: seq<ChainTx>, reverted: TxHash -> bool)
    requires Remembers(w)
    ensures Remembers(ScanTxs(c, w, txs, reverted))
  {
    if txs != [] {
      ScanTxsRemember(c, w, txs[..|txs| - 1], reverted);
      ScanTxRemembers(c, ScanTxs(c, w, txs[..|txs| - 1], reverted), txs[|txs| - 1], reverted);
    }
  }

  lemma {:induction false} ScanFromRemembers(c: Chain, w: Watch, b: int, target: int, a: Attempt)
    requires Remembers(w)
    ensures Remembers(ScanFrom(c, w, b, target, a).0)
    decreases target - b + 1
  {
    if b <= target && a.fetch(b) != Failed {
      if a.fetch(b) == Block {
        ScanTxsRemember(c, w, c.block(b), a.reverted);
        ScanFromRemembers(c, ScanBlock(c, w, b, a.reverted), b + 1, target, a);
      } else {
        ScanFromRemembers(c, w, b + 1, target, a);
      }
    }
  }

  lemma {:induction false} TicksRemember(view: nat -> Chain, start: int, attempts: seq<Attempt>, maxBlocks: nat)
    ensures Remembers(Ticks(view, start, attempts, maxBlocks))
  {
    if attempts != [] {
      TicksRemember(view, start, attempts[..|attempts| - 1], maxBlocks);
      var w := Ticks(view, start, attempts[..|attempts| - 1], maxBlocks);
      var a := attempts[|attempts| - 1];
      if a.latest.Some? {
        ScanFromRemembers(view(|attempts| - 1), w, w.lastScanned + 1, Min(a.latest.value, w.lastScanned + maxBlocks), a);
      }
    }
  }

  /** Whatever the provider does, a key takes effect again only after more than ten thousand others:
      failures, capped batches, malformed blocks, a head that moves back and blocks that hold
      something else when they are read again repeat nothing. */
  lemma EachKeyAtMostOnce(view: nat -> Chain, start: int, attempts: seq<Attempt>, maxBlocks: nat, i: nat, j: nat)
    requires i < j < |Ticks(view, start, attempts, maxBlocks).effects|
    requires j - i <= 10000
    ensures Ticks(view, start, attempts, maxBlocks).effects[i].found.key
         != Ticks(view, start, attempts, maxBlocks).effects[j].found.key
  {
    TicksRemember(view, start, attempts, maxBlocks);
  }

  // ---------------------------------------------------------------------------
  // Exactly once
  // ---------------------------------------------------------------------------

  /** Every block gone through has each of its keys in the effects; every effect comes from a
      transaction of such a block; what was saved was gone through. */
  predicate KeyKnown(effects: seq<Effect>, k: Key) {
    exists e :: e in effects && e.found.key == k
  }

  predicate Came(c: Chain, b: int, e: Effect) {
    exists tx :: tx in c.block(b) && Decode(c, tx) == Some(e.found)
  }

  ghost predicate Covered(c: Chain, w: Watch) {
    && (forall b, tx :: b in w.done && tx in c.block(b) && Decode(c, tx).Some? ==> KeyKnown(w.effects, Decode(c, tx).value.key))
    && (forall e :: e in w.effects ==> exists b :: Came(c, b, e))
    && (forall k :: k in w.seen ==> KeyKnown(w.effects, k))
  }

  predicate Saved(start: int, w: Watch) {
    && w.lastScanned <= w.maxSaved
    && forall b :: start < b <= w.maxSaved ==> b in w.done
  }

  lemma KeyStaysKnown(effects: seq<Effect>, more: seq<Effect>, k: Key)
    requires KeyKnown(effects, k)
    ensures KeyKnown(effects + more, k)
  {
    var e :| e in effects && e.found.key == k;
    assert e in effects + more;
  }

  lemma {:induction false} ScanTxsCover(c: Chain, w: Watch, b: int, txs: seq<ChainTx>, reverted: TxHash -> bool)
    requires Covered(c, w) && txs <= c.block(b)
    ensures var w' := ScanTxs(c, w, txs, reverted);
            && Covered(c, w') && w'.done == w.done && w'.lastScanned == w.lastScanned && w'.maxSaved == w.maxSaved
            && forall tx :: tx in txs && Decode(c, tx).Some? ==> KeyKnown(w'.effects, Decode(c, tx).value.key)
  {
    if txs != [] {
      var front, last := txs[..|txs| - 1], txs[|txs| - 1];
      ScanTxsCover(c, w, b, front, reverted);
      assert last in c.block(b) && txs == front + [last];
      ScanTxCovers(c, ScanTxs(c, w, front, reverted), b, last, reverted);
    }
  }

  lemma ScanTxCovers(c: Chain, w: Watch, b: int, tx: ChainTx, reverted: TxHash -> bool)
    requires Covered(c, w) && tx in c.block(b)
    ensures var w' := ScanTx(c, w, tx, reverted);
            && Covered(c, w') && w'.done == w.done && w'.lastScanned == w.lastScanned && w'.maxSaved == w.maxSaved
            && (forall k :: KeyKnown(w.effects, k) ==> KeyKnown(w'.effects, k))
            && (Decode(c, tx).Some? ==> KeyKnown(w'.effects, Decode(c, tx).value.key))
  {
    var w' := ScanTx(c, w, tx, reverted);
    if w' != w {
      var e := EffectOf(reverted, Decode(c, tx).value);
      assert w'.effects == w.effects + [e] && e in w'.effects;
      forall k | KeyKnown(w.effects, k) ensures KeyKnown(w'.effects, k) {
        KeyStaysKnown(w.effects, [e], k);
      }
      assert Came(c, b, e);
      forall k | k in w'.seen ensures KeyKnown(w'.effects, k) {
        assert k in w.seen + [e.found.key];
      }
    }
  }

  predicate NoneMalformed(a: Attempt, b: int, target: int) {
    forall x :: b <= x <= target ==> a.fetch(x) != Malformed
  }

  lemma {:induction false} ScanFromCovers(c: Chain, w: Watch, b: int, target: int, a: Attempt)
    requires Covered(c, w)
    ensures var (w', finished) := ScanFrom(c, w, b, target, a);
            && Covered(c, w') && w.done <= w'.done && w'.lastScanned == w.lastScanned && w'.maxSaved == w.maxSaved
            && (finished && NoneMalformed(a, b, target) ==> forall x :: b <= x <= target ==> x in w'.done)
    decreases target - b + 1
  {
    if b <= target && a.fetch(b) != Failed {
      if a.fetch(b) == Block {
        ScanTxsCover(c, w, b, c.block(b), a.reverted);
        ScanFromCovers(c, ScanBlock(c, w, b, a.reverted), b + 1, target, a);
      } else {
        ScanFromCovers(c, w, b + 1, target, a);
      }
    }
  }

  ghost predicate NeverMalformed(attempts: seq<Attempt>) {
    forall a, x :: a in attempts ==> a.fetch(x) != Malformed
  }

  lemma {:induction false} TicksCover(c: Chain, start: int, attempts: seq<Attempt>, maxBlocks: nat)
    ensures Covered(c, Ticks(Steady(c), start, attempts, maxBlocks))
    ensures NeverMalformed(attempts) ==> Saved(start, Ticks(Steady(c), start, attempts, maxBlocks))
  {
    if attempts != [] {
      var front, a := attempts[..|attempts| - 1], attempts[|attempts| - 1];
      TicksCover(c, start, front, maxBlocks);
      var w := Ticks(Steady(c), start, front, maxBlocks);
      assert forall x :: x in front ==> x in attempts;
      if a.latest.Some? {
        var target := Min(a.latest.value, w.lastScanned + maxBlocks);
        ScanFromCovers(c, w, w.lastScanned + 1, target, a);
      }
    }
  }

  /** A hash names one transaction. */
  ghost predicate DistinctHashes(c: Chain) {
    forall b1, t1, b2, t2 :: t1 in c.block(b1) && t2 in c.block(b2) && t1.hash == t2.hash ==> t1 == t2
  }

  predicate Once(effects: seq<Effect>, f: Found) {
    exists i :: 0 <= i < |effects| && effects[i].found == f
                && forall j :: 0 <= j < |effects| && effects[j].found == f ==> j == i
  }

  /** Without malformed blocks, each fill in a block up to the highest cursor ever saved has taken
      effect, and no second time while the memory lasts; this holds whatever failures, caps and head
      regressions came between. */
  lemma EachFillExactlyOnce(c: Chain, start: int, attempts: seq<Attempt>, maxBlocks: nat, b: int, tx: ChainTx)
    requires DistinctHashes(c) && NeverMalformed(attempts)
    requires |Ticks(Steady(c), start, attempts, maxBlocks).effects| <= 10001
    requires start < b <= Ticks(Steady(c), start, attempts, maxBlocks).maxSaved && tx in c.block(b) && Decode(c, tx).Some?
    ensures Once(Ticks(Steady(c), start, attempts, maxBlocks).effects, Decode(c, tx).value)
  {
    TicksCover(c, start, attempts, maxBlocks);
    TicksRemember(Steady(c), start, attempts, maxBlocks);
    OnceIn(c, Ticks(Steady(c), start, attempts, maxBlocks), b, tx);
  }

  lemma OnceIfThere(effects: seq<Effect>, e: Effect)
    requires FarApart(effects) && |effects| <= SEEN_CAP + 1 && e in effects
    ensures Once(effects, e.found)
  {
    var i :| 0 <= i < |effects| && effects[i] == e;
    forall j | 0 <= j < |effects| && effects[j].found == e.found ensures j == i {
      assert effects[i].found.key == effects[j].found.key;
    }
  }

  lemma OnceIn(c: Chain, w: Watch, b: int, tx: ChainTx)
    requires DistinctHashes(c) && Covered(c, w) && FarApart(w.effects) && |w.effects| <= SEEN_CAP + 1
    requires b in w.done && tx in c.block(b) && Decode(c, tx).Some?
    ensures Once(w.effects, Decode(c, tx).value)
  {
    assert KeyKnown(w.effects, Decode(c, tx).value.key);
    var e :| e in w.effects && e.found.key == Decode(c, tx).value.key;
    SameKeySameFill(c, w, b, tx, e);
    OnceIfThere(w.effects, e);
  }

  lemma SameKeySameFill(c: Chain, w: Watch, b: int, tx: ChainTx, e: Effect)
    requires DistinctHashes(c) && Covered(c, w) && e in w.effects
    requires tx in c.block(b) && Decode(c, tx).Some? && e.found.key == Decode(c, tx).value.key
    ensures e.found == Decode(c, tx).value
  {
    var b' :| Came(c, b', e);
    var tx' :| tx' in c.block(b') && Decode(c, tx') == Some(e.found);
    assert tx'.hash == tx.hash && tx' == tx;
  }

  /** And nothing takes effect that is not a fill on the chain. */
  lemma EveryEffectIsOnChain(c: Chain, start: int, attempts: seq<Attempt>, maxBlocks: nat, e: Effect)
    requires e in Ticks(Steady(c), start, attempts, maxBlocks).effects
    ensures exists b :: Came(c, b, e)
  {
    TicksCover(c, start, attempts, maxBlocks);
  }

  // ---------------------------------------------------------------------------
  // The cursor
  // ---------------------------------------------------------------------------

  /** Going through blocks leaves cursor and record alone. */
  lemma {:induction false} TxsLeaveCursor(c: Chain, w: Watch, txs: seq<ChainTx>, reverted: TxHash -> bool)
    ensures ScanTxs(c, w, txs, reverted).lastScanned == w.lastScanned && ScanTxs(c, w, txs, reverted).maxSaved == w.maxSaved
  {
    if txs != [] {
      TxsLeaveCursor(c, w, txs[..|txs| - 1], reverted);
    }
  }

  lemma {:induction false} ScanLeavesCursor(c: Chain, w: Watch, b: int, target: int, a: Attempt)
    ensures ScanFrom(c, w, b, target, a).0.lastScanned == w.lastScanned
    ensures ScanFrom(c, w, b, target, a).0.maxSaved == w.maxSaved
    decreases target - b + 1
  {
    if b <= target && a.fetch(b) != Failed {
      if a.fetch(b) == Block {
        TxsLeaveCursor(c, w, c.block(b), a.reverted);
        ScanLeavesCursor(c, ScanBlock(c, w, b, a.reverted), b + 1, target, a);
      } else {
        ScanLeavesCursor(c, w, b + 1, target, a);
      }
    }
  }

  lemma TickMovesCursor(c: Chain, w: Watch, a: Attempt, maxBlocks: nat)
    requires w.lastScanned <= w.maxSaved
    ensures var w' := TickOp(c, w, a, maxBlocks);
            && (w'.lastScanned < w.lastScanned <==> a.latest.Some? && a.latest.value < w.lastScanned)
            && (w'.lastScanned < w.lastScanned ==> w'.lastScanned == a.latest.value)
            && w'.maxSaved == Max(w.maxSaved, w'.lastScanned)
  {
    if a.latest.Some? {
      ScanLeavesCursor(c, w, w.lastScanned + 1, Min(a.latest.value, w.lastScanned + maxBlocks), a);
    }
  }

  lemma {:induction false} CursorWithinRecord(view: nat -> Chain, start: int, attempts: seq<Attempt>, maxBlocks: nat)
    ensures Ticks(view, start, attempts, maxBlocks).lastScanned <= Ticks(view, start, attempts, maxBlocks).maxSaved
  {
    if attempts != [] {
      CursorWithinRecord(view, start, attempts[..|attempts| - 1], maxBlocks);
      TickMovesCursor(view(|attempts| - 1), Ticks(view, start, attempts[..|attempts| - 1], maxBlocks), attempts[|attempts| - 1],
                      maxBlocks);
    }
  }

  /** After any schedule, the next tick moves the cursor back exactly when it sees a head below the
      cursor, and then to that head: an idle watcher that meets a lagging provider reads blocks
      again. The record of the highest cursor never goes back. */
  lemma CursorFollowsTheHeadDown(view: nat -> Chain, start: int, attempts: seq<Attempt>, maxBlocks: nat, a: Attempt)
    ensures var w, w' := Ticks(view, start, attempts, maxBlocks), Ticks(view, start, attempts + [a], maxBlocks);
            && (w'.lastScanned < w.lastScanned <==> a.latest.Some? && a.latest.value < w.lastScanned)
            && (w'.lastScanned < w.lastScanned ==> w'.lastScanned == a.latest.value)
            && w'.maxSaved == Max(w.maxSaved, w'.lastScanned)
  {
    assert (attempts + [a])[..|attempts + [a]| - 1] == attempts;
    CursorWithinRecord(view, start, attempts, maxBlocks);
    TickMovesCursor(view(|attempts|), Ticks(view, start, attempts, maxBlocks), a, maxBlocks);
  }

  /** One more attempt. */
  lemma RecordGrows(view: nat -> Chain, start: int, attempts: seq<Attempt>, maxBlocks: nat)
    requires attempts != []
    ensures Ticks(view, start, attempts, maxBlocks).maxSaved
         == Max(Ticks(view, start, attempts[..|attempts| - 1], maxBlocks).maxSaved, Ticks(view, start, attempts, maxBlocks).lastScanned)
  {
    var front, last := attempts[..|attempts| - 1], attempts[|attempts| - 1];
    assert attempts == front + [last];
    CursorFollowsTheHeadDown(view, start, front, maxBlocks, last);
  }

  /** No prefix of a schedule ends with the cursor above that record. */
  lemma {:induction false} RecordIsAnUpperBound(view: nat -> Chain, start: int, attempts: seq<Attempt>, maxBlocks: nat, i: nat)
    requires i <= |attempts|
    ensures Ticks(view, start, attempts[..i], maxBlocks).lastScanned <= Ticks(view, start, attempts, maxBlocks).maxSaved
  {
    if i == |attempts| {
      assert attempts[..i] == attempts;
      CursorWithinRecord(view, start, attempts, maxBlocks);
    } else {
      RecordIsAnUpperBound(view, start, attempts[..|attempts| - 1], maxBlocks, i);
      assert attempts[..|attempts| - 1][..i] == attempts[..i];
      RecordGrows(view, start, attempts, maxBlocks);
    }
  }

  /** And some prefix ends with the cursor there. */
  lemma {:induction false} RecordIsReached(view: nat -> Chain, start: int, attempts: seq<Attempt>, maxBlocks: nat) returns (k: nat)
    ensures k <= |attempts|
    ensures Ticks(view, start, attempts[..k], maxBlocks).lastScanned == Ticks(view, start, attempts, maxBlocks).maxSaved
  {
    k := |attempts|;
    assert attempts[..k] == attempts;
    if Ticks(view, start, attempts, maxBlocks).lastScanned != Ticks(view, start, attempts, maxBlocks).maxSaved {
      RecordGrows(view, start, attempts, maxBlocks);
      k := RecordIsReached(view, start, attempts[..|attempts| - 1], maxBlocks);
      assert attempts[..|attempts| - 1][..k] == attempts[..k];
    }
  }

  // ---------------------------------------------------------------------------
  // Reverted receipts
  // ---------------------------------------------------------------------------

  /** No effect of this transaction was reconciled. */
  predicate NeverApplied(effects: seq<Effect>, tx: TxHash) {
    forall e :: e in effects && e.Applied? ==> e.found.key.tx != Some(tx)
  }

  lemma {:induction false} TxsNeverApply(c: Chain, w: Watch, txs: seq<ChainTx>, reverted: TxHash -> bool, tx: TxHash)
    requires reverted(tx) && NeverApplied(w.effects, tx)
    ensures NeverApplied(ScanTxs(c, w, txs, reverted).effects, tx)
  {
    if txs != [] {
      TxsNeverApply(c, w, txs[..|txs| - 1], reverted, tx);
    }
  }

  lemma {:induction false} ScanNeverApplies(c: Chain, w: Watch, b: int, target: int, a: Attempt, tx: TxHash)
    requires a.reverted(tx) && NeverApplied(w.effects, tx)
    ensures NeverApplied(ScanFrom(c, w, b, target, a).0.effects, tx)
    decreases target - b + 1
  {
    if b <= target && a.fetch(b) != Failed {
      if a.fetch(b) == Block {
        TxsNeverApply(c, w, c.block(b), a.reverted, tx);
        ScanNeverApplies(c, ScanBlock(c, w, b, a.reverted), b + 1, target, a, tx);
      } else {
        ScanNeverApplies(c, w, b + 1, target, a, tx);
      }
    }
  }

  /** Every receipt the watcher ever reads for this transaction shows a revert. */
  ghost predicate AlwaysReverted(attempts: seq<Attempt>, tx: TxHash) {
    forall a :: a in attempts ==> a.reverted(tx)
  }

  /** Such a transaction is never reconciled, whatever the schedule and however often it is read. */
  lemma {:induction false} RevertedNeverApplied(view: nat -> Chain, start: int, attempts: seq<Attempt>, maxBlocks: nat, tx: TxHash)
    requires AlwaysReverted(attempts, tx)
    ensures NeverApplied(Ticks(view, start, attempts, maxBlocks).effects, tx)
  {
    if attempts != [] {
      var front, a := attempts[..|attempts| - 1], attempts[|attempts| - 1];
      assert a in attempts && forall x :: x in front ==> x in attempts;
      RevertedNeverApplied(view, start, front, maxBlocks, tx);
      var w := Ticks(view, start, front, maxBlocks);
      if a.latest.Some? {
        ScanNeverApplies(view(|attempts| - 1), w, w.lastScanned + 1, Min(a.latest.value, w.lastScanned + maxBlocks), a, tx);
      }
    }
  }
}
