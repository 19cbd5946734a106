/** What a quote is made of: levels within the user's limit, all the base they offer, their own fees, and
    exactly when it is accepted.
    Models apps/api/src/public/match.controller.ts:124-217 on apps/api/src/matching/orderbook.service.ts:403-502. */
module Quotes {
  import opened Prelude
  import opened Arith
  import opened Levels
  import opened Sweep
  import opened Desk
  import opened ReadyGate

  /** A price the taker is ready to trade at; a limit that is not positive is none. */
  predicate Acceptable(side: Side, limit: Option<int>, priceTicks: int) {
    limit.None? || limit.value <= 0 || if side == BUY then priceTicks <= limit.value else priceTicks >= limit.value
  }

  /** All the base offered at acceptable prices, wherever it stands. */
  function OnOffer(side: Side, limit: Option<int>, levels: seq<Order>): int {
    if levels == [] then 0
    else (if Acceptable(side, limit, levels[0].priceTicks) then levels[0].sizeBase else 0) + OnOffer(side, limit, levels[1..])
  }

  lemma {:induction false} DepthIsOnOffer(side: Side, limit: Option<int>, levels: seq<Order>)
    ensures Depth(side, Cap(limit), levels) == OnOffer(side, limit, levels)
  {
    if levels != [] {
      DepthIsOnOffer(side, limit, levels[1..]);
    }
  }

  /** The fill takes base from this resting order, at its price, for its maker, with its raw order. */
  predicate TakesFrom(f: Fill, o: Order) {
    && f.makerOrderHash == o.id && f.maker == o.maker && f.priceTicks == o.priceTicks && f.raw == o.raw
    && 0 < f.sizeBase <= o.sizeBase
  }

  lemma {:induction false} FillsAreOfLevels(side: Side, limit: Option<int>, levels: seq<Order>, size: int, f: Fill)
    requires (forall x :: x in levels ==> x.sizeBase > 0) && f in Plan(side, Cap(limit), levels, size)
    ensures exists o :: o in levels && TakesFrom(f, o) && Acceptable(side, limit, o.priceTicks)
  {
    var plan, exec := Plan(side, Cap(limit), levels, size), Min(size, levels[0].sizeBase);
    if f == plan[0] {
      assert TakesFrom(f, levels[0]);
    } else {
      assert f in plan[1..] && plan[1..] == Plan(side, Cap(limit), levels[1..], size - exec);
      FillsAreOfLevels(side, limit, levels[1..], size - exec, f);
      var o :| o in levels[1..] && TakesFrom(f, o) && Acceptable(side, limit, o.priceTicks);
      assert o in levels;
    }
  }

  lemma {:induction false} SomethingFillsIff(fills: seq<Fill>)
    requires forall f :: f in fills ==> f.sizeBase > 0
    ensures Filled(fills) >= 0 && (fills == [] <==> Filled(fills) == 0)
  {
    if fills != [] {
      SomethingFillsIff(fills[1..]);
    }
  }

  lemma PlanFillsSomething(side: Side, limit: Option<int>, levels: seq<Order>, size: int)
    requires GoodSide(Opposite(side), levels)
    ensures Filled(Plan(side, Cap(limit), levels, size)) == Min(Max(size, 0), OnOffer(side, limit, levels))
    ensures Plan(side, Cap(limit), levels, size) != [] <==> size > 0 && OnOffer(side, limit, levels) > 0
    ensures OnOffer(side, limit, levels) >= 0
  {
    DepthIsOnOffer(side, limit, levels);
    DepthNonNegative(side, Cap(limit), levels);
    PlanFillsExactly(side, Cap(limit), levels, size);
    var plan := Plan(side, Cap(limit), levels, size);
    forall f | f in plan ensures f.sizeBase > 0 {
      FillsAreOfLevels(side, limit, levels, size, f);
    }
    SomethingFillsIff(plan);
  }

  /** Whatever its time in force, an accepted quote takes from resting orders at acceptable prices only,
      takes everything they offer up to the size, and reports the rest as remaining. */
  lemma QuoteKeepsToTheLimit(b: Book, r: Rules, side: Side, size: int, tif: Tif, limit: Option<int>, feeBps: nat)
    requires GoodSide(Opposite(side), SideOf(b, Opposite(side)))
    requires MatchQuote(b, r, side, size, tif, limit, feeBps).Ok?
    ensures var q, levels := MatchQuote(b, r, side, size, tif, limit, feeBps).value, SideOf(b, Opposite(side));
            && (forall f :: f in q.fills ==>
                  exists o :: o in levels && TakesFrom(f, o) && Acceptable(side, limit, o.priceTicks))
            && Filled(q.fills) == Min(Max(size, 0), OnOffer(side, limit, levels))
            && q.requestedBase == size && q.remainingBase == size - Filled(q.fills)
            && q.takerTotalAmount == q.takerAmount + q.takerFeeAmount
  {
    var levels := SideOf(b, Opposite(side));
    PlanFillsSomething(side, limit, levels, size);
    forall f | f in Plan(side, Cap(limit), levels, size)
      ensures exists o :: o in levels && TakesFrom(f, o) && Acceptable(side, limit, o.priceTicks)
    {
      FillsAreOfLevels(side, limit, levels, size, f);
    }
  }

  /** Exactly when a quote is accepted: the size reaches the minimum; fill-or-kill finds all of it on
      offer; and whatever fills is worth the minimum notional. Nothing on offer is no reason to refuse. */
  lemma QuoteAcceptedIff(b: Book, r: Rules, side: Side, size: int, tif: Tif, limit: Option<int>, feeBps: nat)
    requires GoodSide(Opposite(side), SideOf(b, Opposite(side)))
    ensures var levels := SideOf(b, Opposite(side));
            MatchQuote(b, r, side, size, tif, limit, feeBps).Ok? <==>
              && size >= r.minSizeB
              && (tif == FOK ==> OnOffer(side, limit, levels) >= size)
              && (size > 0 && OnOffer(side, limit, levels) > 0 ==>
                    FlooredNotional(Plan(side, Cap(limit), levels, size), r.priceTickQ, r.baseDecimals) >= r.minNotionalQ)
  {
    PlanFillsSomething(side, limit, SideOf(b, Opposite(side)), size);
  }

  /** And why it is refused: size first, then liquidity, then notional. */
  lemma QuoteRefusals(b: Book, r: Rules, side: Side, size: int, tif: Tif, limit: Option<int>, feeBps: nat)
    requires GoodSide(Opposite(side), SideOf(b, Opposite(side)))
    requires MatchQuote(b, r, side, size, tif, limit, feeBps).Fail?
    ensures MatchQuote(b, r, side, size, tif, limit, feeBps).code
         == if size < r.minSizeB then "size_below_min_size"
            else if tif == FOK && OnOffer(side, limit, SideOf(b, Opposite(side))) < size then "fok_insufficient_liquidity"
            else "notional_below_min_notional"
  {
    PlanFillsSomething(side, limit, SideOf(b, Opposite(side)), size);
  }

  // ---------------------------------------------------------------------------
  // Fees
  // ---------------------------------------------------------------------------

  /** What one fill's fee is measured on: quote notional for a buyer, base for a seller. */
  function FeeBasis(side: Side, f: Fill, priceTickQ: int, baseDecimals: nat): int {
    if side == BUY then Notional(f.priceTicks, priceTickQ, f.sizeBase, baseDecimals) else f.sizeBase
  }

  /** An order's own fee is charged pro rata of its maker amount, a zero fee too; any other order's fee is
      the policy rate of the basis; both rounded down by less than one unit. */
  lemma FeeOfOneFill(side: Side, f: Fill, priceTickQ: int, baseDecimals: nat, feeBps: nat)
    requires f.sizeBase >= 0 && FeeBasis(side, f, priceTickQ, baseDecimals) >= 0
    ensures var fee := FeePart(side, f, Notional(f.priceTicks, priceTickQ, f.sizeBase, baseDecimals), feeBps);
            if f.raw.Some? && f.raw.value.takerFee.Some? then
              if f.raw.value.makerAmount == 0 then fee == 0
              else fee * f.raw.value.makerAmount <= f.raw.value.takerFee.value * f.sizeBase < (fee + 1) * f.raw.value.makerAmount
            else fee * 10000 <= FeeBasis(side, f, priceTickQ, baseDecimals) * feeBps < (fee + 1) * 10000
  {
    if f.raw.Some? && f.raw.value.takerFee.Some? && f.raw.value.makerAmount > 0 {
      DivBounds(f.raw.value.takerFee.value * f.sizeBase, f.raw.value.makerAmount);
    } else {
      DivBounds(FeeBasis(side, f, priceTickQ, baseDecimals) * feeBps, 10000);
    }
  }

  /** The fees of a quote, fill by fill. */
  function FeesOf(side: Side, fills: seq<Fill>, priceTickQ: int, baseDecimals: nat, feeBps: nat): seq<int> {
    seq(|fills|, i requires 0 <= i < |fills| =>
      FeePart(side, fills[i], Notional(fills[i].priceTicks, priceTickQ, fills[i].sizeBase, baseDecimals), feeBps))
  }

  /** The fee of a quote is their sum. */
  lemma {:induction false} FeesAddUp(side: Side, fills: seq<Fill>, priceTickQ: int, baseDecimals: nat, feeBps: nat)
    ensures FeeTotal(side, fills, priceTickQ, baseDecimals, feeBps) == Sum(FeesOf(side, fills, priceTickQ, baseDecimals, feeBps))
  {
    if fills != [] {
      FeesAddUp(side, fills[1..], priceTickQ, baseDecimals, feeBps);
      assert FeesOf(side, fills, priceTickQ, baseDecimals, feeBps)[1..] == FeesOf(side, fills[1..], priceTickQ, baseDecimals, feeBps);
    }
  }

  /** Before calldata is made, each fill stays as it is, with its own raw order or else the one stored on its
      row. */
  lemma RawFromLevelOrRow(rows: map<Hash, Row>, fills: seq<Fill>, i: nat)
    requires i < |fills|
    ensures var f := fills[i];
            Hydrated(rows, fills)[i]
            == Fill(f.makerOrderHash, f.maker, f.priceTicks, f.sizeBase,
                    if f.raw.Some? then f.raw else if f.makerOrderHash in rows then rows[f.makerOrderHash].raw else None)
  {
  }

  // ---------------------------------------------------------------------------
  // Triggers
  // ---------------------------------------------------------------------------

  /** Looking at the best level decides for the whole side: some ask is as low as the trigger, or every ask
      as high; some bid as high, or every bid as low. A side without orders, and a mid price, never trigger. */
  lemma TriggeredIff(c: Wish, b: Book)
    requires GoodSide(BUY, b.bids) && GoodSide(SELL, b.asks)
    ensures Triggered(c, b) <==>
              match (c.reference, c.triggerType)
              case (BEST_ASK, PRICE_BELOW) => exists o :: o in b.asks && o.priceTicks <= c.triggerTicks
              case (BEST_ASK, PRICE_ABOVE) => b.asks != [] && forall o :: o in b.asks ==> o.priceTicks >= c.triggerTicks
              case (BEST_BID, PRICE_ABOVE) => exists o :: o in b.bids && o.priceTicks >= c.triggerTicks
              case (BEST_BID, PRICE_BELOW) => b.bids != [] && forall o :: o in b.bids ==> o.priceTicks <= c.triggerTicks
              case (MID, _) => false
  {
    BestIsFirst(SELL, b.asks);
    BestIsFirst(BUY, b.bids);
    assert b.asks != [] ==> b.asks[0] in b.asks;
    assert b.bids != [] ==> b.bids[0] in b.bids;
  }

  lemma BestIsFirst(side: Side, s: seq<Order>)
    requires Sorted(side, s)
    ensures forall o :: o in s ==> if side == SELL then s[0].priceTicks <= o.priceTicks else s[0].priceTicks >= o.priceTicks
  {
    forall o | o in s ensures if side == SELL then s[0].priceTicks <= o.priceTicks else s[0].priceTicks >= o.priceTicks {
      assert o == s[0] || o in s[1..];
    }
  }
}
