/** Exactly which orders are accepted, what an accepted one leaves on book and row, and when it goes.
    Models apps/api/src/matching/orders-placement.service.ts:66-303 with orderbook.service.ts:344-396. */
module Acceptance {
  import opened Prelude
  import opened Arith
  import opened Levels
  import opened Sweep
  import opened Desk
  import opened Coherence
  import opened Placement
  import opened OrdersPlacement
  import DeskOutcomes
  import TimePriority

  /** The book takes a ticket exactly when size and price are positive, the size reaches the market's minimum
      and the whole order is worth the minimum notional. */
  lemma BookTakesIff(r: Rules, t: Ticket)
    ensures Refusal(r, t).None? <==>
              && t.sizeBase > 0 && t.priceTicks > 0 && t.sizeBase >= r.minSizeB
              && t.priceTicks * r.priceTickQ * t.sizeBase >= r.minNotionalQ * Pow10(r.baseDecimals)
  {
    FloorGate(t.priceTicks * r.priceTickQ * t.sizeBase, Pow10(r.baseDecimals), r.minNotionalQ);
  }

  /** And a refused ticket is told the first thing wrong with it. */
  lemma BookRefusals(r: Rules, t: Ticket)
    requires Refusal(r, t).Some?
    ensures Refusal(r, t).value
         == if t.sizeBase <= 0 then "size_must_be_positive"
            else if t.priceTicks <= 0 then "price_ticks_must_be_positive"
            else if t.sizeBase < r.minSizeB then "min_size_violation" else "min_notional_violation"
  {
  }

  /** The market of a pair is the first listed one that trades it, in either orientation. */
  lemma {:induction false} FirstListedMarket(markets: map<Symbol, Rules>, listing: seq<Symbol>, makerToken: Address,
                                             takerToken: Address, i: nat)
    requires i < |listing| && listing[i] in markets
    requires var r := markets[listing[i]];
             (r.baseAddress == makerToken && r.quoteAddress == takerToken) ||
             (r.baseAddress == takerToken && r.quoteAddress == makerToken)
    requires forall j :: 0 <= j < i && listing[j] in markets ==> !PairOf(markets[listing[j]], makerToken, takerToken)
    ensures FindMarket(markets, listing, makerToken, takerToken) == Some(listing[i])
  {
    if i > 0 {
      FirstListedMarket(markets, listing[1..], makerToken, takerToken, i - 1);
    }
  }

  function FeeOf(o: ZxOrder): nat {
    if o.takerTokenFeeAmount.Some? then o.takerTokenFeeAmount.value else 0
  }

  /** The order pays what the policy asks: to the configured recipient, and no less than the policy rate of
      its taker amount, rounded down. */
  predicate PaysPolicy(p: Policy, o: ZxOrder) {
    && (p.feeRecipient == "" || o.feeRecipient == p.feeRecipient)
    && o.takerAmount * p.feeBps < (FeeOf(o) + 1) * 10000
  }

  lemma PolicyHoldsIff(p: Policy, o: ZxOrder)
    ensures PolicyRefusal(p, o).None? <==> PaysPolicy(p, o)
  {
    DivBounds(o.takerAmount * p.feeBps, 10000);
    if FeeOf(o) < (o.takerAmount * p.feeBps) / 10000 {
      MulMono(FeeOf(o) + 1, (o.takerAmount * p.feeBps) / 10000, 10000);
    }
  }

  /** A passive order may meet nobody. */
  predicate Polite(b: Book, q: Request, side: Side, priceTicks: int) {
    q.postOnly ==> forall o :: o in SideOf(b, Opposite(side)) ==>
                     if side == BUY then o.priceTicks > priceTicks else o.priceTicks < priceTicks
  }

  /** The order reaches the market's minimums. */
  predicate Reaches(r: Rules, t: Terms) {
    && t.sizeBase > 0 && t.priceTicks > 0 && t.sizeBase >= r.minSizeB
    && t.priceTicks * r.priceTickQ * t.sizeBase >= r.minNotionalQ * Pow10(r.baseDecimals)
  }

  lemma ScreenPassesIff(p: Policy, markets: map<Symbol, Rules>, listing: seq<Symbol>, d: State, q: Request)
    requires forall m :: SortedBook(BookOf(d, m))
    ensures var found := FindMarket(markets, listing, q.order.makerToken, q.order.takerToken);
            Screen(p, markets, listing, d, q).Ok? <==>
              && q.signatureOk && PaysPolicy(p, q.order) && q.fundsRefusal.None?
              && found.Some? && Derive(markets[found.value], q.order).Ok?
              && var t := Derive(markets[found.value], q.order).value;
                 Polite(BookOf(d, found.value), q, t.side, t.priceTicks)
  {
    PolicyHoldsIff(p, q.order);
    var found := FindMarket(markets, listing, q.order.makerToken, q.order.takerToken);
    if found.Some? && Derive(markets[found.value], q.order).Ok? {
      var t := Derive(markets[found.value], q.order).value;
      WouldCrossIff(BookOf(d, found.value), t.side, t.priceTicks);
    }
  }

  /** A request is accepted exactly when its signature has a known shape, it pays the policy fee, its pair has
      a market, its amounts make a price there, no balance guard objects, it is passive only where it meets
      nobody, it reaches the minimums, and its raw order can be stored. */
  lemma AcceptedIff(p: Policy, markets: map<Symbol, Rules>, listing: seq<Symbol>, d: State, q: Request, now: int)
    requires forall m :: SortedBook(BookOf(d, m))
    ensures var found := FindMarket(markets, listing, q.order.makerToken, q.order.takerToken);
            PlaceOrderOp(p, markets, listing, d, q, now).1.Ok? <==>
              && q.signatureOk && PaysPolicy(p, q.order) && q.fundsRefusal.None? && q.persists
              && found.Some? && Derive(markets[found.value], q.order).Ok?
              && var t := Derive(markets[found.value], q.order).value;
                 Polite(BookOf(d, found.value), q, t.side, t.priceTicks) && Reaches(markets[found.value], t)
  {
    ScreenPassesIff(p, markets, listing, d, q);
    PlaceCases(p, markets, listing, d, q, now);
    if Screen(p, markets, listing, d, q).Ok? {
      ScreenedTerms(p, markets, listing, d, q);
      var (m, t) := Screen(p, markets, listing, d, q).value;
      BookTakesIff(markets[m], t);
      SettledBook(d, m, t, RawOf(q.order), now);
    }
  }

  /** The raw order as it is kept: amounts, fee with a missing one written as zero, and expiry. */
  function KeptRaw(o: ZxOrder): Raw {
    Raw(o.makerAmount, o.takerAmount, Some(FeeOf(o)), o.expiry)
  }

  /** The level and the row of an accepted order. */
  predicate BookedAs(d': State, m: Symbol, q: Request, t: Terms, now: int) {
    && Locate(BookOf(d', m), q.id)
       == Some(Order(q.id, q.maker, t.side, t.priceTicks, t.sizeBase, now, Some(KeptRaw(q.order)), q.order.expiry))
    && q.id in d'.rows && d'.rows[q.id].status == PLACED && d'.rows[q.id].raw == Some(KeptRaw(q.order))
  }

  lemma LocatesResting(b: Book, t: Ticket, raw: Raw, now: int)
    ensures Locate(BookWith(b, t, raw, now), t.id) == Some(Resting(t, raw, now))
  {
    AddedIsFound(b, t, now);
    var added := Added(b, t, now);
    if Find(added.bids, t.id).Some? {
      DeskOutcomes.ReplacedIsFound(added.bids, t.id, Resting(t, raw, now));
    } else {
      DeskOutcomes.ReplacedIsFound(added.asks, t.id, Resting(t, raw, now));
    }
  }

  /** An accepted order rests on its market's book with maker, side, price and size of the request, come at
      `now`, with its raw order and that order's expiry; its row is placed and carries the raw order too. */
  lemma AcceptedIsBooked(p: Policy, markets: map<Symbol, Rules>, listing: seq<Symbol>, d: State, q: Request, now: int)
    returns (m: Symbol, t: Terms)
    requires (forall m :: SortedBook(BookOf(d, m))) && PlaceOrderOp(p, markets, listing, d, q, now).1.Ok?
    ensures m in markets && FindMarket(markets, listing, q.order.makerToken, q.order.takerToken) == Some(m)
    ensures Derive(markets[m], q.order) == Ok(t)
    ensures BookedAs(PlaceOrderOp(p, markets, listing, d, q, now).0, m, q, t, now)
    ensures q.id !in d.rows ==>
              PlaceOrderOp(p, markets, listing, d, q, now).0.rows[q.id]
              == Row(m, q.maker, t.side, t.priceTicks, t.sizeBase, t.sizeBase, PLACED, now, Some(KeptRaw(q.order)))
    ensures PlaceOrderOp(p, markets, listing, d, q, now).1 == Ok(q.id)
  {
    var ticket;
    m, ticket := Accepted(p, markets, listing, d, q, now);
    t := Terms(ticket.side, ticket.sizeBase, ticket.priceTicks);
    SettledRows(d, m, ticket, q, now);
    SettledRowsAre(d, m, ticket, q, now);
    TimePriority.CancelledRows(d, m, q.id);
    LocatesResting(BookOf(d, m), ticket, RawOf(q.order), now);
  }

  /** Nothing else on the books changes: no other level of the market, no other market. */
  lemma AcceptedLeavesOtherLevels(p: Policy, markets: map<Symbol, Rules>, listing: seq<Symbol>, d: State, q: Request, now: int,
                                  m: Symbol)
    requires (forall x :: SortedBook(BookOf(d, x))) && PlaceOrderOp(p, markets, listing, d, q, now).1.Ok?
    requires FindMarket(markets, listing, q.order.makerToken, q.order.takerToken) == Some(m)
    ensures var d' := PlaceOrderOp(p, markets, listing, d, q, now).0;
            DeskOutcomes.OtherLevelsKept(BookOf(d, m), BookOf(d', m), q.id) && DeskOutcomes.OnlyMarket(d, d', m)
  {
    var m', t := Accepted(p, markets, listing, d, q, now);
    SettledRows(d, m, t, q, now);
    OtherLevels(BookOf(d, m), t, RawOf(q.order), now);
  }

  /** Nor any other row, nor a trade. */
  lemma AcceptedLeavesOtherRows(p: Policy, markets: map<Symbol, Rules>, listing: seq<Symbol>, d: State, q: Request, now: int,
                                h: Hash)
    requires (forall x :: SortedBook(BookOf(d, x))) && PlaceOrderOp(p, markets, listing, d, q, now).1.Ok? && h != q.id
    ensures var d' := PlaceOrderOp(p, markets, listing, d, q, now).0;
            d'.trades == d.trades && (h in d'.rows <==> h in d.rows) && (h in d.rows ==> d'.rows[h] == d.rows[h])
  {
    var m, t := Accepted(p, markets, listing, d, q, now);
    SettledOtherRows(d, m, t, q, now, h);
  }

  lemma SettledRowsAre(d: State, m: Symbol, t: Ticket, q: Request, now: int)
    requires SortedBook(BookOf(d, m)) && t.id == q.id && Settle(d, m, t, q, now).1.Ok?
    ensures Settle(d, m, t, q, now).0.rows
         == RawPersisted(Upserted(CancelOp(d, m, t.id).0.rows, m, t, now), q.id, RawOf(q.order))
    ensures Settle(d, m, t, q, now).0.trades == d.trades
  {
    SettledBook(d, m, t, RawOf(q.order), now);
  }

  lemma SettledOtherRows(d: State, m: Symbol, t: Ticket, q: Request, now: int, h: Hash)
    requires SortedBook(BookOf(d, m)) && t.id == q.id && Settle(d, m, t, q, now).1.Ok? && h != q.id
    ensures var d' := Settle(d, m, t, q, now).0;
            d'.trades == d.trades && (h in d'.rows <==> h in d.rows) && (h in d.rows ==> d'.rows[h] == d.rows[h])
  {
    SettledRowsAre(d, m, t, q, now);
    TimePriority.CancelledRows(d, m, t.id);
  }

  lemma OtherLevels(b: Book, t: Ticket, raw: Raw, now: int)
    ensures DeskOutcomes.OtherLevelsKept(b, BookWith(b, t, raw, now), t.id)
  {
    AddedIsFound(b, t, now);
    ReplacedOthers(Added(b, t, now).bids, t.id, Resting(t, raw, now));
    ReplacedOthers(Added(b, t, now).asks, t.id, Resting(t, raw, now));
  }

  lemma ReplacedOthers(s: seq<Order>, id: Hash, o: Order)
    requires o.id == id
    ensures forall x: Order :: x.id != id ==> (x in Replace(s, id, o) <==> x in s)
  {
    forall x: Order | x.id != id && x in s ensures x in Replace(s, id, o) {
      var k :| 0 <= k < |s| && s[k] == x;
      assert Replace(s, id, o)[k] == x;
    }
  }

  /** An accepted order is swept, and its row expired, exactly from the second of its own expiry on, and never
      when it has none. */
  lemma ExpiresWithItsOrder(p: Policy, markets: map<Symbol, Rules>, listing: seq<Symbol>, d: State, q: Request, now: int,
                            m: Symbol, nowSec: int)
    requires Coherent(d) && SafeRequest(p, markets, listing, d, q) && PlaceOrderOp(p, markets, listing, d, q, now).1.Ok?
    requires FindMarket(markets, listing, q.order.makerToken, q.order.takerToken) == Some(m)
    ensures var d' := PlaceOrderOp(p, markets, listing, d, q, now).0;
            var swept := SweepExpiredOp(d', nowSec);
            var alive := q.order.expiry == 0 || nowSec < q.order.expiry;
            && (Holds(BookOf(swept, m), q.id) <==> alive)
            && q.id in swept.rows && swept.rows[q.id].status == (if alive then PLACED else EXPIRED)
  {
    PlacementKeepsIff(p, markets, listing, d, q, now);
    forall x ensures SortedBook(BookOf(d, x)) {
      BookOfBacked(d, x);
    }
    var m', t := AcceptedIsBooked(p, markets, listing, d, q, now);
    DeskOutcomes.SweptFromItsExpiry(PlaceOrderOp(p, markets, listing, d, q, now).0, m, q.id, nowSec);
  }
}
