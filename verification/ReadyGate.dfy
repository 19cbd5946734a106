/** When a waiting market intent is ready, when it is still ready, and what the matcher then says.
    Models apps/api/src/sea/cmr-prepare.service.ts, freshQuote of apps/api/src/sea/sea.controller.ts,
    quote of apps/api/src/public/match.controller.ts and apps/api/src/sea/notional.util.ts. */
module ReadyGate {
  import opened Prelude
  import opened Arith
  import opened Levels
  import opened Sweep
  import opened Desk
  import opened Amounts
  import I = Intents
  import opened Tokens
  import opened Sea

  datatype TriggerType = PRICE_BELOW | PRICE_ABOVE

  datatype ReferencePrice = BEST_ASK | BEST_BID | MID

  /** What a conditional market intent asks for. */
  datatype Wish = Wish(side: Side, sizeBase: int, triggerType: TriggerType, reference: ReferencePrice, triggerTicks: int)

  function ReferenceTicks(b: Book, reference: ReferencePrice): Option<int> {
    match reference
    case BEST_ASK => if b.asks == [] then None else Some(b.asks[0].priceTicks)
    case BEST_BID => if b.bids == [] then None else Some(b.bids[0].priceTicks)
    case MID => None
  }

  predicate TriggerSatisfied(t: TriggerType, reference: int, threshold: int) {
    if t == PRICE_BELOW then reference <= threshold else reference >= threshold
  }

  predicate Triggered(c: Wish, b: Book) {
    var reference := ReferenceTicks(b, c.reference);
    reference.Some? && TriggerSatisfied(c.triggerType, reference.value, c.triggerTicks)
  }

  /** The preview capped at the trigger price. */
  function Preview(c: Wish, b: Book, r: Rules, feeBps: nat): Quote {
    QuoteOf(c.side, Some(c.triggerTicks), SideOf(b, Opposite(c.side)), c.sizeBase, r.priceTickQ, r.baseDecimals, feeBps)
  }

  /** Why the preview is not good enough, in the order it is checked. */
  function PreviewRefusal(q: Quote, r: Rules): Option<string> {
    if q.remainingBase > 0 then Some("insufficient_liquidity")
    else if FlooredNotional(q.fills, r.priceTickQ, r.baseDecimals) < r.minNotionalQ then Some("notional_below_min_notional")
    else if |q.fills| != 1 then Some("requires_single_fill")
    else None
  }

  function Evaluate(c: Wish, b: Book, r: Rules, feeBps: nat): Verdict {
    if !Triggered(c, b) then Untriggered
    else if PreviewRefusal(Preview(c, b, r, feeBps), r).Some? then Short
    else Fillable
  }

  /** The best opposite order alone covers the whole size, at or better than the trigger, for at
      least the minimum notional. */
  predicate HeadCovers(c: Wish, b: Book, r: Rules) {
    var levels := SideOf(b, Opposite(c.side));
    && c.sizeBase > 0 && levels != []
    && !Worse(c.side, Some(c.triggerTicks), levels[0].priceTicks)
    && levels[0].sizeBase >= c.sizeBase
    && Notional(levels[0].priceTicks, r.priceTickQ, c.sizeBase, r.baseDecimals) >= r.minNotionalQ
  }

  /** The pairing creation insists on: buy below the best ask, sell above the best bid. */
  predicate Natural(c: Wish) {
    if c.side == BUY then c.triggerType == PRICE_BELOW && c.reference == BEST_ASK
    else c.triggerType == PRICE_ABOVE && c.reference == BEST_BID
  }

  lemma PlanFromHead(side: Side, limit: Option<int>, levels: seq<Order>, size: int)
    requires levels != [] && size > 0 && levels[0].sizeBase >= size && !Worse(side, limit, levels[0].priceTicks)
    ensures Plan(side, limit, levels, size) == [FillOf(levels[0], size)]
    ensures Filled(Plan(side, limit, levels, size)) == size
  {
    assert Plan(side, limit, levels[1..], 0) == [];
  }

  lemma OneFillTotals(f: Fill, priceTickQ: int, baseDecimals: nat)
    ensures FlooredNotional([f], priceTickQ, baseDecimals) == Notional(f.priceTicks, priceTickQ, f.sizeBase, baseDecimals)
  {
  }

  /** A complete plan with one fill is the head taking everything. */
  lemma OneFillIsHead(side: Side, limit: Option<int>, levels: seq<Order>, size: int)
    requires forall x :: x in levels ==> x.sizeBase > 0
    requires |Plan(side, limit, levels, size)| == 1 && size <= Filled(Plan(side, limit, levels, size))
    ensures levels != [] && size > 0 && levels[0].sizeBase >= size && !Worse(side, limit, levels[0].priceTicks)
  {
    var plan := Plan(side, limit, levels, size);
    assert plan == [plan[0]];
  }

  /** The preview passes exactly when the head covers the wish. */
  lemma PreviewPassesIff(c: Wish, b: Book, r: Rules, feeBps: nat)
    requires Populated(Opposite(c.side), SideOf(b, Opposite(c.side)))
    ensures PreviewRefusal(Preview(c, b, r, feeBps), r).None? <==> HeadCovers(c, b, r)
  {
    var levels := SideOf(b, Opposite(c.side));
    var q := Preview(c, b, r, feeBps);
    if HeadCovers(c, b, r) {
      PlanFromHead(c.side, Some(c.triggerTicks), levels, c.sizeBase);
      OneFillTotals(q.fills[0], r.priceTickQ, r.baseDecimals);
    }
    if PreviewRefusal(q, r).None? {
      OneFillIsHead(c.side, Some(c.triggerTicks), levels, c.sizeBase);
      PlanFromHead(c.side, Some(c.triggerTicks), levels, c.sizeBase);
      OneFillTotals(q.fills[0], r.priceTickQ, r.baseDecimals);
    }
  }

  /** An intent is marked ready only when the head covers it, and for a natural wish exactly then. */
  lemma ReadyIffHeadCovers(c: Wish, b: Book, r: Rules, feeBps: nat)
    requires Populated(Opposite(c.side), SideOf(b, Opposite(c.side)))
    ensures Evaluate(c, b, r, feeBps) == Fillable <==> Triggered(c, b) && HeadCovers(c, b, r)
    ensures Natural(c) ==> (Evaluate(c, b, r, feeBps) == Fillable <==> HeadCovers(c, b, r))
  {
    PreviewPassesIff(c, b, r, feeBps);
  }

  // ---------------------------------------------------------------------------
  // Fresh quote
  // ---------------------------------------------------------------------------

  datatype Fresh = Fresh(quote: Quote, lockNonce: string, proposal: int)

  function FreshQuote(env: Env, rows: I.Rows, now: int, id: string, c: Wish, b: Book, r: Rules, feeBps: nat): Outcome<Fresh> {
    if id !in rows then Fail("intent_not_found")
    else if rows[id].status != I.READY || rows[id].kind != I.CMR then Fail("intent_not_ready")
    else if now > rows[id].expiresAt then Fail("intent_expired")
    else if rows[id].preparedQuoteAt.None? || rows[id].preparedQuoteAt.value == 0 || TtlOver(rows[id], now) then
      Fail("ready_ttl_expired")
    else if !Triggered(c, b) then Fail("trigger_no_longer_satisfied")
    else
      var q := Preview(c, b, r, feeBps);
      match PreviewRefusal(q, r)
      case Some(code) => Fail(code)
      case None =>
        Ok(Fresh(q, IssueLockNonce(env, id, rows[id].owner, rows[id].preparedQuoteAt.value), LockProposal(env, now, rows[id])))
  }

  /** The row is READY, unexpired and within its epoch. */
  predicate StillOpen(rows: I.Rows, now: int, id: string) {
    && I.At(rows, id, I.READY) && rows[id].kind == I.CMR && now <= rows[id].expiresAt
    && rows[id].preparedQuoteAt.Some? && rows[id].preparedQuoteAt.value != 0 && !TtlOver(rows[id], now)
  }

  /** Fresh quote decides the very predicate that made the intent ready, on the book of the moment. */
  lemma FreshQuoteIff(env: Env, rows: I.Rows, now: int, id: string, c: Wish, b: Book, r: Rules, feeBps: nat)
    requires Populated(Opposite(c.side), SideOf(b, Opposite(c.side)))
    ensures FreshQuote(env, rows, now, id, c, b, r, feeBps).Ok? <==>
              StillOpen(rows, now, id) && Evaluate(c, b, r, feeBps) == Fillable
    ensures Natural(c) ==> (FreshQuote(env, rows, now, id, c, b, r, feeBps).Ok? <==>
                              StillOpen(rows, now, id) && HeadCovers(c, b, r))
  {
    ReadyIffHeadCovers(c, b, r, feeBps);
  }

  // ---------------------------------------------------------------------------
  // The matcher's quote
  // ---------------------------------------------------------------------------

  datatype Tif = GTC | IOC | FOK

  /** A cap that is not positive is ignored. */
  function Cap(limit: Option<int>): Option<int> {
    if limit.Some? && limit.value > 0 then limit else None
  }

  function MatchQuote(b: Book, r: Rules, side: Side, size: int, tif: Tif, limit: Option<int>, feeBps: nat): Outcome<Quote> {
    if size < r.minSizeB then Fail("size_below_min_size")
    else
      var plan := QuoteOf(side, Cap(limit), SideOf(b, Opposite(side)), size, r.priceTickQ, r.baseDecimals, feeBps);
      if tif == FOK && Filled(plan.fills) < size then Fail("fok_insufficient_liquidity")
      else if plan.fills != [] && FlooredNotional(plan.fills, r.priceTickQ, r.baseDecimals) < r.minNotionalQ then
        Fail("notional_below_min_notional")
      else Ok(plan)
  }

  /** On the book that made an intent ready, a fill-or-kill quote at its trigger is refused neither
      for liquidity nor for notional; it is the head alone for the whole size. */
  lemma ReadyIntentIsQuoted(c: Wish, b: Book, r: Rules, feeBps: nat)
    requires HeadCovers(c, b, r)
    ensures var out := MatchQuote(b, r, c.side, c.sizeBase, FOK, Some(c.triggerTicks), feeBps);
            && (out.Ok? <==> c.sizeBase >= r.minSizeB)
            && (out.Fail? ==> out.code == "size_below_min_size")
            && (out.Ok? ==> out.value.fills == [FillOf(SideOf(b, Opposite(c.side))[0], c.sizeBase)]
                            && out.value.remainingBase == 0)
  {
    var levels := SideOf(b, Opposite(c.side));
    PlanFromHead(c.side, Cap(Some(c.triggerTicks)), levels, c.sizeBase);
    OneFillTotals(FillOf(levels[0], c.sizeBase), r.priceTickQ, r.baseDecimals);
  }

  /** What a fill-or-kill quote promises whoever asks: everything, within the cap, for at least the
      minimum notional, or a refusal. */
  lemma FillOrKillIsAllOrNothing(b: Book, r: Rules, side: Side, size: int, limit: Option<int>, feeBps: nat)
    requires GoodSide(Opposite(side), SideOf(b, Opposite(side))) && size > 0
    ensures MatchQuote(b, r, side, size, FOK, limit, feeBps).Ok? <==>
              && size >= r.minSizeB
              && Depth(side, Cap(limit), SideOf(b, Opposite(side))) >= size
              && FlooredNotional(Plan(side, Cap(limit), SideOf(b, Opposite(side)), size), r.priceTickQ, r.baseDecimals)
                 >= r.minNotionalQ
  {
    PlanFillsExactly(side, Cap(limit), SideOf(b, Opposite(side)), size);
  }

  // ---------------------------------------------------------------------------
  // The loops
  // ---------------------------------------------------------------------------

  lemma {:induction false} WorthlessTicks(fills: seq<Fill>, baseDecimals: nat)
    ensures FlooredNotional(fills, 0, baseDecimals) == 0
  {
    if fills != [] {
      WorthlessTicks(fills[1..], baseDecimals);
      DivUnique(0, Pow10(baseDecimals), 0);
      assert fills[0].priceTicks * 0 * fills[0].sizeBase == 0;
    }
  }

  method ComputeQuoteNotionalQ(fills: seq<Fill>, priceTickQ: nat, baseDecimals: nat) returns (total: int)
    ensures total == FlooredNotional(fills, priceTickQ, baseDecimals)
  {
    if priceTickQ <= 0 {
      WorthlessTicks(fills, baseDecimals);
      return 0;
    }
    total := 0;
    var i := 0;
    while i < |fills|
      invariant 0 <= i <= |fills|
      invariant total == FlooredNotional(fills[..i], priceTickQ, baseDecimals)
    {
      total := total + (fills[i].priceTicks * priceTickQ * fills[i].sizeBase) / Pow10(baseDecimals);
      TotalsAppend(fills[..i], fills[i], BUY, priceTickQ, baseDecimals, 0);
      assert fills[..i + 1] == fills[..i] + [fills[i]];
      i := i + 1;
    }
    assert fills[..i] == fills;
  }

  method AvailableBase(fills: seq<Fill>) returns (total: int)
    ensures total == Filled(fills)
  {
    total := 0;
    var i := 0;
    while i < |fills|
      invariant 0 <= i <= |fills|
      invariant total == Filled(fills[..i])
    {
      total := total + fills[i].sizeBase;
      TotalsAppend(fills[..i], fills[i], BUY, 0, 0, 0);
      assert fills[..i + 1] == fills[..i] + [fills[i]];
      i := i + 1;
    }
    assert fills[..i] == fills;
  }

  /** Taker amount of one fill against its own order. */
  function FillTakerAmount(side: Side, f: Fill): int
    requires f.raw.Some? && f.sizeBase >= 0
  {
    if side == BUY then TakerFillAmount(f.sizeBase, f.raw.value.makerAmount, f.raw.value.takerAmount) else f.sizeBase
  }

  function TakerAmountTotal(side: Side, fills: seq<Fill>): int
    requires forall f :: f in fills ==> f.raw.Some? && f.sizeBase >= 0
  {
    if fills == [] then 0
    else TakerAmountTotal(side, fills[..|fills| - 1]) + FillTakerAmount(side, fills[|fills| - 1])
  }

  /** A fill without raw order takes the one stored on its row, if there is one. */
  function WithStoredRaw(rows: map<Hash, Row>, f: Fill): Fill {
    if f.raw.None? && f.makerOrderHash in rows then f.(raw := rows[f.makerOrderHash].raw) else f
  }

  function Hydrated(rows: map<Hash, Row>, fills: seq<Fill>): (r: seq<Fill>)
    ensures |r| == |fills| && forall i :: 0 <= i < |r| ==> r[i] == WithStoredRaw(rows, fills[i])
  {
    seq(|fills|, i requires 0 <= i < |fills| => WithStoredRaw(rows, fills[i]))
  }

  /** The amounts put in calldata and their sum. */
  method TakerAmounts(side: Side, fills: seq<Fill>) returns (each: seq<int>, sum: int)
    requires forall f :: f in fills ==> f.raw.Some? && f.sizeBase >= 0
    ensures |each| == |fills| && forall k :: 0 <= k < |fills| ==> each[k] == FillTakerAmount(side, fills[k])
    ensures sum == TakerAmountTotal(side, fills)
  {
    each, sum := [], 0;
    var i := 0;
    while i < |fills|
      invariant 0 <= i <= |fills| && |each| == i
      invariant forall k :: 0 <= k < i ==> each[k] == FillTakerAmount(side, fills[k])
      invariant sum == TakerAmountTotal(side, fills[..i])
    {
      assert fills[..i + 1] == fills[..i] + [fills[i]] && fills[..i + 1][..i] == fills[..i];
      var amount := FillTakerAmount(side, fills[i]);
      each, sum := each + [amount], sum + amount;
      i := i + 1;
    }
    assert fills[..i] == fills;
  }

  /** Amounts for a plan of several fills, or nothing when some order's raw is neither on its level nor
      on its row. */
  method CalldataAmounts(side: Side, plan: seq<Fill>, rows: map<Hash, Row>) returns (amounts: Option<(seq<int>, int)>)
    requires forall f :: f in plan ==> f.sizeBase >= 0
    ensures amounts.Some? <==>
              forall i :: 0 <= i < |plan| ==>
                plan[i].raw.Some? || (plan[i].makerOrderHash in rows && rows[plan[i].makerOrderHash].raw.Some?)
    ensures amounts.Some? ==>
              var fills := Hydrated(rows, plan);
              && (forall f :: f in fills ==> f.raw.Some? && f.sizeBase >= 0)
              && |amounts.value.0| == |plan|
              && (forall i :: 0 <= i < |fills| ==> amounts.value.0[i] == FillTakerAmount(side, fills[i]))
              && amounts.value.1 == TakerAmountTotal(side, fills)
  {
    var fills := Hydrated(rows, plan);
    if exists i :: 0 <= i < |fills| && fills[i].raw.None? {
      return None;
    }
    forall f | f in fills ensures f.raw.Some? && f.sizeBase >= 0 {
      var i :| 0 <= i < |fills| && fills[i] == f;
      assert plan[i] in plan;
    }
    var each, sum := TakerAmounts(side, fills);
    amounts := Some((each, sum));
  }
}
