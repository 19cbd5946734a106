/** The delegated-spend estimate of the front end against what a capped buy really costs.
    Models apps/web/src/lib/delegatedSpend.ts against the fee rule of
    apps/api/src/matching/orderbook.service.ts:448-478. */
module DelegatedSpend {
  import opened Prelude
  import opened Arith
  import opened Levels
  import opened Sweep
  import opened Amounts
  import opened Desk
  import opened Placement
  import OP = OrdersPlacement

  const SAFETY_BPS: nat := 200
  const MIN_BUFFER_BPS: nat := 200

  function ResolveSpendBufferBps(takerFeeBps: Option<int>): nat {
    var fee := if takerFeeBps.Some? then Max(0, takerFeeBps.value) else 0;
    Max(MIN_BUFFER_BPS, fee + SAFETY_BPS)
  }

  /** Taker-token requirement, or None when there is nothing to estimate. */
  function EstimateRequiredSpendQ(side: Side, sizeBaseQ: int, priceQ: int, baseDecimals: nat, bufferBps: int): Option<int> {
    if sizeBaseQ <= 0 then None
    else if side == BUY && priceQ <= 0 then None
    else
      var fillQ := if side == BUY then (sizeBaseQ * priceQ) / Pow10(baseDecimals) else sizeBaseQ;
      if fillQ <= 0 then None
      else Some(fillQ + (fillQ * Max(0, bufferBps) + 9999) / 10000)
  }

  /** What the user is asked to fund for a buy at the trigger; nothing when there is no estimate. */
  function Required(trigger: nat, priceTickQ: nat, size: int, baseDecimals: nat, feeBps: nat): int {
    var need := EstimateRequiredSpendQ(BUY, size, trigger * priceTickQ, baseDecimals, ResolveSpendBufferBps(Some(feeBps)));
    if need.Some? then need.value else 0
  }

  /** The estimate is enough for the sweep of this side capped at the trigger. */
  predicate Covered(trigger: nat, priceTickQ: nat, size: int, baseDecimals: nat, feeBps: nat, levels: seq<Order>) {
    QuoteOf(BUY, Some(trigger), levels, size, priceTickQ, baseDecimals, feeBps).takerTotalAmount
    <= Required(trigger, priceTickQ, size, baseDecimals, feeBps)
  }

  predicate PolicyFeesOnly(fills: seq<Fill>) {
    forall f :: f in fills ==> f.raw.None? || f.raw.value.takerFee.None?
  }

  /** A capped buy costs at most the cap for each unit it fills. */
  lemma {:induction false} BuyWithinCap(trigger: nat, levels: seq<Order>, size: int)
    requires forall x :: x in levels ==> x.sizeBase > 0
    ensures Cost(Plan(BUY, Some(trigger), levels, size)) <= trigger * Filled(Plan(BUY, Some(trigger), levels, size))
    ensures 0 <= Filled(Plan(BUY, Some(trigger), levels, size)) <= Max(size, 0)
  {
    if levels != [] && size > 0 && !Worse(BUY, Some(trigger), levels[0].priceTicks) {
      var exec := Min(size, levels[0].sizeBase);
      BuyWithinCap(trigger, levels[1..], size - exec);
      var rest := Plan(BUY, Some(trigger), levels[1..], size - exec);
      assert Plan(BUY, Some(trigger), levels, size)[1..] == rest;
      MulMono(levels[0].priceTicks, trigger, exec);
      CapStep(trigger, exec, Filled(rest));
    }
  }

  lemma CapStep(trigger: nat, exec: int, rest: int)
    ensures trigger * (exec + rest) == trigger * exec + trigger * rest
  {
  }

  lemma {:induction false} PlanTakesFromLevels(taker: Side, limit: Option<int>, levels: seq<Order>, size: int)
    requires forall x :: x in levels ==> x.raw.None? || x.raw.value.takerFee.None?
    ensures PolicyFeesOnly(Plan(taker, limit, levels, size))
  {
    if levels != [] && size > 0 && !Worse(taker, limit, levels[0].priceTicks) {
      var exec := Min(size, levels[0].sizeBase);
      PlanTakesFromLevels(taker, limit, levels[1..], size - exec);
      assert levels[0] in levels;
    }
  }

  lemma {:induction false} PolicyFeeBound(fills: seq<Fill>, priceTickQ: nat, baseDecimals: nat, feeBps: nat)
    requires PolicyFeesOnly(fills)
    ensures FeeTotal(BUY, fills, priceTickQ, baseDecimals, feeBps)
         <= (FlooredNotional(fills, priceTickQ, baseDecimals) * feeBps) / 10000
  {
    if fills != [] {
      PolicyFeeBound(fills[1..], priceTickQ, baseDecimals, feeBps);
      var n := Notional(fills[0].priceTicks, priceTickQ, fills[0].sizeBase, baseDecimals);
      var rest := FlooredNotional(fills[1..], priceTickQ, baseDecimals);
      assert fills[0] in fills;
      FeeOnFirst(fills[0], n, feeBps);
      DivSum(n * feeBps, rest * feeBps, 10000);
      AddParts(n, rest, feeBps);
    }
  }

  lemma FeeOnFirst(f: Fill, n: int, feeBps: nat)
    requires f.raw.None? || f.raw.value.takerFee.None?
    ensures FeePart(BUY, f, n, feeBps) == (n * feeBps) / 10000
  {
  }

  /** Flooring fill by fill never exceeds flooring the whole order at the cap. */
  lemma PaidWithinCap(trigger: nat, priceTickQ: nat, size: nat, d: int, cost: int, filled: int, paid: int)
    requires d > 0 && cost <= trigger * filled && 0 <= filled <= size && paid * d <= cost * priceTickQ
    ensures paid <= (size * (trigger * priceTickQ)) / d
  {
    MulMono(cost, trigger * filled, priceTickQ);
    assert trigger * filled * priceTickQ == filled * (trigger * priceTickQ);
    MulMono(filled, size, trigger * priceTickQ);
    DivLe(paid * d, size * (trigger * priceTickQ), d);
    DivUnique(paid * d, d, paid);
  }

  /** For a buy, the estimate with the resolved buffer covers every sweep capped at the trigger
      under the policy fee, whatever the book and however many fills; when there is no estimate
      there is nothing to pay. */
  lemma PolicyFeesCovered(trigger: nat, priceTickQ: nat, size: int, baseDecimals: nat, feeBps: nat, levels: seq<Order>)
    requires forall x :: x in levels ==> x.sizeBase > 0
    requires forall x :: x in levels ==> x.raw.None? || x.raw.value.takerFee.None?
    ensures Covered(trigger, priceTickQ, size, baseDecimals, feeBps, levels)
  {
    var fills := Plan(BUY, Some(trigger), levels, size);
    var paid := FlooredNotional(fills, priceTickQ, baseDecimals);
    BuyWithinCap(trigger, levels, size);
    PlanTakesFromLevels(BUY, Some(trigger), levels, size);
    FlooredWithinFillCount(fills, priceTickQ, baseDecimals);
    PolicyFeeBound(fills, priceTickQ, baseDecimals, feeBps);
    PaidWithinCap(trigger, priceTickQ, Max(size, 0), Pow10(baseDecimals), Cost(fills), Filled(fills), paid);
    BufferCovers(size, trigger * priceTickQ, Pow10(baseDecimals), paid,
                 FeeTotal(BUY, fills, priceTickQ, baseDecimals, feeBps), feeBps);
  }

  lemma BufferCovers(size: int, price: nat, d: int, paid: int, fee: int, feeBps: nat)
    requires d > 0 && paid <= (Max(size, 0) * price) / d && fee <= (paid * feeBps) / 10000
    ensures size <= 0 || price == 0 ==> paid + fee <= 0
    ensures size > 0 ==> paid + fee <= 0 || paid + fee <= (size * price) / d + ((size * price) / d * (feeBps + 200) + 9999) / 10000
    ensures size > 0 && (size * price) / d <= 0 ==> paid + fee <= 0
  {
    var fillQ := (Max(size, 0) * price) / d;
    DivBounds(Max(size, 0) * price, d);
    BufferCoversFee(paid, fillQ, feeBps);
  }

  lemma BufferCoversFee(paid: int, fillQ: int, feeBps: nat)
    requires paid <= fillQ
    ensures fillQ >= 0 ==> (paid * feeBps) / 10000 <= (fillQ * (feeBps + 200) + 9999) / 10000
    ensures fillQ <= 0 ==> (paid * feeBps) / 10000 <= 0
  {
    MulMono(paid, fillQ, feeBps);
    if fillQ >= 0 {
      Widen(fillQ, feeBps);
      DivLe(paid * feeBps, fillQ * (feeBps + 200) + 9999, 10000);
    }
    if fillQ <= 0 {
      MulMono(paid, 0, feeBps);
      DivLe(paid * feeBps, 0, 10000);
    }
  }

  lemma Widen(q: int, feeBps: nat)
    requires q >= 0
    ensures q * feeBps <= q * (feeBps + 200)
  {
  }

  // ---------------------------------------------------------------------------
  // Attached fees
  // ---------------------------------------------------------------------------

  /** An attached order priced at its own amounts whose fee is at most `feeBps` of its quote amount. */
  predicate FairFee(raw: Option<Raw>, priceTicks: int, priceTickQ: nat, baseDecimals: nat, feeBps: nat) {
    raw.Some? && raw.value.takerFee.Some? ==>
      && raw.value.makerAmount > 0
      && priceTicks * priceTickQ * raw.value.makerAmount == raw.value.takerAmount * Pow10(baseDecimals)
      && raw.value.takerFee.value * 10000 <= raw.value.takerAmount * feeBps
  }

  predicate FairBook(levels: seq<Order>, priceTickQ: nat, baseDecimals: nat, feeBps: nat) {
    forall x :: x in levels ==> x.sizeBase > 0 && FairFee(x.raw, x.priceTicks, priceTickQ, baseDecimals, feeBps)
  }

  predicate FairFills(fills: seq<Fill>, priceTickQ: nat, baseDecimals: nat, feeBps: nat) {
    forall f :: f in fills ==> f.sizeBase >= 0 && FairFee(f.raw, f.priceTicks, priceTickQ, baseDecimals, feeBps)
  }

  lemma {:induction false} PlanIsFair(trigger: Option<int>, levels: seq<Order>, size: int, priceTickQ: nat, baseDecimals: nat,
                                      feeBps: nat)
    requires FairBook(levels, priceTickQ, baseDecimals, feeBps)
    ensures FairFills(Plan(BUY, trigger, levels, size), priceTickQ, baseDecimals, feeBps)
  {
    if levels != [] && size > 0 && !Worse(BUY, trigger, levels[0].priceTicks) {
      PlanIsFair(trigger, levels[1..], size - Min(size, levels[0].sizeBase), priceTickQ, baseDecimals, feeBps);
      assert levels[0] in levels;
    }
  }

  /** Pro rata of a fee that is at most `bps` of `t`, where `m` base is worth exactly `t` quote. */
  lemma ProRata(part: int, fee: int, e: int, m: int, t: int, d: int, worth: int, bps: int)
    requires m > 0 && e >= 0 && d > 0 && bps >= 0
    requires part * m <= fee * e && fee * 10000 <= t * bps && worth * m == t * d
    ensures part * 10000 * d <= bps * (worth * e)
  {
    MulMono(part * m, fee * e, 10000 * d);
    MulMono(fee * 10000, t * bps, e * d);
    assert (fee * e) * (10000 * d) == (fee * 10000) * (e * d);
    assert (t * bps) * (e * d) == bps * e * (t * d) == (bps * (worth * e)) * m;
    assert (part * m) * (10000 * d) == (part * 10000 * d) * m;
    CancelFactor(part * 10000 * d, bps * (worth * e), m);
  }

  lemma Policy(part: int, n: int, d: int, exact: int, bps: int)
    requires d > 0 && bps >= 0 && part * 10000 <= n * bps && n * d <= exact
    ensures part * 10000 * d <= bps * exact
  {
    MulMono(part * 10000, n * bps, d);
    MulMono(n * d, exact, bps);
    assert n * bps * d == n * d * bps;
  }

  lemma FeeOnOne(f: Fill, priceTickQ: nat, baseDecimals: nat, feeBps: nat)
    requires f.sizeBase >= 0 && FairFee(f.raw, f.priceTicks, priceTickQ, baseDecimals, feeBps)
    ensures FeePart(BUY, f, Notional(f.priceTicks, priceTickQ, f.sizeBase, baseDecimals), feeBps) * 10000 * Pow10(baseDecimals)
         <= feeBps * (f.priceTicks * priceTickQ * f.sizeBase)
  {
    var d := Pow10(baseDecimals);
    var n := Notional(f.priceTicks, priceTickQ, f.sizeBase, baseDecimals);
    if f.raw.Some? && f.raw.value.takerFee.Some? {
      var fee, m := f.raw.value.takerFee.value, f.raw.value.makerAmount;
      DivBounds(fee * f.sizeBase, m);
      ProRata((fee * f.sizeBase) / m, fee, f.sizeBase, m, f.raw.value.takerAmount, d, f.priceTicks * priceTickQ, feeBps);
    } else {
      DivBounds(n * feeBps, 10000);
      DivBounds(f.priceTicks * priceTickQ * f.sizeBase, d);
      Policy((n * feeBps) / 10000, n, d, f.priceTicks * priceTickQ * f.sizeBase, feeBps);
    }
  }

  lemma AddFees(a: int, b: int, bps: int, x: int, y: int, tickQ: int, d: int)
    requires a * 10000 * d <= bps * (x * tickQ) && b * 10000 * d <= bps * (y * tickQ)
    ensures (a + b) * 10000 * d <= bps * ((x + y) * tickQ)
  {
    assert (a + b) * 10000 * d == a * 10000 * d + b * 10000 * d;
    assert bps * ((x + y) * tickQ) == bps * (x * tickQ) + bps * (y * tickQ);
  }

  /** All fees of a plan together stay within `feeBps` of its exact, unfloored cost. */
  lemma {:induction false} FeesWithinCost(fills: seq<Fill>, priceTickQ: nat, baseDecimals: nat, feeBps: nat)
    requires FairFills(fills, priceTickQ, baseDecimals, feeBps)
    ensures FeeTotal(BUY, fills, priceTickQ, baseDecimals, feeBps) * 10000 * Pow10(baseDecimals) <= feeBps * (Cost(fills) * priceTickQ)
  {
    if fills != [] {
      var f := fills[0];
      assert f in fills;
      FeesWithinCost(fills[1..], priceTickQ, baseDecimals, feeBps);
      FeeOnOne(f, priceTickQ, baseDecimals, feeBps);
      assert f.priceTicks * priceTickQ * f.sizeBase == (f.priceTicks * f.sizeBase) * priceTickQ;
      AddFees(FeePart(BUY, f, Notional(f.priceTicks, priceTickQ, f.sizeBase, baseDecimals), feeBps),
              FeeTotal(BUY, fills[1..], priceTickQ, baseDecimals, feeBps), feeBps,
              f.priceTicks * f.sizeBase, Cost(fills[1..]), priceTickQ, Pow10(baseDecimals));
    }
  }

  /** A fee within `bps` of what may be spent at most, `worst`, fits in the buffer on the floored amount. */
  lemma BufferFits(fee: int, bps: nat, worst: nat, d: int)
    requires d > 0 && bps <= 10000 && fee * 10000 * d <= bps * worst
    ensures fee <= ((worst / d) * (bps + 200) + 9999) / 10000
    ensures worst / d == 0 ==> fee <= 0
  {
    var fillQ := worst / d;
    DivBounds(worst, d);
    MulMono(worst, fillQ * d + d, bps);
    assert bps * (fillQ * d + d) == (bps * fillQ + bps) * d;
    CancelFactor(fee * 10000, bps * fillQ + bps, d);
    if fee * 10000 == bps * fillQ + bps && bps > 0 {
      MulMono(worst + 1, fillQ * d + d, bps);
      assert false;
    }
    FeeAtMost(fee, fillQ, bps);
  }

  lemma FeeAtMost(fee: int, fillQ: nat, bps: nat)
    requires bps <= 10000 && fee * 10000 <= bps * fillQ + (if bps > 0 then bps - 1 else 0)
    ensures fee <= (fillQ * (bps + 200) + 9999) / 10000
    ensures fillQ == 0 ==> fee <= 0
  {
    Widen(fillQ, bps);
    DivLe(fee * 10000, fillQ * (bps + 200) + 9999, 10000);
    DivUnique(fee * 10000, 10000, fee);
  }

  lemma WorstCost(trigger: nat, priceTickQ: nat, size: int, cost: int, filled: int)
    requires cost <= trigger * filled && 0 <= filled <= Max(size, 0)
    ensures cost * priceTickQ <= Max(size, 0) * (trigger * priceTickQ)
  {
    MulMono(cost, trigger * filled, priceTickQ);
    assert trigger * filled * priceTickQ == filled * (trigger * priceTickQ);
    MulMono(filled, Max(size, 0), trigger * priceTickQ);
  }

  lemma WorstCase(fee: int, feeBps: nat, exact: int, worst: int, d: int)
    requires exact <= worst && fee * 10000 * d <= feeBps * exact
    ensures fee * 10000 * d <= feeBps * worst
  {
    MulMono(exact, worst, feeBps);
  }

  /** For a buy, the estimate covers every sweep capped at the trigger when no fee, attached or by
      policy, is more than `feeBps` of its quote amount and that is not above the amount itself:
      whatever the book, however many fills, however they are floored. */
  lemma SpendEstimateCovers(trigger: nat, priceTickQ: nat, size: int, baseDecimals: nat, feeBps: nat, levels: seq<Order>)
    requires FairBook(levels, priceTickQ, baseDecimals, feeBps) && feeBps <= 10000
    ensures Covered(trigger, priceTickQ, size, baseDecimals, feeBps, levels)
  {
    var fills := Plan(BUY, Some(trigger), levels, size);
    var paid, d := FlooredNotional(fills, priceTickQ, baseDecimals), Pow10(baseDecimals);
    var fee := FeeTotal(BUY, fills, priceTickQ, baseDecimals, feeBps);
    BuyWithinCap(trigger, levels, size);
    FlooredWithinFillCount(fills, priceTickQ, baseDecimals);
    PaidWithinCap(trigger, priceTickQ, Max(size, 0), d, Cost(fills), Filled(fills), paid);
    PlanIsFair(Some(trigger), levels, size, priceTickQ, baseDecimals, feeBps);
    FeesWithinCost(fills, priceTickQ, baseDecimals, feeBps);
    WorstCost(trigger, priceTickQ, size, Cost(fills), Filled(fills));
    WorstCase(fee, feeBps, Cost(fills) * priceTickQ, Max(size, 0) * (trigger * priceTickQ), d);
    BufferFits(fee, feeBps, Max(size, 0) * (trigger * priceTickQ), d);
    NothingForNothing(size, trigger * priceTickQ, d);
  }

  lemma NothingForNothing(size: int, price: nat, d: int)
    requires d > 0
    ensures size <= 0 || price == 0 ==> (Max(size, 0) * price) / d == 0
    ensures (Max(size, 0) * price) / d >= 0
  {
    DivLe(0, Max(size, 0) * price, d);
    DivUnique(0, d, 0);
  }

  lemma OneLevelQuote(x: Order, trigger: int, size: int, priceTickQ: int, baseDecimals: nat, feeBps: nat)
    requires 0 < size <= x.sizeBase && x.priceTicks <= trigger
    ensures var q := QuoteOf(BUY, Some(trigger), [x], size, priceTickQ, baseDecimals, feeBps);
            var paid := Notional(x.priceTicks, priceTickQ, size, baseDecimals);
            q.takerAmount == paid && q.takerFeeAmount == FeePart(BUY, FillOf(x, size), paid, feeBps)
  {
    var fills := Plan(BUY, Some(trigger), [x], size);
    assert Plan(BUY, Some(trigger), [x][1..], 0) == [];
    assert fills == [FillOf(x, size)];
    assert FlooredNotional(fills[1..], priceTickQ, baseDecimals) == 0;
    assert FeeTotal(BUY, fills[1..], priceTickQ, baseDecimals, feeBps) == 0;
  }

  /** A fee above the amount itself, charged on a fill too small for an estimate. */
  lemma ExcessiveFeeEscapes(feeBps: nat)
    requires feeBps > 10000
    ensures exists levels :: FairBook(levels, 1, 5, feeBps) && !Covered(99999, 1, 1, 5, feeBps, levels)
  {
    var fee := (99999 * feeBps) / 10000;
    var x := Order(1, "m", SELL, 99999, 100000, 0, Some(Raw(100000, 99999, Some(fee), 0)), 0);
    assert Pow10(5) == 100000;
    DivBounds(99999 * feeBps, 10000);
    assert FairBook([x], 1, 5, feeBps);
    OneLevelQuote(x, 99999, 1, 1, 5, feeBps);
    DivUnique(99999, 100000, 0);
    DivLe(100000, fee * 1, 100000);
    assert FeePart(BUY, FillOf(x, 1), 0, feeBps) == (fee * 1) / 100000;
    assert Required(99999, 1, 1, 5, feeBps) == 0;
  }

  /** So the estimate covers all such books exactly when the fee rate is at most the whole amount. */
  lemma CoversEveryFairBookIff(feeBps: nat)
    ensures feeBps <= 10000 <==>
              forall trigger: nat, tickQ: nat, size, decimals: nat, levels ::
                FairBook(levels, tickQ, decimals, feeBps) ==> Covered(trigger, tickQ, size, decimals, feeBps, levels)
  {
    if feeBps <= 10000 {
      forall trigger: nat, tickQ: nat, size, decimals: nat, levels | FairBook(levels, tickQ, decimals, feeBps)
        ensures Covered(trigger, tickQ, size, decimals, feeBps, levels)
      {
        SpendEstimateCovers(trigger, tickQ, size, decimals, feeBps, levels);
      }
    } else {
      ExcessiveFeeEscapes(feeBps);
    }
  }

  // ---------------------------------------------------------------------------
  // Orders that placement accepts
  // ---------------------------------------------------------------------------

  /** The fee the front end signs. */
  function SignedFee(takerAmount: nat, feeBps: nat): nat {
    (takerAmount * feeBps) / 10000
  }

  function FeeOf(o: ZxOrder): nat {
    if o.takerTokenFeeAmount.Some? then o.takerTokenFeeAmount.value else 0
  }

  lemma DerivedPriceIsExact(r: Rules, o: ZxOrder)
    requires Derive(r, o).Ok? && Derive(r, o).value.side == SELL
    ensures o.makerAmount > 0 && Derive(r, o).value.sizeBase == o.makerAmount
    ensures Derive(r, o).value.priceTicks * r.priceTickQ * o.makerAmount == o.takerAmount * Pow10(r.baseDecimals)
  {
    var t := Derive(r, o).value;
    TicksFromIff(o.takerAmount, o.makerAmount, r, t.priceTicks);
    Regroup(t.priceTicks, r.priceTickQ, o.makerAmount);
  }

  /** Every accepted ask whose fee is at most what the front end signs rests as a fair one; its fee is
      always attached, a missing one as zero. */
  lemma AcceptedAskIsFair(r: Rules, o: ZxOrder, feeBps: nat)
    requires Derive(r, o).Ok? && Derive(r, o).value.side == SELL && FeeOf(o) <= SignedFee(o.takerAmount, feeBps)
    ensures OP.RawOf(o).takerFee == Some(FeeOf(o))
    ensures FairFee(Some(OP.RawOf(o)), Derive(r, o).value.priceTicks, r.priceTickQ, r.baseDecimals, feeBps)
  {
    DerivedPriceIsExact(r, o);
    DivBounds(o.takerAmount * feeBps, 10000);
  }

  /** The ask as it rests right after placement. */
  predicate RestsAs(x: Order, r: Rules, o: ZxOrder) {
    Derive(r, o).Ok? && Derive(r, o).value.side == SELL && x.sizeBase == Derive(r, o).value.sizeBase
    && x.priceTicks == Derive(r, o).value.priceTicks && x.raw == Some(OP.RawOf(o))
  }

  lemma WholeOrderTotals(r: Rules, o: ZxOrder, x: Order, feeBps: nat)
    requires RestsAs(x, r, o)
    ensures var q := QuoteOf(BUY, Some(x.priceTicks), [x], x.sizeBase, r.priceTickQ, r.baseDecimals, feeBps);
            q.takerAmount == o.takerAmount && q.takerFeeAmount == FeeOf(o)
  {
    DerivedPriceIsExact(r, o);
    AcceptedNotionalIsSignedAmount(r, o);
    DivUnique(FeeOf(o) * o.makerAmount, o.makerAmount, FeeOf(o));
    OneLevelQuote(x, x.priceTicks, x.sizeBase, r.priceTickQ, r.baseDecimals, feeBps);
  }

  /** Exactly when the estimate covers one accepted ask bought whole at its own price: its attached
      fee is within the buffer. Placement itself puts no upper bound on that fee. */
  lemma WholeOrderCoveredIff(r: Rules, o: ZxOrder, x: Order, feeBps: nat)
    requires RestsAs(x, r, o)
    ensures Covered(x.priceTicks, r.priceTickQ, x.sizeBase, r.baseDecimals, feeBps, [x])
       <==> FeeOf(o) <= (o.takerAmount * (feeBps + 200) + 9999) / 10000
  {
    DerivedPriceIsExact(r, o);
    AcceptedNotionalIsSignedAmount(r, o);
    WholeOrderTotals(r, o, x, feeBps);
    Regroup(x.priceTicks, r.priceTickQ, x.sizeBase);
    assert x.sizeBase * (x.priceTicks * r.priceTickQ) == x.priceTicks * r.priceTickQ * x.sizeBase;
    DivUnique(9999, 10000, 0);
  }

  const DEAR_ASK := ZxOrder("b", "q", 100, 100, Some(50), "m", "", 0, 0)
  const PLAIN_RULES := Rules(0, 1, 1, 1, "b", "q")

  /** An ask of 100 for 100 with an attached fee of 50 is accepted under a policy that asks for no fee;
      buying it whole costs 150, and the estimate is 102. */
  lemma AttachedFeeEscapes(now: int)
    ensures var q := OP.Request(DEAR_ASK, true, 1, "m", false, None, true);
            var (d, out) := OP.PlaceOrderOp(OP.Policy(0, ""), map["M" := PLAIN_RULES], ["M"], State(map[], map[], []), q, now);
            && out.Ok?
            && |BookOf(d, "M").asks| == 1 && RestsAs(BookOf(d, "M").asks[0], PLAIN_RULES, DEAR_ASK)
            && QuoteOf(BUY, Some(1), BookOf(d, "M").asks, 100, 1, 0, 0).takerTotalAmount == 150
            && Required(1, 1, 100, 0, 0) == 102
  {
    var d := State(map[], map[], []);
    var q := OP.Request(DEAR_ASK, true, 1, "m", false, None, true);
    var t := Ticket(1, "m", SELL, 1, 100);
    var x := OP.Resting(t, OP.RawOf(DEAR_ASK), now);
    OP.SettledBook(d, "M", t, OP.RawOf(DEAR_ASK), now);
    WholeOrderTotals(PLAIN_RULES, DEAR_ASK, x, 0);
    assert OP.BookWith(Book([], []), t, OP.RawOf(DEAR_ASK), now).asks == [x];
  }
}
