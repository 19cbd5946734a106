/** The taker sweep: what quote promises, what market does, and why the two agree.
    Models apps/api/src/matching/orderbook.service.ts:398-555. */
module Sweep {
  import opened Prelude
  import opened Arith
  import opened Levels

  datatype Fill = Fill(makerOrderHash: Hash, maker: Address, priceTicks: int, sizeBase: int, raw: Option<Raw>)

  /** A level priced worse than the taker's cap. */
  predicate Worse(taker: Side, limit: Option<int>, priceTicks: int) {
    limit.Some? && Key(Opposite(taker), priceTicks) > Key(Opposite(taker), limit.value)
  }

  function FillOf(o: Order, exec: int): Fill {
    Fill(o.id, o.maker, o.priceTicks, exec, o.raw)
  }

  /** The greedy plan: best level first, stopping at the first level past the cap. */
  function Plan(taker: Side, limit: Option<int>, levels: seq<Order>, size: int): seq<Fill> {
    if levels == [] || size <= 0 || Worse(taker, limit, levels[0].priceTicks) then []
    else
      var exec := Min(size, levels[0].sizeBase);
      [FillOf(levels[0], exec)] + Plan(taker, limit, levels[1..], size - exec)
  }

  function Filled(fills: seq<Fill>): int {
    if fills == [] then 0 else fills[0].sizeBase + Filled(fills[1..])
  }

  /** Exact notional in ticks, before scaling and flooring. */
  function Cost(fills: seq<Fill>): int {
    if fills == [] then 0 else fills[0].priceTicks * fills[0].sizeBase + Cost(fills[1..])
  }

  /** All the base on offer at or better than the cap, wherever it sits on the side. */
  function Depth(taker: Side, limit: Option<int>, levels: seq<Order>): int {
    if levels == [] then 0
    else (if Worse(taker, limit, levels[0].priceTicks) then 0 else levels[0].sizeBase)
         + Depth(taker, limit, levels[1..])
  }

  function WithinCap(taker: Side, limit: Option<int>, levels: seq<Order>): seq<Order> {
    if levels == [] then []
    else (if Worse(taker, limit, levels[0].priceTicks) then [] else [levels[0]]) + WithinCap(taker, limit, levels[1..])
  }

  lemma {:induction false} PastTheCap(taker: Side, limit: Option<int>, levels: seq<Order>)
    requires Sorted(Opposite(taker), levels)
    requires levels != [] && Worse(taker, limit, levels[0].priceTicks)
    ensures Depth(taker, limit, levels) == 0 && WithinCap(taker, limit, levels) == []
  {
    if |levels| > 1 {
      assert levels[1] in levels[1..];
      PastTheCap(taker, limit, levels[1..]);
    }
  }

  lemma {:induction false} DepthNonNegative(taker: Side, limit: Option<int>, levels: seq<Order>)
    requires forall x :: x in levels ==> x.sizeBase > 0
    ensures Depth(taker, limit, levels) >= 0
  {
    if levels != [] {
      DepthNonNegative(taker, limit, levels[1..]);
    }
  }

  /** A capped quote fills the size asked for or everything at or better than the cap,
      whichever is less. */
  lemma {:induction false} PlanFillsExactly(taker: Side, limit: Option<int>, levels: seq<Order>, size: int)
    requires GoodSide(Opposite(taker), levels)
    ensures Filled(Plan(taker, limit, levels, size)) == Min(Max(size, 0), Depth(taker, limit, levels))
  {
    DepthNonNegative(taker, limit, levels);
    if levels != [] && size > 0 {
      if Worse(taker, limit, levels[0].priceTicks) {
        PastTheCap(taker, limit, levels);
      } else {
        var exec := Min(size, levels[0].sizeBase);
        DepthNonNegative(taker, limit, levels[1..]);
        PlanFillsExactly(taker, limit, levels[1..], size - exec);
        assert Plan(taker, limit, levels, size)[1..] == Plan(taker, limit, levels[1..], size - exec);
      }
    }
  }

  /** Stopping early loses nothing: the plan is the uncapped plan over the filtered side. */
  lemma {:induction false} EarlyBreakIsFilter(taker: Side, limit: Option<int>, levels: seq<Order>, size: int)
    requires GoodSide(Opposite(taker), levels)
    ensures Plan(taker, limit, levels, size) == Plan(taker, None, WithinCap(taker, limit, levels), size)
  {
    if levels != [] && size > 0 {
      if Worse(taker, limit, levels[0].priceTicks) {
        PastTheCap(taker, limit, levels);
      } else {
        var exec := Min(size, levels[0].sizeBase);
        EarlyBreakIsFilter(taker, limit, levels[1..], size - exec);
        assert WithinCap(taker, limit, levels)[1..] == WithinCap(taker, limit, levels[1..]);
      }
    }
  }

  // ---------------------------------------------------------------------------
  // Optimality
  // ---------------------------------------------------------------------------

  /** Any way of taking base from the side, level by level. */
  predicate Allocation(levels: seq<Order>, alloc: seq<int>) {
    |alloc| == |levels| && forall i :: 0 <= i < |levels| ==> 0 <= alloc[i] <= levels[i].sizeBase
  }

  function Sum(xs: seq<int>): int {
    if xs == [] then 0 else xs[0] + Sum(xs[1..])
  }

  function AllocationCost(levels: seq<Order>, alloc: seq<int>): int
    requires |alloc| == |levels|
  {
    if levels == [] then 0 else levels[0].priceTicks * alloc[0] + AllocationCost(levels[1..], alloc[1..])
  }

  /** Cost with the sign that makes smaller better for the taker. */
  function KeyCost(side: Side, fills: seq<Fill>): int {
    if fills == [] then 0 else Key(side, fills[0].priceTicks) * fills[0].sizeBase + KeyCost(side, fills[1..])
  }

  function KeyAllocationCost(side: Side, levels: seq<Order>, alloc: seq<int>): int
    requires |alloc| == |levels|
  {
    if levels == [] then 0
    else Key(side, levels[0].priceTicks) * alloc[0] + KeyAllocationCost(side, levels[1..], alloc[1..])
  }

  lemma {:induction false} KeyCostIsSignedCost(side: Side, fills: seq<Fill>)
    ensures KeyCost(side, fills) == if side == SELL then Cost(fills) else -Cost(fills)
  {
    if fills != [] {
      KeyCostIsSignedCost(side, fills[1..]);
    }
  }

  lemma {:induction false} KeyAllocationIsSigned(side: Side, levels: seq<Order>, alloc: seq<int>)
    requires |alloc| == |levels|
    ensures KeyAllocationCost(side, levels, alloc)
         == if side == SELL then AllocationCost(levels, alloc) else -AllocationCost(levels, alloc)
  {
    if levels != [] {
      KeyAllocationIsSigned(side, levels[1..], alloc[1..]);
    }
  }

  lemma {:induction false} SumWithinDepth(taker: Side, levels: seq<Order>, alloc: seq<int>)
    requires Allocation(levels, alloc)
    ensures 0 <= Sum(alloc) <= Depth(taker, None, levels)
  {
    if levels != [] {
      SumWithinDepth(taker, levels[1..], alloc[1..]);
    }
  }

  /** Unfolds one level of the uncapped plan's cost. */
  lemma PlanCostStep(taker: Side, levels: seq<Order>, n: int)
    requires levels != [] && n >= 0 && levels[0].sizeBase > 0
    ensures KeyCost(Opposite(taker), Plan(taker, None, levels, n))
         == Key(Opposite(taker), levels[0].priceTicks) * Min(n, levels[0].sizeBase)
            + KeyCost(Opposite(taker), Plan(taker, None, levels[1..], n - Min(n, levels[0].sizeBase)))
  {
    var exec := Min(n, levels[0].sizeBase);
    if n > 0 {
      assert Plan(taker, None, levels, n)[1..] == Plan(taker, None, levels[1..], n - exec);
    }
  }

  lemma ShiftToHead(k: int, floor: int, more: int, fewer: int)
    requires floor <= k && fewer <= more
    ensures k * more - k * fewer >= floor * (more - fewer)
  {
    MulMono(floor, k, more - fewer);
    assert k * more - k * fewer == k * (more - fewer);
  }

  lemma Distribute(k: int, x: int, y: int)
    ensures k * x == k * y + k * (x - y)
  {
  }

  /** Each further unit the plan takes costs at least the best remaining key. */
  lemma {:induction false} MarginalCost(taker: Side, levels: seq<Order>, n: int, m: int, floor: int)
    requires GoodSide(Opposite(taker), levels)
    requires 0 <= n <= m <= Depth(taker, None, levels)
    requires forall x :: x in levels ==> floor <= Key(Opposite(taker), x.priceTicks)
    ensures KeyCost(Opposite(taker), Plan(taker, None, levels, m))
         >= KeyCost(Opposite(taker), Plan(taker, None, levels, n)) + floor * (m - n)
  {
    if levels != [] {
      var em, en := Min(m, levels[0].sizeBase), Min(n, levels[0].sizeBase);
      DepthNonNegative(taker, None, levels[1..]);
      MarginalCost(taker, levels[1..], n - en, m - em, floor);
      PlanCostStep(taker, levels, m);
      PlanCostStep(taker, levels, n);
      ShiftToHead(Key(Opposite(taker), levels[0].priceTicks), floor, em, en);
      Distribute(floor, m - n, em - en);
    }
  }

  /** Giving `y` units to a head of key `k` instead of `x` costs no less. */
  lemma HeadFirst(k: int, x: int, y: int, n: int, costX: int, costY: int)
    requires costY >= costX + k * ((n - y) - (n - x))
    ensures k * x + costX <= k * y + costY
  {
    Distribute(k, x, y);
    assert (n - y) - (n - x) == x - y;
  }

  lemma HeadIsBest(side: Side, levels: seq<Order>)
    requires GoodSide(side, levels) && levels != []
    ensures forall x :: x in levels[1..] ==> Key(side, levels[0].priceTicks) <= Key(side, x.priceTicks)
  {
    forall x | x in levels[1..] ensures Key(side, levels[0].priceTicks) <= Key(side, x.priceTicks) {
      assert InOrder(side, levels[0], x);
    }
  }

  /** Taking less from the head and planning the rest behind it is no better. */
  lemma PlanTakesHeadFirst(taker: Side, levels: seq<Order>, n: int, fromHead: int)
    requires GoodSide(Opposite(taker), levels) && levels != []
    requires 0 <= fromHead <= Min(n, levels[0].sizeBase) && n - fromHead <= Depth(taker, None, levels[1..])
    ensures KeyCost(Opposite(taker), Plan(taker, None, levels, n))
         <= Key(Opposite(taker), levels[0].priceTicks) * fromHead
            + KeyCost(Opposite(taker), Plan(taker, None, levels[1..], n - fromHead))
  {
    var k, exec := Key(Opposite(taker), levels[0].priceTicks), Min(n, levels[0].sizeBase);
    HeadIsBest(Opposite(taker), levels);
    MarginalCost(taker, levels[1..], n - exec, n - fromHead, k);
    PlanCostStep(taker, levels, n);
    HeadFirst(k, exec, fromHead, n, KeyCost(Opposite(taker), Plan(taker, None, levels[1..], n - exec)),
              KeyCost(Opposite(taker), Plan(taker, None, levels[1..], n - fromHead)));
  }

  lemma {:induction false} GreedyBeatsAllocation(taker: Side, levels: seq<Order>, alloc: seq<int>)
    requires GoodSide(Opposite(taker), levels) && Allocation(levels, alloc)
    ensures KeyCost(Opposite(taker), Plan(taker, None, levels, Sum(alloc)))
         <= KeyAllocationCost(Opposite(taker), levels, alloc)
  {
    if levels != [] {
      SumWithinDepth(taker, levels[1..], alloc[1..]);
      GreedyBeatsAllocation(taker, levels[1..], alloc[1..]);
      PlanTakesHeadFirst(taker, levels, Sum(alloc), alloc[0]);
    }
  }

  lemma PlanUnfoldsOnce(taker: Side, limit: Option<int>, levels: seq<Order>, size: int)
    requires levels != [] && size > 0 && !Worse(taker, limit, levels[0].priceTicks)
    ensures var exec := Min(size, levels[0].sizeBase);
            && Plan(taker, limit, levels, size) == [FillOf(levels[0], exec)] + Plan(taker, limit, levels[1..], size - exec)
            && Filled(Plan(taker, limit, levels, size)) == exec + Filled(Plan(taker, limit, levels[1..], size - exec))
  {
    var exec := Min(size, levels[0].sizeBase);
    assert Plan(taker, limit, levels, size)[1..] == Plan(taker, limit, levels[1..], size - exec);
  }

  /** A capped and an uncapped plan that agree behind the head agree. */
  lemma SameFromHead(taker: Side, limit: Option<int>, levels: seq<Order>, size: int, rest: int)
    requires levels != [] && size > 0 && !Worse(taker, limit, levels[0].priceTicks) && levels[0].sizeBase > 0
    requires 0 <= rest <= size - Min(size, levels[0].sizeBase)
    requires Plan(taker, limit, levels[1..], size - Min(size, levels[0].sizeBase)) == Plan(taker, None, levels[1..], rest)
    ensures Plan(taker, limit, levels, size) == Plan(taker, None, levels, Min(size, levels[0].sizeBase) + rest)
  {
    PlanUnfoldsOnce(taker, limit, levels, size);
    PlanUnfoldsOnce(taker, None, levels, Min(size, levels[0].sizeBase) + rest);
  }

  /** A capped plan is the uncapped plan for the amount it fills. */
  lemma {:induction false} PlanForItsAmount(taker: Side, limit: Option<int>, levels: seq<Order>, size: int)
    requires forall x :: x in levels ==> x.sizeBase > 0
    ensures Filled(Plan(taker, limit, levels, size)) >= 0
    ensures Plan(taker, limit, levels, size)
         == Plan(taker, None, levels, Filled(Plan(taker, limit, levels, size)))
  {
    if levels != [] && size > 0 && !Worse(taker, limit, levels[0].priceTicks) {
      var exec := Min(size, levels[0].sizeBase);
      var rest := Filled(Plan(taker, limit, levels[1..], size - exec));
      PlanForItsAmount(taker, limit, levels[1..], size - exec);
      PlanWithin(taker, limit, levels[1..], size - exec);
      PlanUnfoldsOnce(taker, limit, levels, size);
      SameFromHead(taker, limit, levels, size, rest);
    }
  }

  /** A plan never fills more than was asked for. */
  lemma {:induction false} PlanWithin(taker: Side, limit: Option<int>, levels: seq<Order>, size: int)
    requires forall x :: x in levels ==> x.sizeBase > 0
    ensures Filled(Plan(taker, limit, levels, size)) <= Max(size, 0)
  {
    if levels != [] && size > 0 && !Worse(taker, limit, levels[0].priceTicks) {
      PlanUnfoldsOnce(taker, limit, levels, size);
      PlanWithin(taker, limit, levels[1..], size - Min(size, levels[0].sizeBase));
    }
  }

  /** No other way of taking the same base from the side is better for the taker: a buyer
      never pays less, a seller never receives more, cap or no cap. */
  lemma PlanIsOptimal(taker: Side, limit: Option<int>, levels: seq<Order>, size: int, alloc: seq<int>)
    requires GoodSide(Opposite(taker), levels)
    requires Allocation(levels, alloc)
    requires Sum(alloc) == Filled(Plan(taker, limit, levels, size))
    ensures taker == BUY ==> Cost(Plan(taker, limit, levels, size)) <= AllocationCost(levels, alloc)
    ensures taker == SELL ==> Cost(Plan(taker, limit, levels, size)) >= AllocationCost(levels, alloc)
  {
    PlanForItsAmount(taker, limit, levels, size);
    GreedyBeatsAllocation(taker, levels, alloc);
    KeyCostIsSignedCost(Opposite(taker), Plan(taker, limit, levels, size));
    KeyAllocationIsSigned(Opposite(taker), levels, alloc);
  }

  // ---------------------------------------------------------------------------
  // Floored totals
  // ---------------------------------------------------------------------------

  /** Quote notional of one fill in raw quote units. */
  function Notional(priceTicks: int, priceTickQ: int, sizeBase: int, baseDecimals: nat): int {
    (priceTicks * priceTickQ * sizeBase) / Pow10(baseDecimals)
  }

  function FlooredNotional(fills: seq<Fill>, priceTickQ: int, baseDecimals: nat): int {
    if fills == [] then 0
    else Notional(fills[0].priceTicks, priceTickQ, fills[0].sizeBase, baseDecimals)
         + FlooredNotional(fills[1..], priceTickQ, baseDecimals)
  }

  /** Flooring each fill loses less than one quote unit per fill. */
  lemma {:induction false} FlooredWithinFillCount(fills: seq<Fill>, priceTickQ: int, baseDecimals: nat)
    ensures var lost := Cost(fills) * priceTickQ - FlooredNotional(fills, priceTickQ, baseDecimals) * Pow10(baseDecimals);
            0 <= lost <= |fills| * (Pow10(baseDecimals) - 1)
  {
    if fills != [] {
      var f := fills[0];
      FlooredWithinFillCount(fills[1..], priceTickQ, baseDecimals);
      FloorLoss(f.priceTicks, priceTickQ, f.sizeBase, Pow10(baseDecimals));
      AddLoss(f.priceTicks * f.sizeBase, Cost(fills[1..]), priceTickQ,
              Notional(f.priceTicks, priceTickQ, f.sizeBase, baseDecimals),
              FlooredNotional(fills[1..], priceTickQ, baseDecimals), Pow10(baseDecimals), |fills[1..]|);
    }
  }

  lemma FloorLoss(p: int, t: int, x: int, d: int)
    requires d > 0
    ensures 0 <= (p * x) * t - ((p * t * x) / d) * d <= d - 1
  {
    DivBounds(p * t * x, d);
    assert (p * x) * t == p * t * x;
  }

  lemma AddLoss(a: int, b: int, t: int, qa: int, qb: int, d: int, n: int)
    requires 0 <= a * t - qa * d <= d - 1 && 0 <= b * t - qb * d <= n * (d - 1)
    ensures 0 <= (a + b) * t - (qa + qb) * d <= (n + 1) * (d - 1)
  {
  }

  // ---------------------------------------------------------------------------
  // Quote totals
  // ---------------------------------------------------------------------------

  datatype Quote = Quote(requestedBase: int, remainingBase: int, takerAmount: int, takerFeeAmount: int,
                         takerTotalAmount: int, fills: seq<Fill>)

  /** Fee of one fill: the attached order's own fee pro rata, else the configured policy. */
  function FeePart(taker: Side, f: Fill, notionalQ: int, feeBps: nat): int {
    if f.raw.Some? && f.raw.value.takerFee.Some? then
      if f.raw.value.makerAmount > 0 then (f.raw.value.takerFee.value * f.sizeBase) / f.raw.value.makerAmount else 0
    else if feeBps > 0 then ((if taker == BUY then notionalQ else f.sizeBase) * feeBps) / 10000
    else 0
  }

  function FeeTotal(taker: Side, fills: seq<Fill>, priceTickQ: int, baseDecimals: nat, feeBps: nat): int {
    if fills == [] then 0
    else FeePart(taker, fills[0], Notional(fills[0].priceTicks, priceTickQ, fills[0].sizeBase, baseDecimals), feeBps)
         + FeeTotal(taker, fills[1..], priceTickQ, baseDecimals, feeBps)
  }

  function QuoteOf(taker: Side, limit: Option<int>, levels: seq<Order>, size: int,
                   priceTickQ: int, baseDecimals: nat, feeBps: nat): Quote
  {
    var fills := Plan(taker, limit, levels, size);
    var total := FlooredNotional(fills, priceTickQ, baseDecimals);
    var fee := FeeTotal(taker, fills, priceTickQ, baseDecimals, feeBps);
    Quote(size, size - Filled(fills), total, fee, total + fee, fills)
  }

  /** The running totals of a plan grow by the fill just added. */
  lemma {:induction false} TotalsAppend(fills: seq<Fill>, f: Fill, taker: Side, tickQ: int, decimals: nat, feeBps: nat)
    ensures Filled(fills + [f]) == Filled(fills) + f.sizeBase
    ensures FlooredNotional(fills + [f], tickQ, decimals)
         == FlooredNotional(fills, tickQ, decimals) + Notional(f.priceTicks, tickQ, f.sizeBase, decimals)
    ensures FeeTotal(taker, fills + [f], tickQ, decimals, feeBps)
         == FeeTotal(taker, fills, tickQ, decimals, feeBps)
            + FeePart(taker, f, Notional(f.priceTicks, tickQ, f.sizeBase, decimals), feeBps)
  {
    if fills != [] {
      TotalsAppend(fills[1..], f, taker, tickQ, decimals, feeBps);
      assert (fills + [f])[1..] == fills[1..] + [f];
    }
  }

  // ---------------------------------------------------------------------------
  // What a market order leaves behind
  // ---------------------------------------------------------------------------

  /** The side after an unlimited sweep of `size`. */
  function Residue(levels: seq<Order>, size: int): seq<Order> {
    if levels == [] || size <= 0 then levels
    else if size < levels[0].sizeBase then [levels[0].(sizeBase := levels[0].sizeBase - size)] + levels[1..]
    else Residue(levels[1..], size - levels[0].sizeBase)
  }

  function SizeOf(levels: seq<Order>, id: Hash): int {
    if levels == [] then 0 else (if levels[0].id == id then levels[0].sizeBase else 0) + SizeOf(levels[1..], id)
  }

  function FilledOf(fills: seq<Fill>, id: Hash): int {
    if fills == [] then 0
    else (if fills[0].makerOrderHash == id then fills[0].sizeBase else 0) + FilledOf(fills[1..], id)
  }

  /** Order by order, what is left plus what the uncapped quote filled is what was there. */
  lemma {:induction false} ResidueConserves(taker: Side, levels: seq<Order>, size: int, id: Hash)
    ensures SizeOf(Residue(levels, size), id) + FilledOf(Plan(taker, None, levels, size), id) == SizeOf(levels, id)
  {
    if levels != [] && size > 0 {
      var exec := Min(size, levels[0].sizeBase);
      assert Plan(taker, None, levels, size)[1..] == Plan(taker, None, levels[1..], size - exec);
      if size < levels[0].sizeBase {
        assert Residue(levels, size)[1..] == levels[1..];
        assert Plan(taker, None, levels[1..], 0) == [];
      } else {
        ResidueConserves(taker, levels[1..], size - levels[0].sizeBase, id);
      }
    }
  }

  lemma {:induction false} ResidueGood(side: Side, levels: seq<Order>, size: int)
    requires GoodSide(side, levels)
    ensures GoodSide(side, Residue(levels, size))
    ensures forall x :: x in Residue(levels, size) ==> exists y :: y in levels && x == y.(sizeBase := x.sizeBase)
  {
    if levels != [] && size > 0 {
      if size < levels[0].sizeBase {
        var r := Residue(levels, size);
        assert r[1..] == levels[1..];
        forall x | x in r ensures exists y :: y in levels && x == y.(sizeBase := x.sizeBase) {
          if x == r[0] {
            assert x == levels[0].(sizeBase := x.sizeBase);
          } else {
            assert x in levels && x == x.(sizeBase := x.sizeBase);
          }
        }
      } else {
        ResidueGood(side, levels[1..], size - levels[0].sizeBase);
      }
    } else {
      forall x | x in levels ensures exists y :: y in levels && x == y.(sizeBase := x.sizeBase) {
        assert x == x.(sizeBase := x.sizeBase);
      }
    }
  }
}
