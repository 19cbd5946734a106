/** The integer conversions that join quotes, calldata, signatures and rows. */
module Amounts {
  import opened Arith
  import opened Sweep

  // ---------------------------------------------------------------------------
  // Quote size -> calldata amount -> reconciled size
  // ---------------------------------------------------------------------------

  /** Taker amount put in calldata for `fillBase` of an order that sells `makerAmount` base for
      `takerAmount` quote. */
  function TakerFillAmount(fillBase: nat, makerAmount: nat, takerAmount: nat): nat {
    (fillBase * takerAmount) / (if makerAmount == 0 then 1 else makerAmount)
  }

  /** Base the watcher reconciles for a taker amount. */
  function ExecBase(takerFill: nat, makerAmount: nat, takerAmount: nat): nat
    requires takerAmount > 0
  {
    (takerFill * makerAmount) / takerAmount
  }

  lemma CancelFactor(a: int, b: int, c: int)
    requires c > 0 && a * c <= b * c
    ensures a <= b
  {
    if b < a {
      MulMono(b + 1, a, c);
      AddParts(b, 1, c);
    }
  }

  lemma AddParts(a: int, b: int, c: int)
    ensures (a + b) * c == a * c + b * c
  {
  }

  /** What is lost between a size, its calldata amount and the reconciled size. */
  lemma LostBetween(f: int, t: int, e: int, makerAmount: int, takerAmount: int)
    requires takerAmount > 0
    requires t * makerAmount <= f * takerAmount < t * makerAmount + makerAmount
    requires e * takerAmount <= t * makerAmount < e * takerAmount + takerAmount
    ensures e <= f && (f - e) * takerAmount < makerAmount + takerAmount
  {
    CancelFactor(e, f, takerAmount);
    AddParts(f - e, e, takerAmount);
  }

  lemma WholeOrderIsExact(makerAmount: nat, takerAmount: nat)
    requires 0 < makerAmount && 0 < takerAmount
    ensures ExecBase(TakerFillAmount(makerAmount, makerAmount, takerAmount), makerAmount, takerAmount) == makerAmount
  {
    DivUnique(makerAmount * takerAmount, makerAmount, takerAmount);
    DivUnique(takerAmount * makerAmount, takerAmount, makerAmount);
  }

  /** Quoting and reconciling never over-fills, loses less than one unit of each token, and is
      exact for a whole order. */
  lemma QuoteToWatcherRoundTrip(fillBase: nat, makerAmount: nat, takerAmount: nat)
    requires 0 < makerAmount && 0 < takerAmount && fillBase <= makerAmount
    ensures var e := ExecBase(TakerFillAmount(fillBase, makerAmount, takerAmount), makerAmount, takerAmount);
            && e <= fillBase
            && (fillBase - e) * takerAmount < makerAmount + takerAmount
            && (fillBase == makerAmount ==> e == fillBase)
  {
    var t := TakerFillAmount(fillBase, makerAmount, takerAmount);
    DivBounds(fillBase * takerAmount, makerAmount);
    DivBounds(t * makerAmount, takerAmount);
    LostBetween(fillBase, t, ExecBase(t, makerAmount, takerAmount), makerAmount, takerAmount);
    WholeOrderIsExact(makerAmount, takerAmount);
  }

  function SumNat(ts: seq<nat>): nat {
    if ts == [] then 0 else ts[0] + SumNat(ts[1..])
  }

  function SumExec(ts: seq<nat>, makerAmount: nat, takerAmount: nat): nat
    requires takerAmount > 0
  {
    if ts == [] then 0 else ExecBase(ts[0], makerAmount, takerAmount) + SumExec(ts[1..], makerAmount, takerAmount)
  }

  lemma {:induction false} PartialFillsLose(ts: seq<nat>, makerAmount: nat, takerAmount: nat)
    requires takerAmount > 0
    ensures SumExec(ts, makerAmount, takerAmount) * takerAmount <= SumNat(ts) * makerAmount
    ensures SumNat(ts) * makerAmount <= SumExec(ts, makerAmount, takerAmount) * takerAmount + |ts| * (takerAmount - 1)
  {
    if ts != [] {
      PartialFillsLose(ts[1..], makerAmount, takerAmount);
      DivBounds(ts[0] * makerAmount, takerAmount);
      AddParts(ts[0], SumNat(ts[1..]), makerAmount);
      AddParts(ExecBase(ts[0], makerAmount, takerAmount), SumExec(ts[1..], makerAmount, takerAmount), takerAmount);
      AddParts(1, |ts| - 1, takerAmount - 1);
    }
  }

  lemma DustBound(dust: int, takerAmount: int, n: int)
    requires takerAmount > 0 && 0 <= dust * takerAmount <= n * (takerAmount - 1) && n > 0
    ensures 0 <= dust <= n - 1
  {
    if dust < 0 {
      MulMono(dust, -1, takerAmount);
      assert false;
    } else if dust >= n {
      MulMono(n, dust, takerAmount);
      assert false;
    }
  }

  lemma DustOf(executed: int, makerAmount: int, takerAmount: int, n: int)
    requires takerAmount > 0 && n > 0
    requires executed * takerAmount <= takerAmount * makerAmount <= executed * takerAmount + n * (takerAmount - 1)
    ensures 0 <= makerAmount - executed <= n - 1
  {
    AddParts(makerAmount - executed, executed, takerAmount);
    DustBound(makerAmount - executed, takerAmount, n);
  }

  /** Partial fills that use up the whole taker amount leave less than one base unit of dust
      per fill beyond the last. */
  lemma PartialFillsDust(ts: seq<nat>, makerAmount: nat, takerAmount: nat)
    requires takerAmount > 0 && SumNat(ts) == takerAmount
    ensures 0 <= makerAmount - SumExec(ts, makerAmount, takerAmount) <= |ts| - 1
  {
    PartialFillsLose(ts, makerAmount, takerAmount);
    DustOf(SumExec(ts, makerAmount, takerAmount), makerAmount, takerAmount, |ts|);
  }

  // ---------------------------------------------------------------------------
  // Notional gates
  // ---------------------------------------------------------------------------

  /** Cross-multiplied comparison with the minimum notional: -1, 0 or 1. */
  function CompareNotionalToMin(priceTicks: nat, priceTickQ: nat, sizeBase: nat, baseDecimals: nat, minNotionalQ: nat): int {
    var lhs, rhs := priceTicks * priceTickQ * sizeBase, minNotionalQ * Pow10(baseDecimals);
    if lhs < rhs then -1 else if lhs > rhs then 1 else 0
  }

  function MinSizeForNotional(priceTicks: nat, priceTickQ: nat, baseDecimals: nat, minNotionalQ: nat): nat {
    var denom := priceTicks * priceTickQ;
    if denom <= 0 then 0 else (minNotionalQ * Pow10(baseDecimals) + denom - 1) / denom
  }

  /** The gate without division and the floored gate accept the same orders. */
  lemma GatesAgree(priceTicks: nat, priceTickQ: nat, sizeBase: nat, baseDecimals: nat, minNotionalQ: nat)
    ensures CompareNotionalToMin(priceTicks, priceTickQ, sizeBase, baseDecimals, minNotionalQ) >= 0
       <==> Notional(priceTicks, priceTickQ, sizeBase, baseDecimals) >= minNotionalQ
  {
    FloorGate(priceTicks * priceTickQ * sizeBase, Pow10(baseDecimals), minNotionalQ);
  }

  /** A size reaches the minimum notional exactly when it is at least the suggested one. */
  lemma MinSizeIsLeastAccepted(priceTicks: nat, priceTickQ: nat, sizeBase: nat, baseDecimals: nat, minNotionalQ: nat)
    requires priceTicks * priceTickQ > 0
    ensures CompareNotionalToMin(priceTicks, priceTickQ, sizeBase, baseDecimals, minNotionalQ) >= 0
       <==> sizeBase >= MinSizeForNotional(priceTicks, priceTickQ, baseDecimals, minNotionalQ)
  {
    var denom, need := priceTicks * priceTickQ, minNotionalQ * Pow10(baseDecimals);
    var least := MinSizeForNotional(priceTicks, priceTickQ, baseDecimals, minNotionalQ);
    DivBounds(need + denom - 1, denom);
    if sizeBase >= least {
      MulMono(least, sizeBase, denom);
    } else {
      MulMono(sizeBase, least - 1, denom);
      assert (least - 1) * denom == least * denom - denom;
    }
  }
}
