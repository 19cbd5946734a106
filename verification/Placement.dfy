/** From a signed 0x order to a resting level: what the front end signs, what placement derives
    from it, and what the fire-time validator already guarantees.
    Models apps/api/src/matching/orders-placement.service.ts, the amounts in
    apps/web/src/hooks/useOrderSigning.ts and validateAtFire in
    apps/api/src/sea/intent-validator.service.ts. */
module Placement {
  import opened Prelude
  import opened Arith
  import opened Levels
  import opened Sweep
  import opened Desk

  datatype ZxOrder = ZxOrder(makerToken: Address, takerToken: Address, makerAmount: nat, takerAmount: nat,
                             takerTokenFeeAmount: Option<nat>, maker: Address, feeRecipient: Address,
                             expiry: nat, salt: nat)

  /** Side, size and price read off the amounts. */
  datatype Terms = Terms(side: Side, sizeBase: nat, priceTicks: nat)

  // ---------------------------------------------------------------------------
  // Market and terms
  // ---------------------------------------------------------------------------

  /** The pair trades in this market, in either orientation. */
  predicate PairOf(r: Rules, makerToken: Address, takerToken: Address) {
    (r.baseAddress == makerToken && r.quoteAddress == takerToken) ||
    (r.baseAddress == takerToken && r.quoteAddress == makerToken)
  }

  /** The first listed market of the pair. */
  function FindMarket(markets: map<Symbol, Rules>, listing: seq<Symbol>, makerToken: Address, takerToken: Address)
    : (r: Option<Symbol>)
    ensures r.Some? ==> r.value in listing && r.value in markets && PairOf(markets[r.value], makerToken, takerToken)
    ensures r.None? ==> forall s :: s in listing && s in markets ==> !PairOf(markets[s], makerToken, takerToken)
  {
    if listing == [] then None
    else if listing[0] in markets && PairOf(markets[listing[0]], makerToken, takerToken) then Some(listing[0])
    else FindMarket(markets, listing[1..], makerToken, takerToken)
  }

  function TicksFrom(quoteAmt: nat, baseAmt: nat, r: Rules): Outcome<nat> {
    var num, den := quoteAmt * Pow10(r.baseDecimals), baseAmt * r.priceTickQ;
    if den == 0 then Fail("division_by_zero")
    else if num % den != 0 then Fail("price_tick_violation")
    else Ok(num / den)
  }

  function Derive(r: Rules, o: ZxOrder): Outcome<Terms> {
    var sell := r.baseAddress == o.makerToken && r.quoteAddress == o.takerToken;
    var base, quote := if sell then o.makerAmount else o.takerAmount, if sell then o.takerAmount else o.makerAmount;
    match TicksFrom(quote, base, r)
    case Fail(code) => Fail(code)
    case Ok(ticks) => Ok(Terms(if sell then SELL else BUY, base, ticks))
  }

  /** A price is accepted exactly when it makes the quote amount, unrounded, from the base amount. */
  lemma TicksFromIff(quoteAmt: nat, baseAmt: nat, r: Rules, ticks: nat)
    requires baseAmt * r.priceTickQ > 0
    ensures TicksFrom(quoteAmt, baseAmt, r) == Ok(ticks)
       <==> ticks * (baseAmt * r.priceTickQ) == quoteAmt * Pow10(r.baseDecimals)
  {
    var num, den := quoteAmt * Pow10(r.baseDecimals), baseAmt * r.priceTickQ;
    ExactQuotient(num, den, ticks);
  }

  lemma ExactQuotient(num: nat, den: nat, q: nat)
    requires den > 0
    ensures (num % den == 0 && num / den == q) <==> q * den == num
  {
    DivBounds(num, den);
    assert num == (num / den) * den + num % den;
    if q * den == num {
      DivUnique(num, den, q);
    }
  }

  /** An accepted order is worth its quote amount to the unit. */
  lemma AcceptedNotionalIsSignedAmount(r: Rules, o: ZxOrder)
    requires Derive(r, o).Ok?
    ensures var t := Derive(r, o).value;
            Notional(t.priceTicks, r.priceTickQ, t.sizeBase, r.baseDecimals)
              == if t.side == SELL then o.takerAmount else o.makerAmount
  {
    var t := Derive(r, o).value;
    var quote := if t.side == SELL then o.takerAmount else o.makerAmount;
    var d := Pow10(r.baseDecimals);
    TicksFromIff(quote, t.sizeBase, r, t.priceTicks);
    Regroup(t.priceTicks, r.priceTickQ, t.sizeBase);
    DivUnique(quote * d, d, quote);
  }

  lemma Regroup(a: int, b: int, c: int)
    ensures a * b * c == a * (c * b)
  {
  }

  // ---------------------------------------------------------------------------
  // What the front end signs
  // ---------------------------------------------------------------------------

  function FloorDiv(a: nat, d: nat): nat
    requires d > 0
  {
    a / d
  }

  /** Maker and taker tokens and amounts for a size and a scaled price. */
  function ComputeAmounts(side: Side, r: Rules, baseWei: nat, priceScaled: nat): (Address, Address, nat, nat) {
    var quoteWei := FloorDiv(baseWei * priceScaled, Pow10(r.baseDecimals));
    if side == SELL then (r.baseAddress, r.quoteAddress, baseWei, quoteWei)
    else (r.quoteAddress, r.baseAddress, quoteWei, baseWei)
  }

  predicate SignedBy(o: ZxOrder, side: Side, r: Rules, baseWei: nat, priceScaled: nat) {
    (o.makerToken, o.takerToken, o.makerAmount, o.takerAmount) == ComputeAmounts(side, r, baseWei, priceScaled)
  }

  function Lost(r: Rules, baseWei: nat, ticks: nat): nat {
    (baseWei * r.priceTickQ * ticks) % Pow10(r.baseDecimals)
  }

  /** What becomes of a tick-aligned price: recovered when nothing was floored away, booked lower
      when the loss is a whole number of ticks for that size, rejected otherwise. */
  function BookedTicks(r: Rules, baseWei: nat, ticks: nat): Outcome<int>
    requires baseWei * r.priceTickQ > 0
  {
    var perTick := baseWei * r.priceTickQ;
    if Lost(r, baseWei, ticks) % perTick == 0 then Ok(ticks - Lost(r, baseWei, ticks) / perTick)
    else Fail("price_tick_violation")
  }

  lemma TakeMultiple(n: nat, lost: nat, ticks: nat, perTick: nat)
    requires perTick > 0 && n == perTick * ticks && lost <= n
    ensures (n - lost) % perTick == 0 <==> lost % perTick == 0
    ensures lost % perTick == 0 ==> (n - lost) / perTick == ticks - lost / perTick
  {
    DivBounds(lost, perTick);
    DivBounds(n - lost, perTick);
    assert lost == (lost / perTick) * perTick + lost % perTick;
    assert n - lost == ((n - lost) / perTick) * perTick + (n - lost) % perTick;
    if lost % perTick == 0 {
      WholeTicks(ticks, lost / perTick, perTick);
      DivUnique(n - lost, perTick, ticks - lost / perTick);
    }
    if (n - lost) % perTick == 0 {
      WholeTicks(ticks, (n - lost) / perTick, perTick);
      DivUnique(lost, perTick, ticks - (n - lost) / perTick);
    }
  }

  lemma WholeTicks(ticks: int, part: int, perTick: int)
    ensures (ticks - part) * perTick == perTick * ticks - part * perTick
  {
  }

  /** Placement's verdict on every tick-aligned signed price. */
  lemma SignedPriceIsBookedAt(r: Rules, side: Side, baseWei: nat, ticks: nat, o: ZxOrder)
    requires r.baseAddress != r.quoteAddress && baseWei * r.priceTickQ > 0
    requires SignedBy(o, side, r, baseWei, ticks * r.priceTickQ)
    ensures match BookedTicks(r, baseWei, ticks)
            case Fail(code) => Derive(r, o) == Fail(code)
            case Ok(booked) => booked >= 0 && Derive(r, o) == Ok(Terms(side, baseWei, booked))
  {
    var d, perTick := Pow10(r.baseDecimals), baseWei * r.priceTickQ;
    var n := perTick * ticks;
    Regroup(baseWei, r.priceTickQ, ticks);
    assert baseWei * (ticks * r.priceTickQ) == n;
    var quoteWei := n / d;
    assert n == quoteWei * d + n % d;
    TakeMultiple(n, n % d, ticks, perTick);
  }

  /** A price is silently booked at another tick. */
  predicate Misbooked(r: Rules, baseWei: nat, ticks: nat)
    requires baseWei * r.priceTickQ > 0
  {
    BookedTicks(r, baseWei, ticks).Ok? && BookedTicks(r, baseWei, ticks).value != ticks
  }

  lemma SmallRemainder(lost: nat, perTick: nat)
    requires perTick > 0 && lost < perTick
    ensures lost % perTick == lost && lost / perTick == 0
  {
    DivUnique(lost, perTick, 0);
  }

  /** No price of this size can be misbooked exactly when one tick of it is worth at least one
      quote unit. */
  lemma NeverMisbookedIff(r: Rules, baseWei: nat)
    requires baseWei * r.priceTickQ > 0
    ensures (forall ticks: nat :: !Misbooked(r, baseWei, ticks)) <==> baseWei * r.priceTickQ >= Pow10(r.baseDecimals)
  {
    var d, perTick := Pow10(r.baseDecimals), baseWei * r.priceTickQ;
    if perTick >= d {
      forall ticks: nat ensures !Misbooked(r, baseWei, ticks) {
        SmallRemainder(Lost(r, baseWei, ticks), perTick);
      }
    } else {
      var ticks := d + 1;
      assert perTick * ticks == perTick * d + perTick;
      DivUnique(perTick * ticks, d, perTick);
      assert Lost(r, baseWei, ticks) == perTick;
      DivUnique(perTick, perTick, 1);
      assert Misbooked(r, baseWei, ticks);
    }
  }

  /** A concrete loss: one base unit at 13 ticks, with one decimal, rests at 10. */
  lemma ThirteenIsBookedAtTen()
    ensures exists r, o: ZxOrder :: SignedBy(o, SELL, r, 1, 13) && Derive(r, o) == Ok(Terms(SELL, 1, 10))
  {
    var r := Rules(1, 0, 0, 1, "b", "q");
    assert Pow10(1) == 10 * Pow10(0);
    var o := ZxOrder("b", "q", 1, 1, None, "", "", 0, 0);
    assert SignedBy(o, SELL, r, 1, 13);
    TicksFromIff(1, 1, r, 10);
  }

  // ---------------------------------------------------------------------------
  // Fire-time validation
  // ---------------------------------------------------------------------------

  datatype FireIssue = MinSize | MinNotional | InvalidSignature | SignerMismatch | HashUncomputable | HashMismatch
                     | MakerMismatch | PairMismatch | PriceUncomputable | PriceTick | SizeMismatch | PriceMismatch
                     | ExpiryTooClose | AlreadyExists | FloorAboveSalt

  datatype Firing = Firing(owner: Address, side: Side, sizeBase: int, limitTicks: int, order: ZxOrder,
                           declaredHash: Hash, expiresAtMs: int)

  /** What the collaborators answer: signature recovery, hashing, order lookup, cancel floor. */
  datatype World = World(recovered: Option<Address>, hash: Option<Hash>, known: set<Hash>, floor: Option<nat>,
                         graceSecs: nat, devSkip: bool)

  function LookupHash(f: Firing, w: World): Hash {
    if !w.devSkip && w.hash.Some? then w.hash.value else f.declaredHash
  }

  function BaseAmount(f: Firing): nat {
    if f.side == SELL then f.order.makerAmount else f.order.takerAmount
  }

  function QuoteAmount(f: Firing): nat {
    if f.side == SELL then f.order.takerAmount else f.order.makerAmount
  }

  /** The stored order was signed by the owner and is the one whose hash was stored. */
  predicate Authentic(f: Firing, w: World) {
    (w.devSkip || (w.recovered == Some(f.owner) && w.hash == Some(f.declaredHash))) && f.order.maker == f.owner
  }

  /** The order gives and takes the market's tokens the way its side does. */
  predicate Oriented(f: Firing, r: Rules) {
    && f.order.makerToken == (if f.side == SELL then r.baseAddress else r.quoteAddress)
    && f.order.takerToken == (if f.side == SELL then r.quoteAddress else r.baseAddress)
  }

  /** The order offers exactly the intent's size at exactly the intent's price. */
  predicate Matches(f: Firing, r: Rules) {
    && Oriented(f, r)
    && BaseAmount(f) == f.sizeBase
    && BaseAmount(f) * r.priceTickQ > 0
    && f.limitTicks * (BaseAmount(f) * r.priceTickQ) == QuoteAmount(f) * Pow10(r.baseDecimals)
  }

  /** Size and notional meet the market's minimums; the notional is compared without division. */
  predicate LargeEnough(f: Firing, r: Rules) {
    && f.sizeBase >= r.minSizeB
    && f.limitTicks * r.priceTickQ * f.sizeBase >= r.minNotionalQ * Pow10(r.baseDecimals)
  }

  predicate Usable(f: Firing, w: World) {
    && f.order.expiry * 1000 >= f.expiresAtMs + w.graceSecs * 1000
    && LookupHash(f, w) !in w.known
    && (w.floor.None? || f.order.salt >= w.floor.value)
  }

  predicate FirePasses(f: Firing, r: Rules, w: World) {
    LargeEnough(f, r) && Authentic(f, w) && Matches(f, r) && Usable(f, w)
  }

  /** What is wrong with the signature or the stored hash, first things first. */
  function SignatureIssue(f: Firing, w: World): Option<FireIssue> {
    if w.devSkip then None
    else if w.recovered.None? then Some(InvalidSignature)
    else if w.recovered.value != f.owner then Some(SignerMismatch)
    else if w.hash.None? then Some(HashUncomputable)
    else if w.hash.value != f.declaredHash then Some(HashMismatch)
    else None
  }

  function PriceIssue(f: Firing, r: Rules): Option<FireIssue> {
    var num, den := QuoteAmount(f) * Pow10(r.baseDecimals), BaseAmount(f) * r.priceTickQ;
    if den == 0 then Some(PriceUncomputable)
    else if num % den != 0 then Some(PriceTick)
    else if BaseAmount(f) != f.sizeBase then Some(SizeMismatch)
    else if num / den != f.limitTicks then Some(PriceMismatch)
    else None
  }

  function UseIssue(f: Firing, w: World): Option<FireIssue> {
    if f.order.expiry * 1000 < f.expiresAtMs + w.graceSecs * 1000 then Some(ExpiryTooClose)
    else if LookupHash(f, w) in w.known then Some(AlreadyExists)
    else if w.floor.Some? && f.order.salt < w.floor.value then Some(FloorAboveSalt)
    else None
  }

  function SizeIssue(f: Firing, r: Rules): Option<FireIssue> {
    if f.sizeBase < r.minSizeB then Some(MinSize)
    else if f.limitTicks * r.priceTickQ * f.sizeBase < r.minNotionalQ * Pow10(r.baseDecimals) then Some(MinNotional)
    else None
  }

  function PartyIssue(f: Firing, r: Rules): Option<FireIssue> {
    if f.order.maker != f.owner then Some(MakerMismatch) else if !Oriented(f, r) then Some(PairMismatch) else None
  }

  /** The issue a refused firing is reported with: the first the code comes to. */
  function FirstIssue(f: Firing, r: Rules, w: World): Option<FireIssue> {
    if SizeIssue(f, r).Some? then SizeIssue(f, r)
    else if SignatureIssue(f, w).Some? then SignatureIssue(f, w)
    else if PartyIssue(f, r).Some? then PartyIssue(f, r)
    else if PriceIssue(f, r).Some? then PriceIssue(f, r)
    else UseIssue(f, w)
  }

  /** A list of issues that begins with `first`, or is empty when there is none. */
  predicate StartsWith(issues: seq<FireIssue>, first: Option<FireIssue>) {
    if first.None? then issues == [] else issues != [] && issues[0] == first.value
  }

  method CheckSignature(f: Firing, w: World) returns (issues: seq<FireIssue>)
    ensures StartsWith(issues, SignatureIssue(f, w))
    ensures issues == [] <==> w.devSkip || (w.recovered == Some(f.owner) && w.hash == Some(f.declaredHash))
    ensures forall i :: i in issues ==>
              i in {InvalidSignature, SignerMismatch, HashUncomputable, HashMismatch}
  {
    issues := [];
    if !w.devSkip {
      if w.recovered.None? {
        issues := issues + [InvalidSignature];
      } else if w.recovered.value != f.owner {
        issues := issues + [SignerMismatch];
      }
      if w.hash.None? {
        issues := issues + [HashUncomputable];
      } else if w.hash.value != f.declaredHash {
        issues := issues + [HashMismatch];
      }
    }
  }

  method CheckPrice(f: Firing, r: Rules) returns (issues: seq<FireIssue>)
    ensures StartsWith(issues, PriceIssue(f, r))
    ensures issues == [] <==>
              && BaseAmount(f) == f.sizeBase && BaseAmount(f) * r.priceTickQ > 0
              && f.limitTicks * (BaseAmount(f) * r.priceTickQ) == QuoteAmount(f) * Pow10(r.baseDecimals)
    ensures PriceTick in issues <==>
              BaseAmount(f) * r.priceTickQ > 0 && TicksFrom(QuoteAmount(f), BaseAmount(f), r).Fail?
    ensures forall i :: i in issues ==> i in {PriceUncomputable, PriceTick, SizeMismatch, PriceMismatch}
  {
    issues := [];
    var num, den := QuoteAmount(f) * Pow10(r.baseDecimals), BaseAmount(f) * r.priceTickQ;
    var derived := None;
    if den == 0 {
      issues := [PriceUncomputable];
    } else if num % den != 0 {
      issues := [PriceTick];
      if f.limitTicks >= 0 {
        TicksFromIff(QuoteAmount(f), BaseAmount(f), r, f.limitTicks);
      } else {
        MulMono(f.limitTicks, -1, den);
      }
    } else {
      derived := Some(num / den);
      assert num == (num / den) * den;
      if f.limitTicks * den == num {
        DivUnique(num, den, f.limitTicks);
      }
    }
    if BaseAmount(f) != f.sizeBase {
      issues := issues + [SizeMismatch];
    }
    if derived.Some? && derived.value != f.limitTicks {
      issues := issues + [PriceMismatch];
    }
  }

  lemma Joined(a: seq<FireIssue>, b: seq<FireIssue>, x: Option<FireIssue>, y: Option<FireIssue>)
    requires StartsWith(a, x) && StartsWith(b, y)
    ensures StartsWith(a + b, if x.Some? then x else y)
  {
  }

  /** Collects every issue; there is none exactly when the intent may fire. */
  method ValidateAtFire(f: Firing, r: Rules, w: World) returns (issues: seq<FireIssue>)
    ensures issues == [] <==> FirePasses(f, r, w)
    ensures StartsWith(issues, FirstIssue(f, r, w))
    ensures FloorAboveSalt in issues <==> w.floor.Some? && f.order.salt < w.floor.value
    ensures AlreadyExists in issues <==> LookupHash(f, w) in w.known
  {
    issues := CheckSizes(f, r);
    ghost var first := SizeIssue(f, r);
    var unsigned := CheckSignature(f, w);
    Joined(issues, unsigned, first, SignatureIssue(f, w));
    issues, first := issues + unsigned, if first.Some? then first else SignatureIssue(f, w);
    var mismatched := CheckParties(f, r);
    Joined(issues, mismatched, first, PartyIssue(f, r));
    issues, first := issues + mismatched, if first.Some? then first else PartyIssue(f, r);
    assert issues == [] <==> LargeEnough(f, r) && Authentic(f, w) && Oriented(f, r);
    var mispriced := CheckPrice(f, r);
    Joined(issues, mispriced, first, PriceIssue(f, r));
    issues, first := issues + mispriced, if first.Some? then first else PriceIssue(f, r);
    assert AlreadyExists !in issues && FloorAboveSalt !in issues;
    var late := CheckUse(f, w);
    Joined(issues, late, first, UseIssue(f, w));
    issues := issues + late;
  }

  method CheckSizes(f: Firing, r: Rules) returns (issues: seq<FireIssue>)
    ensures StartsWith(issues, SizeIssue(f, r)) && (issues == [] <==> LargeEnough(f, r))
    ensures forall i :: i in issues ==> i in {MinSize, MinNotional}
  {
    issues := [];
    if f.sizeBase < r.minSizeB {
      issues := issues + [MinSize];
    }
    if f.limitTicks * r.priceTickQ * f.sizeBase < r.minNotionalQ * Pow10(r.baseDecimals) {
      issues := issues + [MinNotional];
    }
  }

  method CheckParties(f: Firing, r: Rules) returns (issues: seq<FireIssue>)
    ensures StartsWith(issues, PartyIssue(f, r)) && (issues == [] <==> f.order.maker == f.owner && Oriented(f, r))
    ensures forall i :: i in issues ==> i in {MakerMismatch, PairMismatch}
  {
    issues := [];
    if f.order.maker != f.owner {
      issues := issues + [MakerMismatch];
    }
    var expectedMaker := if f.side == SELL then r.baseAddress else r.quoteAddress;
    var expectedTaker := if f.side == SELL then r.quoteAddress else r.baseAddress;
    if f.order.makerToken != expectedMaker || f.order.takerToken != expectedTaker {
      issues := issues + [PairMismatch];
    }
  }

  method CheckUse(f: Firing, w: World) returns (issues: seq<FireIssue>)
    ensures StartsWith(issues, UseIssue(f, w))
    ensures issues == [] <==> Usable(f, w)
    ensures FloorAboveSalt in issues <==> w.floor.Some? && f.order.salt < w.floor.value
    ensures AlreadyExists in issues <==> LookupHash(f, w) in w.known
  {
    issues := [];
    if f.order.expiry * 1000 < f.expiresAtMs + w.graceSecs * 1000 {
      issues := issues + [ExpiryTooClose];
    }
    if LookupHash(f, w) in w.known {
      issues := issues + [AlreadyExists];
    }
    if w.floor.Some? && f.order.salt < w.floor.value {
      issues := issues + [FloorAboveSalt];
    }
  }

  lemma PriceFitsIff(f: Firing, r: Rules)
    ensures PriceIssue(f, r).None? <==>
              && BaseAmount(f) == f.sizeBase && BaseAmount(f) * r.priceTickQ > 0
              && f.limitTicks * (BaseAmount(f) * r.priceTickQ) == QuoteAmount(f) * Pow10(r.baseDecimals)
  {
    var num, den := QuoteAmount(f) * Pow10(r.baseDecimals), BaseAmount(f) * r.priceTickQ;
    if den > 0 {
      if f.limitTicks >= 0 {
        ExactQuotient(num, den, f.limitTicks);
      } else {
        MulMono(f.limitTicks, -1, den);
      }
    }
  }

  /** There is an issue exactly when the intent may not fire. */
  lemma PassesIffNoIssue(f: Firing, r: Rules, w: World)
    ensures FirstIssue(f, r, w).None? <==> FirePasses(f, r, w)
  {
    PriceFitsIff(f, r);
  }

  /** What validation promises placement: the same terms, and no refusal by the book but for a
      size or price that is not positive, which positive market minimums rule out. */
  lemma FirePassesThenPlaces(f: Firing, r: Rules, w: World, markets: map<Symbol, Rules>, listing: seq<Symbol>,
                             m: Symbol, id: Hash, maker: Address)
    requires FirePasses(f, r, w) && r.baseAddress != r.quoteAddress
    requires m in listing && m in markets && markets[m] == r
    requires forall s :: s in listing && s in markets && PairOf(markets[s], r.baseAddress, r.quoteAddress) ==> s == m
    ensures FindMarket(markets, listing, f.order.makerToken, f.order.takerToken) == Some(m)
    ensures f.limitTicks >= 0 && f.sizeBase > 0 && Derive(r, f.order) == Ok(Terms(f.side, f.sizeBase, f.limitTicks))
    ensures Refusal(r, Ticket(id, maker, f.side, f.limitTicks, f.sizeBase)).None? <==> f.limitTicks > 0
    ensures r.minNotionalQ > 0 ==> f.limitTicks > 0
  {
    var den := BaseAmount(f) * r.priceTickQ;
    if f.limitTicks < 0 {
      MulMono(f.limitTicks, -1, den);
    }
    TicksFromIff(QuoteAmount(f), BaseAmount(f), r, f.limitTicks);
    FloorGate(f.limitTicks * r.priceTickQ * f.sizeBase, Pow10(r.baseDecimals), r.minNotionalQ);
    assert PairOf(r, f.order.makerToken, f.order.takerToken);
    assert forall s :: s in listing && s in markets && PairOf(markets[s], f.order.makerToken, f.order.takerToken) ==> s == m;
    if f.limitTicks == 0 && r.minNotionalQ > 0 {
      MulMono(1, r.minNotionalQ, Pow10(r.baseDecimals));
    }
  }
}
