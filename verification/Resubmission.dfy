/** A signed order handed in again after it was filled in part. The order endpoint recomputes the hash
    and places without looking for a row. Models apps/api/src/public/orders.controller.ts:150-207 with
    apps/api/src/matching/orders-placement.service.ts:237-302. */
module Resubmission {
  import opened Prelude
  import opened Levels
  import opened Desk
  import opened Coherence
  import opened Placement
  import opened OrdersPlacement
  import FillWatcher

  /** The order rests whole, backed by its row. */
  predicate RestsWhole(d: State, m: Symbol, t: Ticket) {
    && Holds(BookOf(d, m), t.id)
    && t.id in d.rows && d.rows[t.id].market == m && d.rows[t.id].remainingBase == t.sizeBase
  }

  lemma NewOrderRestsWhole(p: Policy, markets: map<Symbol, Rules>, listing: seq<Symbol>, d: State, q: Request, now: int)
    returns (m: Symbol, t: Ticket)
    requires Coherent(d) && q.id !in d.rows && PlaceOrderOp(p, markets, listing, d, q, now).1.Ok?
    ensures Screen(p, markets, listing, d, q) == Ok((m, t)) && Refusal(markets[m], t).None? && t.id == q.id && t.sizeBase > 0
    ensures Coherent(PlaceOrderOp(p, markets, listing, d, q, now).0)
    ensures RestsWhole(PlaceOrderOp(p, markets, listing, d, q, now).0, m, t)
  {
    NewHashKeepsCoherent(p, markets, listing, d, q, now);
    PlaceCases(p, markets, listing, d, q, now);
    m, t := Screen(p, markets, listing, d, q).value.0, Screen(p, markets, listing, d, q).value.1;
    AcceptedIsPositive(markets[m], t);
    BookOfBacked(d, m);
    SettledBook(d, m, t, RawOf(q.order), now);
    RestingIsInBook(BookOf(d, m), t, RawOf(q.order), now);
  }

  /** A watched fill of part of it. */
  lemma PartlyFilled(d: State, m: Symbol, t: Ticket, exec: int, listed: bool, now: int)
    requires Coherent(d) && RestsWhole(d, m, t) && 0 < exec < t.sizeBase
    ensures var d' := ExternalFillOp(d, m, t.id, exec, listed, now).0;
            Coherent(d') && t.id in d'.rows && d'.rows[t.id].remainingBase == t.sizeBase - exec
  {
    ExternalFillInBook(d, m, t.id, exec, listed, now);
    FillWatcher.FillTakesInBook(d, m, t.id, exec, listed, now);
  }

  /** A passive request that meets the other side is refused. */
  predicate Refused(d: State, m: Symbol, t: Ticket, q: Request) {
    q.postOnly && WouldCross(BookOf(d, m), t.side, t.priceTicks)
  }

  /** That is all the checks before the book look at on the desk. */
  lemma ScreenedAgain(p: Policy, markets: map<Symbol, Rules>, listing: seq<Symbol>, d: State, d': State, q: Request,
                      m: Symbol, t: Ticket)
    requires Screen(p, markets, listing, d, q) == Ok((m, t))
    ensures Screen(p, markets, listing, d', q) == if Refused(d', m, t, q) then Fail("post_only_would_cross") else Ok((m, t))
  {
  }

  /** The whole size is on the book, and the row has only `left` to back it. */
  predicate Overbooked(d: State, m: Symbol, t: Ticket, raw: Raw, now: int, left: int) {
    && !Coherent(d)
    && Resting(t, raw, now) in SideOf(BookOf(d, m), t.side)
    && t.id in d.rows && d.rows[t.id].remainingBase == left && left < t.sizeBase
  }

  lemma BookedAgain(p: Policy, markets: map<Symbol, Rules>, listing: seq<Symbol>, d: State, q: Request, now: int,
                    m: Symbol, t: Ticket)
    requires Coherent(d) && q.persists && q.id == t.id && t.id in d.rows && d.rows[t.id].remainingBase < t.sizeBase
    requires Screen(p, markets, listing, d, q) == Ok((m, t)) && Refusal(markets[m], t).None?
    ensures PlaceOrderOp(p, markets, listing, d, q, now).1 == Ok(q.id)
    ensures Overbooked(PlaceOrderOp(p, markets, listing, d, q, now).0, m, t, RawOf(q.order), now, d.rows[t.id].remainingBase)
  {
    PlacementKeepsIff(p, markets, listing, d, q, now);
    PlaceCases(p, markets, listing, d, q, now);
    BookOfBacked(d, m);
    SettledBook(d, m, t, RawOf(q.order), now);
    RestingIsInBook(BookOf(d, m), t, RawOf(q.order), now);
    KnownRowKeepsTerms(d, m, t, RawOf(q.order), now);
  }

  /** For every order accepted under a new hash and then filled in part: handed in again it is refused
      if it is passive and would cross; otherwise it is accepted again, and its whole size is back on
      the book over a row that has less. */
  lemma ResubmittedAfterPartialFill(p: Policy, markets: map<Symbol, Rules>, listing: seq<Symbol>, d: State, q: Request,
                                    now: int, exec: int, listed: bool, filledAt: int, later: int, filled: State)
    requires Coherent(d) && q.id !in d.rows && q.persists && PlaceOrderOp(p, markets, listing, d, q, now).1.Ok?
    requires 0 < exec < Screen(p, markets, listing, d, q).value.1.sizeBase
    requires filled == ExternalFillOp(PlaceOrderOp(p, markets, listing, d, q, now).0, Screen(p, markets, listing, d, q).value.0,
                                      q.id, exec, listed, filledAt).0
    ensures Coherent(filled)
    ensures var (m, t) := Screen(p, markets, listing, d, q).value;
            var (again, out) := PlaceOrderOp(p, markets, listing, filled, q, later);
            if Refused(filled, m, t, q) then again == filled && out == Fail("post_only_would_cross")
            else out == Ok(q.id) && Overbooked(again, m, t, RawOf(q.order), later, t.sizeBase - exec)
  {
    var m, t := NewOrderRestsWhole(p, markets, listing, d, q, now);
    PartlyFilled(PlaceOrderOp(p, markets, listing, d, q, now).0, m, t, exec, listed, filledAt);
    ScreenedAgain(p, markets, listing, d, filled, q, m, t);
    if Refused(filled, m, t, q) {
      PlaceCases(p, markets, listing, filled, q, later);
    } else {
      BookedAgain(p, markets, listing, filled, q, later, m, t);
    }
  }

  const FLAT_RULES := Rules(0, 1, 1, 1, "b", "q")
  const FLAT_ASK := ZxOrder("b", "q", 100, 100, None, "m", "", 0, 0)
  const SIGNED_ASK := Request(FLAT_ASK, true, 1, "m", false, None, true)

  lemma SignedAskIsTaken(now: int)
    ensures var d := State(map[], map[], []);
            && Screen(Policy(0, ""), map["M" := FLAT_RULES], ["M"], d, SIGNED_ASK) == Ok(("M", Ticket(1, "m", SELL, 1, 100)))
            && PlaceOrderOp(Policy(0, ""), map["M" := FLAT_RULES], ["M"], d, SIGNED_ASK, now).1 == Ok(1)
  {
    var d, t := State(map[], map[], []), Ticket(1, "m", SELL, 1, 100);
    assert Screen(Policy(0, ""), map["M" := FLAT_RULES], ["M"], d, SIGNED_ASK) == Ok(("M", t));
    PlaceCases(Policy(0, ""), map["M" := FLAT_RULES], ["M"], d, SIGNED_ASK, now);
    SettleKeepsIff(d, "M", t, SIGNED_ASK, now);
  }

  /** An ask of 100 at 1, filled for 40 and handed in again: 100 on the book, 60 on its row. */
  lemma ResubmittedAsk(now: int, filledAt: int, later: int)
    ensures var policy, markets, listing := Policy(0, ""), map["M" := FLAT_RULES], ["M"];
            var (placed, _) := PlaceOrderOp(policy, markets, listing, State(map[], map[], []), SIGNED_ASK, now);
            var filled := ExternalFillOp(placed, "M", 1, 40, true, filledAt).0;
            var (again, out) := PlaceOrderOp(policy, markets, listing, filled, SIGNED_ASK, later);
            && Coherent(filled) && out == Ok(1)
            && Overbooked(again, "M", Ticket(1, "m", SELL, 1, 100), RawOf(FLAT_ASK), later, 60)
  {
    var policy, markets, listing := Policy(0, ""), map["M" := FLAT_RULES], ["M"];
    var d := State(map[], map[], []);
    SignedAskIsTaken(now);
    ResubmittedAfterPartialFill(policy, markets, listing, d, SIGNED_ASK, now, 40, true, filledAt, later,
                                ExternalFillOp(PlaceOrderOp(policy, markets, listing, d, SIGNED_ASK, now).0, "M", 1, 40, true,
                                               filledAt).0);
  }
}
