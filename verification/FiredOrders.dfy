/** What a fired intent guarantees its owner: which order was placed, for whom and for how long, and why a
    failed one failed.
    Models apps/api/src/sea/intent-fire.service.ts:144-292 with intent-validator.service.ts:605-817. */
module FiredOrders {
  import opened Prelude
  import opened Arith
  import opened Intents
  import opened Sea
  import opened IntentFiring
  import opened Acceptance
  import P = Placement
  import OP = OrdersPlacement
  import F = Floors
  import Desk
  import Levels
  import Coherence

  /** The owner signed this very order, or signature checks are switched off; it is the owner's. */
  predicate SignedByOwner(s: Shot) {
    && (s.world.devSkip || (s.world.recovered == Some(s.firing.owner) && s.world.hash == Some(s.firing.declaredHash)))
    && s.firing.order.maker == s.firing.owner
  }

  /** The order trades the intent's size at the intent's price, to the unit, in the intent's direction. */
  predicate Exact(s: Shot) {
    var f, o := s.firing, s.firing.order;
    var base, quote := if f.side == Levels.SELL then o.makerAmount else o.takerAmount,
                       if f.side == Levels.SELL then o.takerAmount else o.makerAmount;
    && o.makerToken == (if f.side == Levels.SELL then s.rules.baseAddress else s.rules.quoteAddress)
    && o.takerToken == (if f.side == Levels.SELL then s.rules.quoteAddress else s.rules.baseAddress)
    && base == f.sizeBase && base * s.rules.priceTickQ > 0
    && f.limitTicks * (base * s.rules.priceTickQ) == quote * Pow10(s.rules.baseDecimals)
  }

  /** The order can still be used: it outlives the intent by the grace, its hash is new, and no cancel reached
      its salt. */
  predicate Fresh(s: Shot, d: Desk.State, floors: F.FloorTable) {
    var o := s.firing.order;
    var hash := if !s.world.devSkip && s.world.hash.Some? then s.world.hash.value else s.firing.declaredHash;
    var triple := F.Triple(s.firing.owner, o.makerToken, o.takerToken);
    && o.expiry * 1000 >= s.firing.expiresAtMs + s.world.graceSecs * 1000
    && hash !in d.rows
    && (triple in floors ==> o.salt >= floors[triple].minValidSalt)
  }

  /** An intent that ends placed was signed by its owner for exactly its size and price, large enough and still
      usable; and its order rests with those terms under the owner's name. */
  lemma PlacedMeans(policy: OP.Policy, markets: map<Symbol, Desk.Rules>, listing: seq<Symbol>, d: Desk.State,
                    floors: F.FloorTable, w: Ledger, now: int, id: string, s: Shot, d': Desk.State, w': Ledger)
    returns (m: Symbol, t: P.Terms)
    requires Coherence.Coherent(d) && Concluded(policy, markets, listing, d, floors, w, now, id, s, d', w')
    requires At(w.rows, id, TRIGGERED) && At(w'.rows, id, PLACED)
    ensures SignedByOwner(s) && Exact(s) && Fresh(s, d, floors)
    ensures s.firing.sizeBase >= s.rules.minSizeB
    ensures s.firing.limitTicks * s.rules.priceTickQ * s.firing.sizeBase >= s.rules.minNotionalQ * Pow10(s.rules.baseDecimals)
    ensures m in markets && P.Derive(markets[m], s.firing.order) == Ok(t)
    ensures P.FindMarket(markets, listing, s.firing.order.makerToken, s.firing.order.takerToken) == Some(m)
    ensures var hash := if s.world.hash.Some? then s.world.hash.value else s.firing.declaredHash;
            && w'.rows == w.rows[id := w.rows[id].(status := PLACED, linkedOrderHash := Some(hash), updatedAt := now)]
            && Desk.Locate(Desk.BookOf(d', m), hash)
               == Some(Levels.Order(hash, s.firing.owner, t.side, t.priceTicks, t.sizeBase, now, Some(KeptRaw(s.firing.order)),
                                    s.firing.order.expiry))
  {
    assert P.FirePasses(s.firing, s.rules, Seen(d, floors, s));
    SortedBooks(d);
    m, t := AcceptedIsBooked(policy, markets, listing, d, RequestOf(s), now);
  }

  lemma SortedBooks(d: Desk.State)
    requires Coherence.Coherent(d)
    ensures forall m :: OP.SortedBook(Desk.BookOf(d, m))
  {
    forall m ensures OP.SortedBook(Desk.BookOf(d, m)) {
      Coherence.BookOfBacked(d, m);
    }
  }

  /** The order of a placed intent outlives the intent: no sweep takes it off before the intent's expiry and
      the grace are over. */
  lemma OrderOutlivesIntent(policy: OP.Policy, markets: map<Symbol, Desk.Rules>, listing: seq<Symbol>, d: Desk.State,
                            floors: F.FloorTable, w: Ledger, now: int, id: string, s: Shot, d': Desk.State, w': Ledger,
                            m: Symbol, nowSec: int)
    requires Coherence.Coherent(d) && Concluded(policy, markets, listing, d, floors, w, now, id, s, d', w')
    requires At(w.rows, id, TRIGGERED) && At(w'.rows, id, PLACED) && !s.world.devSkip
    requires P.FindMarket(markets, listing, s.firing.order.makerToken, s.firing.order.takerToken) == Some(m)
    requires nowSec * 1000 < s.firing.expiresAtMs + s.world.graceSecs * 1000
    ensures Desk.Holds(Desk.BookOf(Desk.SweepExpiredOp(d', nowSec), m), CanonicalHash(s))
  {
    var m', t := PlacedMeans(policy, markets, listing, d, floors, w, now, id, s, d', w');
    FiringKeepsCoherent(policy, markets, listing, d, floors, w, now, id, s, d', w');
    FiringKeepsIff(policy, markets, listing, d, floors, w, now, id, s, d', w');
    ExpiresWithItsOrder(policy, markets, listing, d, RequestOf(s), now, m, nowSec);
  }

  /** The reason a failed firing is given: the first thing wrong with it, in the order of the checks. */
  function Reason(s: Shot, d: Desk.State, floors: F.FloorTable): Option<string> {
    var f, o, r := s.firing, s.firing.order, s.rules;
    var base, quote := if f.side == Levels.SELL then o.makerAmount else o.takerAmount,
                       if f.side == Levels.SELL then o.takerAmount else o.makerAmount;
    var num, den := quote * Pow10(r.baseDecimals), base * r.priceTickQ;
    var hash := if !s.world.devSkip && s.world.hash.Some? then s.world.hash.value else f.declaredHash;
    var triple := F.Triple(f.owner, o.makerToken, o.takerToken);
    if f.sizeBase < r.minSizeB then Some("min_size_violation")
    else if f.limitTicks * r.priceTickQ * f.sizeBase < r.minNotionalQ * Pow10(r.baseDecimals) then Some("min_notional_violation")
    else if !s.world.devSkip && s.world.recovered.None? then Some("invalid_signature")
    else if !s.world.devSkip && s.world.recovered.value != f.owner then Some("signer_mismatch")
    else if !s.world.devSkip && s.world.hash.None? then Some("order_hash_compute_failed")
    else if !s.world.devSkip && s.world.hash.value != f.declaredHash then Some("order_hash_mismatch")
    else if o.maker != f.owner then Some("order_maker_mismatch")
    else if f.side == Levels.SELL && (o.makerToken != r.baseAddress || o.takerToken != r.quoteAddress) then Some("token_pair_mismatch")
    else if f.side == Levels.BUY && (o.makerToken != r.quoteAddress || o.takerToken != r.baseAddress) then Some("token_pair_mismatch")
    else if den == 0 then Some("price_compute_failed")
    else if num % den != 0 then Some("price_tick_violation")
    else if base != f.sizeBase then Some("size_mismatch")
    else if num / den != f.limitTicks then Some("price_mismatch")
    else if o.expiry * 1000 < f.expiresAtMs + s.world.graceSecs * 1000 then Some("zeroex_order_expiry_too_close")
    else if hash in d.rows then Some("order_already_exists")
    else if triple in floors && o.salt < floors[triple].minValidSalt then Some("cancel_pair_floor_above_salt")
    else None
  }

  lemma ReasonNamesTheIssue(s: Shot, d: Desk.State, floors: F.FloorTable)
    ensures var issue := P.FirstIssue(s.firing, s.rules, Seen(d, floors, s));
            Reason(s, d, floors) == if issue.Some? then Some(IssueCode(issue.value)) else None
  {
  }

  /** A firing refused by validation fails with that reason and touches no order. */
  lemma RefusedMeans(policy: OP.Policy, markets: map<Symbol, Desk.Rules>, listing: seq<Symbol>, d: Desk.State,
                     floors: F.FloorTable, w: Ledger, now: int, id: string, s: Shot, d': Desk.State, w': Ledger)
    requires Concluded(policy, markets, listing, d, floors, w, now, id, s, d', w') && At(w.rows, id, TRIGGERED)
    requires Reason(s, d, floors).Some?
    ensures d' == d
    ensures w'.rows == w.rows[id := w.rows[id].(status := FAILED, failureReason := Reason(s, d, floors), updatedAt := now)]
  {
    ReasonNamesTheIssue(s, d, floors);
    P.PassesIffNoIssue(s.firing, s.rules, Seen(d, floors, s));
  }

  /** One that validation lets through fails only by its signature's shape or by what placement refuses it for,
      and says so. */
  lemma RejectedMeans(policy: OP.Policy, markets: map<Symbol, Desk.Rules>, listing: seq<Symbol>, d: Desk.State,
                      floors: F.FloorTable, w: Ledger, now: int, id: string, s: Shot, d': Desk.State, w': Ledger)
    requires Concluded(policy, markets, listing, d, floors, w, now, id, s, d', w') && At(w.rows, id, TRIGGERED)
    requires Reason(s, d, floors).None? && !At(w'.rows, id, PLACED)
    ensures var out := OP.PlaceOrderOp(policy, markets, listing, d, RequestOf(s), now).1;
            && (s.signatureParses ==> out.Fail?)
            && w'.rows == w.rows[id := w.rows[id].(status := FAILED, updatedAt := now, failureReason := Some(
                 if !s.signatureParses then "invalid_signature"
                 else if out.code == "post_only_would_cross" then "would_cross_at_fire"
                 else "placement_rejected:" + out.code))]
  {
    ReasonNamesTheIssue(s, d, floors);
    P.PassesIffNoIssue(s.firing, s.rules, Seen(d, floors, s));
  }
}
