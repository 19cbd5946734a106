/** Firing a conditional limit: latch, validate, place passively, record the outcome.
    Models apps/api/src/sea/intent-fire.service.ts. */
module IntentFiring {
  import opened Prelude
  import opened Intents
  import opened IntentStore
  import opened Sea
  import opened SeaServices
  import P = Placement
  import OP = OrdersPlacement
  import Desk
  import Levels
  import Coherence
  import F = Floors
  import Sig = Signatures

  /** A listed intent with its stored order, what validation will learn about it, and what
      placement's collaborators will answer. */
  datatype Shot = Shot(firing: P.Firing, world: P.World, rules: Desk.Rules, signatureParses: bool,
                       signature: Sig.SigInput, fundsRefusal: Option<string>, persists: bool)

  function CanonicalHash(s: Shot): Hash {
    if s.world.hash.Some? then s.world.hash.value else s.firing.declaredHash
  }

  predicate SignatureOk(s: Shot) {
    Sig.SignatureToTuple(s.signature).Some?
  }

  /** Fired orders are always passive. */
  function RequestOf(s: Shot): OP.Request {
    OP.Request(s.firing.order, SignatureOk(s), CanonicalHash(s), s.firing.owner, true, s.fundsRefusal, s.persists)
  }

  function PlacementReason(code: string): string {
    if code == "post_only_would_cross" then "would_cross_at_fire" else "placement_rejected:" + code
  }

  function IssueCode(i: P.FireIssue): string {
    match i
    case MinSize => "min_size_violation"
    case MinNotional => "min_notional_violation"
    case InvalidSignature => "invalid_signature"
    case SignerMismatch => "signer_mismatch"
    case HashUncomputable => "order_hash_compute_failed"
    case HashMismatch => "order_hash_mismatch"
    case MakerMismatch => "order_maker_mismatch"
    case PairMismatch => "token_pair_mismatch"
    case PriceUncomputable => "price_compute_failed"
    case PriceTick => "price_tick_violation"
    case SizeMismatch => "size_mismatch"
    case PriceMismatch => "price_mismatch"
    case ExpiryTooClose => "zeroex_order_expiry_too_close"
    case AlreadyExists => "order_already_exists"
    case FloorAboveSalt => "cancel_pair_floor_above_salt"
  }

  /** The floor that concerns a fired order. */
  function TripleOf(f: P.Firing): F.Triple {
    F.Triple(f.owner, f.order.makerToken, f.order.takerToken)
  }

  /** The order-exists look-up reads the rows of the moment, the floor check the floors of the moment. */
  function Seen(d: Desk.State, floors: F.FloorTable, s: Shot): P.World {
    s.world.(known := d.rows.Keys, floor := F.FloorOf(floors, TripleOf(s.firing)))
  }

  /** What a latched fire call leaves on desk and ledger. A refused validation touches no order. */
  ghost predicate Concluded(policy: OP.Policy, markets: map<Symbol, Desk.Rules>, listing: seq<Symbol>, d: Desk.State,
                            floors: F.FloorTable, w: Ledger, now: int, id: string, s: Shot, d': Desk.State, w': Ledger)
  {
    if !P.FirePasses(s.firing, s.rules, Seen(d, floors, s)) then
      var issue := P.FirstIssue(s.firing, s.rules, Seen(d, floors, s));
      d' == d && issue.Some? && w' == FireFailedOp(w, now, id, IssueCode(issue.value))
    else if !s.signatureParses then d' == d && w' == FireFailedOp(w, now, id, "invalid_signature")
    else
      var (placed, out) := OP.PlaceOrderOp(policy, markets, listing, d, RequestOf(s), now);
      d' == placed &&
      match out
      case Ok(hash) => w' == PlacedOp(w, now, id, hash)
      case Fail(code) => w' == FireFailedOp(w, now, id, PlacementReason(code))
  }

  class IntentFireService {
    const repo: IntentRepository
    const events: IntentEventRepository
    const placement: OP.OrdersPlacementService
    const floorRepo: F.CancelPairFloorRepository

    ghost function Ledger(): Ledger
      reads repo, events
    {
      Sea.Ledger(repo.rows, events.log)
    }

    constructor (repo: IntentRepository, events: IntentEventRepository, placement: OP.OrdersPlacementService,
                 floorRepo: F.CancelPairFloorRepository)
      ensures this.repo == repo && this.events == events && this.placement == placement && this.floorRepo == floorRepo
    {
      this.repo, this.events, this.placement, this.floorRepo := repo, events, placement, floorRepo;
    }

    /** `id` was listed as a conditional limit that has not expired; it may have moved since. */
    method Fire(id: string, s: Shot, now: int) returns (latched: bool)
      requires id in repo.rows && repo.rows[id].kind == CL && repo.rows[id].expiresAt > now
      requires Coherence.Coherent(placement.ob.Abs())
      modifies repo, events, placement.ob`books, placement.ob.repo`orders, placement.ob.repo`signatures
      ensures latched == LatchOp(old(Ledger()), now, id).1
      ensures !latched ==> Ledger() == old(Ledger()) && placement.ob.Abs() == old(placement.ob.Abs())
      ensures latched ==>
                Concluded(placement.policy, placement.ob.repo.markets, placement.listing, old(placement.ob.Abs()),
                          floorRepo.floors, LatchOp(old(Ledger()), now, id).0, now, id, s, placement.ob.Abs(), Ledger())
    {
      latched := repo.TransitionStatus(id, ACTIVE, TRIGGERED, None, now);
      if !latched {
        return;
      }
      var floor := floorRepo.GetFloor(TripleOf(s.firing));
      var world := s.world.(known := placement.ob.repo.orders.Keys, floor := floor);
      var issues := P.ValidateAtFire(s.firing, s.rules, world);
      if issues != [] {
        FailIntent(id, IssueCode(issues[0]), now);
        return;
      }
      if !s.signatureParses {
        FailIntent(id, "invalid_signature", now);
        return;
      }
      var placed := placement.Place(RequestOf(s), s.signature, now);
      match placed {
        case Ok(hash) =>
          var ok := repo.MarkPlaced(id, hash, now);
          events.Append(id, Placed);
        case Fail(code) =>
          FailIntent(id, PlacementReason(code), now);
      }
    }

    method FailIntent(id: string, reason: string, now: int)
      modifies repo, events
      ensures Ledger() == FireFailedOp(old(Ledger()), now, id, reason)
    {
      var ok := repo.TransitionStatus(id, TRIGGERED, FAILED, Some(reason), now);
      events.Append(id, Failed);
    }
  }

  /** Exactly when a latched fire call leaves a coherent desk coherent, whatever its outcome: when it gets
      as far as placement, what it asks for must be safe to place. */
  lemma FiringKeepsIff(policy: OP.Policy, markets: map<Symbol, Desk.Rules>, listing: seq<Symbol>, d: Desk.State,
                       floors: F.FloorTable, w: Ledger, now: int, id: string, s: Shot, d': Desk.State, w': Ledger)
    requires Coherence.Coherent(d) && Concluded(policy, markets, listing, d, floors, w, now, id, s, d', w')
    ensures Coherence.Coherent(d') <==>
              (P.FirePasses(s.firing, s.rules, Seen(d, floors, s)) && s.signatureParses ==>
                 OP.SafeRequest(policy, markets, listing, d, RequestOf(s)))
  {
    OP.PlacementKeepsIff(policy, markets, listing, d, RequestOf(s), now);
  }

  /** With signatures checked, firing never reuses a hash and so always keeps the desk coherent: the hash
      it looks up is the one it places under. With signatures skipped it does whenever the hash it places
      under is new. */
  lemma FiringKeepsCoherent(policy: OP.Policy, markets: map<Symbol, Desk.Rules>, listing: seq<Symbol>, d: Desk.State,
                            floors: F.FloorTable, w: Ledger, now: int, id: string, s: Shot, d': Desk.State, w': Ledger)
    requires Coherence.Coherent(d) && Concluded(policy, markets, listing, d, floors, w, now, id, s, d', w')
    requires !s.world.devSkip || CanonicalHash(s) !in d.rows
    ensures Coherence.Coherent(d')
    ensures d' != d ==> CanonicalHash(s) !in d.rows && (s.world.devSkip || CanonicalHash(s) == s.firing.declaredHash)
  {
    if d' != d {
      OP.NewHashKeepsCoherent(policy, markets, listing, d, RequestOf(s), now);
    }
  }

  /** A pair cancel outlives everything: once one at second `boundary` is in the history of floors, an
      intent whose order was salted earlier places nothing when it fires, and ends failed. */
  lemma CancelledSaltNeverFires(policy: OP.Policy, markets: map<Symbol, Desk.Rules>, listing: seq<Symbol>, d: Desk.State,
                                stored: F.FloorTable, cancels: seq<F.PairCancelled>, w: Ledger, now: int, id: string, s: Shot,
                                d': Desk.State, w': Ledger, boundary: nat, tx: Option<TxHash>, sec: nat, random: nat)
    requires Concluded(policy, markets, listing, d, F.After(stored, cancels), w, now, id, s, d', w') && At(w.rows, id, TRIGGERED)
    requires F.PairCancelled(TripleOf(s.firing), F.MinValidSaltAt(boundary), tx) in cancels
    requires s.firing.order.salt == F.OrderSalt(sec, random) && random < F.TWO_96 && sec < boundary
    ensures d' == d && At(w'.rows, id, FAILED)
  {
    F.CancelSplitsTime(stored, cancels, TripleOf(s.firing), boundary, tx, sec, random);
  }

  const FLAT_RULES := Desk.Rules(0, 1, 1, 1, "b", "q")
  const FILLED_DESK := Desk.State(map[], map[1 := Desk.Row("M", "m", Levels.SELL, 7, 5, 0, Desk.FILLED, 0, None)], [])

  /** An ask of 5 at 7 stored under the declared hash 2 that hashes to 1. */
  function SkippedShot(signature: Sig.SigInput): Shot {
    Shot(P.Firing("m", Levels.SELL, 5, 7, P.ZxOrder("b", "q", 5, 35, None, "m", "", 1, 0), 2, 1000),
         P.World(None, Some(1), {}, None, 0, true), FLAT_RULES, true, signature, None, true)
  }

  lemma SkippedShotPasses(signature: Sig.SigInput)
    requires Sig.SignatureToTuple(signature).Some?
    ensures var s := SkippedShot(signature);
            P.FirePasses(s.firing, FLAT_RULES, Seen(FILLED_DESK, map[], s))
  {
  }

  lemma SkippedShotScreens(signature: Sig.SigInput)
    requires Sig.SignatureToTuple(signature).Some?
    ensures OP.Screen(OP.Policy(0, ""), map["M" := FLAT_RULES], ["M"], FILLED_DESK, RequestOf(SkippedShot(signature)))
         == Ok(("M", Desk.Ticket(1, "m", Levels.SELL, 7, 5)))
  {
  }

  /** With signatures skipped it may: the declared hash is looked up, the computed one is placed, and a
      filled order is back on the book with base its row does not have. */
  lemma SkippedChecksBreakCoherence(now: int, signature: Sig.SigInput)
    requires Sig.SignatureToTuple(signature).Some?
    ensures var s := SkippedShot(signature);
            && Coherence.Coherent(FILLED_DESK) && P.FirePasses(s.firing, FLAT_RULES, Seen(FILLED_DESK, map[], s))
            && !OP.SafeRequest(OP.Policy(0, ""), map["M" := FLAT_RULES], ["M"], FILLED_DESK, RequestOf(s))
            && var (d, out) := OP.PlaceOrderOp(OP.Policy(0, ""), map["M" := FLAT_RULES], ["M"], FILLED_DESK, RequestOf(s), now);
               out == Ok(1) && !Coherence.Coherent(d)
  {
    var q := RequestOf(SkippedShot(signature));
    SkippedShotPasses(signature);
    SkippedShotScreens(signature);
    OP.PlacementKeepsIff(OP.Policy(0, ""), map["M" := FLAT_RULES], ["M"], FILLED_DESK, q, now);
    OP.PlaceCases(OP.Policy(0, ""), map["M" := FLAT_RULES], ["M"], FILLED_DESK, q, now);
  }

  /** A valid intent whose market is listed once, whose fees, funds and storage raise no objection
      and whose minimum notional is positive is placed under its canonical hash exactly when its
      price meets no resting order; otherwise it fails for that reason and no other. */
  lemma ValidIntentPlacesIff(policy: OP.Policy, markets: map<Symbol, Desk.Rules>, listing: seq<Symbol>, d: Desk.State,
                             floors: F.FloorTable, w: Ledger, now: int, id: string, s: Shot, d': Desk.State, w': Ledger,
                             m: Symbol)
    requires Concluded(policy, markets, listing, d, floors, w, now, id, s, d', w') && At(w.rows, id, TRIGGERED)
    requires P.FirePasses(s.firing, s.rules, Seen(d, floors, s)) && s.signatureParses && SignatureOk(s) && s.persists
    requires s.fundsRefusal.None? && OP.PolicyRefusal(policy, s.firing.order).None?
    requires s.rules.baseAddress != s.rules.quoteAddress && s.rules.minNotionalQ > 0
    requires m in listing && m in markets && markets[m] == s.rules
    requires forall x :: x in listing && x in markets && P.PairOf(markets[x], s.rules.baseAddress, s.rules.quoteAddress) ==> x == m
    requires OP.SortedBook(Desk.BookOf(d, m))
    ensures At(w'.rows, id, PLACED) <==>
              forall o :: o in Desk.SideOf(Desk.BookOf(d, m), Levels.Opposite(s.firing.side)) ==>
                            !OP.Meets(s.firing.side, s.firing.limitTicks, o.priceTicks)
    ensures At(w'.rows, id, PLACED) ==> w'.rows[id].linkedOrderHash == Some(CanonicalHash(s))
    ensures !At(w'.rows, id, PLACED) ==> At(w'.rows, id, FAILED) && w'.rows[id].failureReason == Some("would_cross_at_fire")
  {
    P.FirePassesThenPlaces(s.firing, s.rules, Seen(d, floors, s), markets, listing, m, CanonicalHash(s), s.firing.owner);
    OP.WouldCrossIff(Desk.BookOf(d, m), s.firing.side, s.firing.limitTicks);
    ScreenOutcome(policy, markets, listing, d, now, s, m);
  }

  lemma ScreenOutcome(policy: OP.Policy, markets: map<Symbol, Desk.Rules>, listing: seq<Symbol>, d: Desk.State,
                      now: int, s: Shot, m: Symbol)
    requires SignatureOk(s) && s.persists && s.fundsRefusal.None? && OP.PolicyRefusal(policy, s.firing.order).None?
    requires m in markets && P.FindMarket(markets, listing, s.firing.order.makerToken, s.firing.order.takerToken) == Some(m)
    requires s.firing.limitTicks > 0 && s.firing.sizeBase > 0
    requires P.Derive(markets[m], s.firing.order) == Ok(P.Terms(s.firing.side, s.firing.sizeBase, s.firing.limitTicks))
    requires Desk.Refusal(markets[m], Desk.Ticket(CanonicalHash(s), s.firing.owner, s.firing.side, s.firing.limitTicks,
                                                  s.firing.sizeBase)).None?
    requires OP.SortedBook(Desk.BookOf(d, m))
    ensures OP.PlaceOrderOp(policy, markets, listing, d, RequestOf(s), now).1
         == if OP.WouldCross(Desk.BookOf(d, m), s.firing.side, s.firing.limitTicks) then Fail("post_only_would_cross")
            else Ok(CanonicalHash(s))
  {
    var t := Desk.Ticket(CanonicalHash(s), s.firing.owner, s.firing.side, s.firing.limitTicks, s.firing.sizeBase);
    OP.SettledBook(d, m, t, OP.RawOf(s.firing.order), now);
  }
}
