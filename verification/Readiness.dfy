/** The readiness service and the quote endpoint as they run.
    Models apps/api/src/sea/cmr-prepare.service.ts:86-262 and apps/api/src/public/match.controller.ts:150-217. */
module Readiness {
  import opened Prelude
  import opened Levels
  import opened Sweep
  import opened Desk
  import I = Intents
  import opened IntentStore
  import opened S = Sea
  import opened SeaServices
  import opened ReadyGate
  import opened OrderBooks

  class CmrPrepareService {
    const repo: IntentRepository
    const events: IntentEventRepository
    const ob: OrderBookService
    const ttlSec: nat
    const debounceSec: nat

    ghost function Ledger(): Ledger
      reads repo, events
    {
      S.Ledger(repo.rows, events.log)
    }

    constructor (repo: IntentRepository, events: IntentEventRepository, ob: OrderBookService, ttlSec: nat, debounceSec: nat)
      ensures this.repo == repo && this.events == events && this.ob == ob
      ensures this.ttlSec == ttlSec && this.debounceSec == debounceSec
    {
      this.repo, this.events, this.ob, this.ttlSec, this.debounceSec := repo, events, ob, ttlSec, debounceSec;
    }

    /** `id` was listed as due; the preview may create the market's empty book and changes no other. */
    method EvaluateAndPrepare(id: string, m: Symbol, c: Wish, now: int)
      requires m in ob.repo.markets && id in repo.rows && Due(repo.rows[id], now)
      modifies repo, events, ob`books
      ensures Ledger() == PrepareOp(old(Ledger()), now, Evaluate(c, BookOf(old(ob.Abs()), m), ob.repo.markets[m], ob.feeBps),
                                    ttlSec, debounceSec, id)
      ensures ob.Abs() == old(ob.Abs()) || ob.Abs() == PutBook(old(ob.Abs()), m, BookOf(old(ob.Abs()), m))
    {
      var b := if m in ob.books then ob.books[m] else Book([], []);
      var reference := ReferenceTicks(b, c.reference);
      if reference.None? || !TriggerSatisfied(c.triggerType, reference.value, c.triggerTicks) {
        return;
      }
      var quoted := ob.Quote(m, c.side, c.sizeBase, Some(c.triggerTicks));
      var quote := quoted.value;
      if quote.remainingBase > 0 {
        Wait(id, now);
        return;
      }
      var rules := ob.repo.markets[m];
      var notionalQ := ComputeQuoteNotionalQ(quote.fills, rules.priceTickQ, rules.baseDecimals);
      if notionalQ < rules.minNotionalQ {
        Wait(id, now);
        return;
      }
      if |quote.fills| != 1 {
        Wait(id, now);
        return;
      }
      var latched := repo.MarkReady(id, ttlSec, now);
      if latched {
        events.Append(id, Ready);
      }
    }

    /** Stay active, quietly, for the debounce window. */
    method Wait(id: string, now: int)
      modifies repo, events
      ensures Ledger() == Noted(old(Ledger()), id, I.SetActiveCooldown(old(repo.rows), id, now + debounceSec * 1000, now), [Progress])
    {
      var stamped := repo.SetActiveCooldown(id, now + debounceSec * 1000, now);
      if stamped {
        events.Append(id, Progress);
      }
    }
  }

  class MatchController {
    const ob: OrderBookService

    constructor (ob: OrderBookService)
      ensures this.ob == ob
    {
      this.ob := ob;
    }

    method Quote(m: Symbol, side: Side, size: int, tif: Tif, limit: Option<int>) returns (r: Outcome<Quote>)
      modifies ob`books
      ensures m !in ob.repo.markets ==> r == Fail("market_not_found")
      ensures m in ob.repo.markets ==>
                r == MatchQuote(BookOf(old(ob.Abs()), m), ob.repo.markets[m], side, size, tif, limit, ob.feeBps)
      ensures ob.Abs() == old(ob.Abs()) || ob.Abs() == PutBook(old(ob.Abs()), m, BookOf(old(ob.Abs()), m))
    {
      if m !in ob.repo.markets {
        return Fail("market_not_found");
      }
      var rules := ob.repo.markets[m];
      if size < rules.minSizeB {
        return Fail("size_below_min_size");
      }
      var cap := if limit.Some? && limit.value > 0 then limit else None;
      var quoted := ob.Quote(m, side, size, cap);
      var plan := quoted.value;
      var available := AvailableBase(plan.fills);
      var shortfall := if size > available then size - available else 0;
      if tif == FOK && shortfall > 0 {
        return Fail("fok_insufficient_liquidity");
      }
      if |plan.fills| > 0 {
        var notionalQ := ComputeQuoteNotionalQ(plan.fills, rules.priceTickQ, rules.baseDecimals);
        if notionalQ < rules.minNotionalQ {
          return Fail("notional_below_min_notional");
        }
      }
      r := Ok(plan);
    }
  }
}
