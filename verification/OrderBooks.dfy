/** The order book service and its repository as they run: fields changed in place, loops as
    written, each method tied to the desk operation it performs.
    Models apps/api/src/matching/orderbook.service.ts, persistence.repository.ts and
    lob-rehydrator.service.ts. */
module OrderBooks {
  import opened Prelude
  import opened Arith
  import opened Levels
  import opened Sweep
  import opened Desk
  import opened Coherence
  import Sig = Signatures

  lemma OnlyOneFirst(rows: map<Hash, Row>, s: set<Hash>, x: Hash)
    requires s <= rows.Keys && IsFirst(rows, s, x)
    ensures InOrderOfPlacing(rows, s) == [x] + InOrderOfPlacing(rows, s - {x})
  {
    var y := InOrderOfPlacing(rows, s)[0];
    assert IsFirst(rows, s, y);
  }

  lemma ListOneMore(rows: map<Hash, Row>, ids: seq<Hash>, left: set<Hash>, x: Hash)
    requires left <= rows.Keys && IsFirst(rows, left, x)
    ensures ids + InOrderOfPlacing(rows, left) == ids + [x] + InOrderOfPlacing(rows, left - {x})
  {
    OnlyOneFirst(rows, left, x);
  }

  class PersistenceRepository {
    const markets: map<Symbol, Rules>
    var orders: map<Hash, Row>
    var trades: seq<Trade>
    var signatures: map<Hash, seq<Sig.Byte>>

    constructor (markets: map<Symbol, Rules>)
      ensures this.markets == markets && orders == map[] && trades == [] && signatures == map[]
    {
      this.markets := markets;
      orders, trades, signatures := map[], [], map[];
    }

    method UpsertOrderPlaced(m: Symbol, t: Ticket, now: int)
      modifies this`orders
      ensures orders == Upserted(old(orders), m, t, now)
    {
      if t.id in orders {
        orders := orders[t.id := orders[t.id].(status := PLACED)];
      } else {
        orders := orders[t.id := Row(m, t.maker, t.side, t.priceTicks, t.sizeBase, t.sizeBase, PLACED, now, None)];
      }
    }

    method AddTrade(t: Trade)
      modifies this`trades
      ensures trades == old(trades) + [t]
    {
      trades := trades + [t];
    }

    /** `false` when the row does not exist and the update throws. */
    method DecreaseOrderRemaining(id: Hash, exec: int, s: OrderStatus) returns (found: bool)
      modifies this`orders
      ensures orders == Decreased(old(orders), id, exec, s) && found == (id in old(orders))
    {
      found := id in orders;
      if found {
        var row := orders[id];
        orders := orders[id := row.(remainingBase := row.remainingBase - exec, status := s)];
      }
    }

    method CancelOrder(id: Hash) returns (found: bool)
      modifies this`orders
      ensures orders == StatusSet(old(orders), id, CANCELLED) && found == (id in old(orders))
    {
      found := id in orders;
      if found {
        orders := orders[id := orders[id].(status := CANCELLED)];
      }
    }

    method ExpireOrder(id: Hash)
      modifies this`orders
      ensures orders == StatusSet(old(orders), id, EXPIRED)
    {
      if id in orders {
        orders := orders[id := orders[id].(status := EXPIRED)];
      }
    }

    /** Raw order and packed signature on an existing row; a signature of no known shape or a missing
        row throws. */
    method AttachRawToOrder(id: Hash, raw: Raw, signature: Sig.SigInput) returns (stored: bool)
      modifies this`orders, this`signatures
      ensures stored == (Sig.SignatureToTuple(signature).Some? && id in old(orders))
      ensures stored ==> orders == RawPersisted(old(orders), id, raw)
                         && signatures == old(signatures)[id := Sig.Packed(Sig.SignatureToTuple(signature).value)]
      ensures !stored ==> orders == old(orders) && signatures == old(signatures)
    {
      var tuple := Sig.SignatureToTuple(signature);
      if tuple.None? || id !in orders {
        return false;
      }
      var packed := Sig.TupleToPackedBytes(tuple.value);
      orders := orders[id := orders[id].(raw := Some(raw))];
      signatures := signatures[id := packed[..]];
      stored := true;
    }

    /** Raw order and signature as stored; bytes that do not unpack read as no signature. */
    method FindRawOrderByHash(id: Hash) returns (raw: Option<Raw>, signature: Option<Sig.SigTuple>)
      ensures raw == if id in orders then orders[id].raw else None
      ensures signature == if id in signatures then Sig.PackedBytesToTuple(signatures[id]) else None
    {
      raw := if id in orders then orders[id].raw else None;
      signature := if id in signatures then Sig.PackedBytesToTuple(signatures[id]) else None;
    }

    /** The owner's own fill in this market under this transaction, if one is on record. */
    method FindTradeByTxHashForIntent(tx: TxHash, m: Symbol, owner: Address) returns (hit: Option<Trade>)
      ensures hit.Some? ==> hit.value in trades && Concerns(hit.value, tx, m, owner)
      ensures hit.None? ==> forall t :: t in trades ==> !Concerns(t, tx, m, owner)
    {
      var i := 0;
      while i < |trades|
        invariant 0 <= i <= |trades|
        invariant forall t :: t in trades[..i] ==> !Concerns(t, tx, m, owner)
      {
        if Concerns(trades[i], tx, m, owner) {
          return Some(trades[i]);
        }
        i := i + 1;
      }
      hit := None;
    }

    method GetOrderRemaining(id: Hash) returns (r: Option<int>)
      ensures r == if id in orders then Some(orders[id].remainingBase) else None
    {
      r := if id in orders then Some(orders[id].remainingBase) else None;
    }

    /** Placed rows of one market, oldest first, at most the cap. */
    method ListPlacedBySymbol(m: Symbol) returns (ids: seq<Hash>)
      ensures ids == Listing(orders, m)
    {
      var left := PlacedIn(orders, m);
      ids := [];
      ghost var all := InOrderOfPlacing(orders, left);
      while left != {}
        invariant left <= PlacedIn(orders, m)
        invariant all == ids + InOrderOfPlacing(orders, left)
        decreases left
      {
        var first := PickFirst(left);
        ListOneMore(orders, ids, left, first);
        ids := ids + [first];
        left := left - {first};
      }
      assert ids + [] == ids;
      ids := ids[..Min(|ids|, LISTING_CAP)];
    }

    method PickFirst(s: set<Hash>) returns (x: Hash)
      requires s != {} && s <= orders.Keys
      ensures IsFirst(orders, s, x)
    {
      x :| x in s;
      var rest := s - {x};
      ghost var seen := {x};
      while rest != {}
        invariant rest <= s && seen == s - rest
        invariant IsFirst(orders, seen, x)
        decreases rest
      {
        var y :| y in rest;
        if Before(orders, y, x) {
          x := y;
        }
        seen := seen + {y};
        rest := rest - {y};
      }
    }
  }

  lemma AliveCons(x: Order, s: seq<Order>, nowSec: int)
    ensures Alive([x] + s, nowSec) == (if IsExpired(x, nowSec) then [] else [x]) + Alive(s, nowSec)
  {
    assert ([x] + s)[1..] == s;
  }

  lemma Joined(a: seq<Order>, b: seq<Order>, c: seq<Order>)
    ensures a + (b + c) == (a + b) + c
  {
  }

  lemma {:induction false} AliveSnoc(s: seq<Order>, x: Order, nowSec: int)
    ensures Alive(s + [x], nowSec) == Alive(s, nowSec) + if IsExpired(x, nowSec) then [] else [x]
  {
    if s == [] {
      assert [] + [x] == [x] + [];
      AliveCons(x, [], nowSec);
    } else {
      AliveSnoc(s[1..], x, nowSec);
      AliveCons(s[0], s[1..], nowSec);
      AliveCons(s[0], s[1..] + [x], nowSec);
      Joined([s[0]], s[1..], [x]);
      Joined(if IsExpired(s[0], nowSec) then [] else [s[0]], Alive(s[1..], nowSec), if IsExpired(x, nowSec) then [] else [x]);
      assert s == [s[0]] + s[1..];
    }
  }

  /** Split a side into live and expired orders. */
  method SplitExpired(s: seq<Order>, nowSec: int) returns (alive: seq<Order>, expired: seq<Order>)
    ensures alive == Alive(s, nowSec)
    ensures forall x :: x in expired <==> x in s && IsExpired(x, nowSec)
  {
    alive, expired := [], [];
    var i := 0;
    while i < |s|
      invariant 0 <= i <= |s|
      invariant alive == Alive(s[..i], nowSec)
      invariant forall x :: x in expired <==> x in s[..i] && IsExpired(x, nowSec)
    {
      AliveSnoc(s[..i], s[i], nowSec);
      assert s[..i + 1] == s[..i] + [s[i]];
      if s[i].expirySec > 0 && s[i].expirySec <= nowSec {
        expired := expired + [s[i]];
      } else {
        alive := alive + [s[i]];
      }
      i := i + 1;
    }
    assert s[..i] == s;
  }

  predicate Names(s: seq<Order>, id: Hash) {
    exists x :: x in s && x.id == id
  }

  lemma NamesOneMore(s: seq<Order>, i: nat)
    requires i < |s|
    ensures forall h :: Names(s[..i + 1], h) <==> Names(s[..i], h) || h == s[i].id
  {
    assert s[..i + 1] == s[..i] + [s[i]];
    assert s[i] in s[..i + 1];
    forall h | Names(s[..i], h) ensures Names(s[..i + 1], h) {
      var x :| x in s[..i] && x.id == h;
      assert x in s[..i + 1];
    }
  }

  lemma LapsedInMarket(books: map<Symbol, Book>, m: Symbol, nowSec: int, expired: seq<Order>)
    requires m in books
    requires forall x :: x in expired <==> (x in books[m].bids || x in books[m].asks) && IsExpired(x, nowSec)
    ensures forall h :: Lapsed(books, {m}, h, nowSec) <==> Names(expired, h)
  {
    forall h | Names(expired, h) ensures Lapsed(books, {m}, h, nowSec) {
      var x :| x in expired && x.id == h;
      assert m in {m};
    }
  }

  lemma NothingSwept(d: State, nowSec: int)
    ensures SweptSoFar(d, {}, nowSec) == d
  {
    assert SweptSoFar(d, {}, nowSec).books == d.books;
    assert SweptSoFar(d, {}, nowSec).rows == d.rows;
  }

  /** Visiting one more market. */
  lemma SweptOneMore(d: State, swept: set<Symbol>, m: Symbol, nowSec: int, rows': map<Hash, Row>)
    requires m in d.books
    requires rows'.Keys == d.rows.Keys
    requires forall h :: h in d.rows ==>
               rows'[h] == if Lapsed(d.books, {m}, h, nowSec)
                           then SweptSoFar(d, swept, nowSec).rows[h].(status := EXPIRED)
                           else SweptSoFar(d, swept, nowSec).rows[h]
    ensures SweptSoFar(d, swept + {m}, nowSec)
         == State(SweptSoFar(d, swept, nowSec).books[m := Pruned(d.books[m], nowSec)], rows', d.trades)
  {
    forall h | h in d.rows
      ensures Lapsed(d.books, swept + {m}, h, nowSec) <==> Lapsed(d.books, swept, h, nowSec) || Lapsed(d.books, {m}, h, nowSec)
    {
    }
    assert SweptSoFar(d, swept + {m}, nowSec).rows == rows';
    assert SweptSoFar(d, swept + {m}, nowSec).books == SweptSoFar(d, swept, nowSec).books[m := Pruned(d.books[m], nowSec)];
  }

  /** Fills collected before the rest of a market loop. */
  function Extended(fills: seq<Fill>, inner: (State, int, seq<Fill>)): (State, int, seq<Fill>) {
    (inner.0, inner.1, fills + inner.2)
  }

  lemma ReviveOneMore(d: State, m: Symbol, ids: seq<Hash>, i: nat, clock: nat -> int)
    requires i < |ids| && forall h :: h in ids ==> h in d.rows
    ensures ReviveAll(d, m, ids[..i + 1], clock) == ReviveOp(ReviveAll(d, m, ids[..i], clock), m, ids[i], clock(i))
  {
    assert ids[..i + 1][..i] == ids[..i];
  }

  lemma NothingExtended(inner: (State, int, seq<Fill>))
    ensures Extended([], inner) == inner
  {
    assert [] + inner.2 == inner.2;
  }

  lemma ExtendedOneMore(fills: seq<Fill>, f: Fill, inner: (State, int, seq<Fill>))
    ensures Extended(fills, Prefixed(f, inner)) == Extended(fills + [f], inner)
  {
    assert fills + ([f] + inner.2) == (fills + [f]) + inner.2;
  }

  /** The plan from level `i` on, for what remains. */
  function Rest(taker: Side, limit: Option<int>, levels: seq<Order>, i: nat, remaining: int): seq<Fill>
    requires i <= |levels|
  {
    Plan(taker, limit, levels[i..], remaining)
  }

  lemma PlanTurn(taker: Side, limit: Option<int>, levels: seq<Order>, i: nat, remaining: int, fills: seq<Fill>)
    requires i < |levels| && remaining > 0 && !Worse(taker, limit, levels[i].priceTicks)
    ensures var exec := Min(remaining, levels[i].sizeBase);
            fills + Rest(taker, limit, levels, i, remaining)
            == fills + [FillOf(levels[i], exec)] + Rest(taker, limit, levels, i + 1, remaining - exec)
  {
    assert levels[i..][1..] == levels[i + 1..];
  }

  lemma PlanStop(taker: Side, limit: Option<int>, levels: seq<Order>, i: nat, remaining: int)
    requires i <= |levels|
    requires i == |levels| || remaining <= 0 || Worse(taker, limit, levels[i].priceTicks)
    ensures Rest(taker, limit, levels, i, remaining) == []
  {
  }

  /** What quote keeps while it walks the levels. */
  datatype Tally = Tally(remaining: int, total: int, fee: int, fills: seq<Fill>)

  /** Market rules the tally depends on. */
  datatype Scale = Scale(tickQ: int, decimals: nat, feeBps: nat)

  /** Before level `i`: fills so far and the plan for the rest make up the whole plan, and the
      running totals are those of the fills. */
  predicate OnCourse(levels: seq<Order>, taker: Side, limit: Option<int>, size: int, k: Scale, i: nat, t: Tally)
    requires i <= |levels|
  {
    match t
    case Tally(remaining, total, fee, fills) =>
      && Plan(taker, limit, levels, size) == fills + Rest(taker, limit, levels, i, remaining)
      && remaining == size - Filled(fills)
      && total == FlooredNotional(fills, k.tickQ, k.decimals)
      && fee == FeeTotal(taker, fills, k.tickQ, k.decimals, k.feeBps)
  }

  /** One level: executed base, its quote notional and its fee. */
  method TakeLevel(levels: seq<Order>, taker: Side, limit: Option<int>, size: int, k: Scale, i: nat, t: Tally)
    returns (t': Tally)
    requires i < |levels| && t.remaining > 0 && !Worse(taker, limit, levels[i].priceTicks)
    requires OnCourse(levels, taker, limit, size, k, i, t)
    ensures OnCourse(levels, taker, limit, size, k, i + 1, t')
  {
    var level := levels[i];
    var exec := if t.remaining < level.sizeBase then t.remaining else level.sizeBase;
    var f := FillOf(level, exec);
    PlanTurn(taker, limit, levels, i, t.remaining, t.fills);
    TotalsAppend(t.fills, f, taker, k.tickQ, k.decimals, k.feeBps);
    var notionalQ := Notional(level.priceTicks, k.tickQ, exec, k.decimals);
    t' := Tally(t.remaining - exec, t.total + notionalQ, t.fee + FeePart(taker, f, notionalQ, k.feeBps), t.fills + [f]);
  }

  /** The loop of quote. */
  method SweepLevels(levels: seq<Order>, taker: Side, limit: Option<int>, size: int, k: Scale) returns (q: Quote)
    ensures q == QuoteOf(taker, limit, levels, size, k.tickQ, k.decimals, k.feeBps)
  {
    var t := Tally(size, 0, 0, []);
    var i := 0;
    assert levels[0..] == levels && [] + Rest(taker, limit, levels, 0, size) == Plan(taker, limit, levels, size);
    while i < |levels|
      invariant 0 <= i <= |levels| && OnCourse(levels, taker, limit, size, k, i, t)
    {
      if t.remaining <= 0 { break; }
      if Worse(taker, limit, levels[i].priceTicks) { break; }
      t := TakeLevel(levels, taker, limit, size, k, i, t);
      i := i + 1;
    }
    PlanStop(taker, limit, levels, i, t.remaining);
    assert t.fills + [] == t.fills;
    q := Quote(size, t.remaining, t.total, t.fee, t.total + t.fee, t.fills);
  }

  class OrderBookService {
    const repo: PersistenceRepository
    const feeBps: nat
    var books: map<Symbol, Book>

    ghost function Abs(): State
      reads this, repo
    {
      State(books, repo.orders, repo.trades)
    }

    constructor (repo: PersistenceRepository, feeBps: nat)
      ensures this.repo == repo && this.feeBps == feeBps
      ensures Abs() == State(map[], repo.orders, repo.trades)
    {
      this.repo, this.feeBps := repo, feeBps;
      books := map[];
    }

    /** Reading a market's book creates it when missing. */
    method BookFor(m: Symbol) returns (b: Book)
      modifies this`books
      ensures b == BookOf(old(Abs()), m) && Abs() == PutBook(old(Abs()), m, b)
    {
      if m !in books {
        books := books[m := Book([], [])];
      }
      b := books[m];
      assert books == old(books)[m := b];
    }

    method Quote(m: Symbol, taker: Side, size: int, limit: Option<int>) returns (q: Outcome<Quote>)
      modifies this`books
      ensures m !in repo.markets ==> q == Fail("market_not_found") && Abs() == old(Abs())
      ensures m in repo.markets ==>
                && Abs() == PutBook(old(Abs()), m, BookOf(old(Abs()), m))
                && q == Ok(QuoteOf(taker, limit, SideOf(BookOf(old(Abs()), m), Opposite(taker)), size,
                                   repo.markets[m].priceTickQ, repo.markets[m].baseDecimals, feeBps))
    {
      if m !in repo.markets {
        return Fail("market_not_found");
      }
      var ctx := repo.markets[m];
      var b := BookFor(m);
      var levels := if taker == BUY then b.asks else b.bids;
      var plan := SweepLevels(levels, taker, limit, size, Scale(ctx.priceTickQ, ctx.baseDecimals, feeBps));
      q := Ok(plan);
    }

    method Market(m: Symbol, taker: Side, size: int) returns (r: Outcome<(int, seq<Fill>)>)
      modifies this`books, repo`orders, repo`trades
      ensures m !in repo.markets ==> r == Fail("market_not_found") && Abs() == old(Abs())
      ensures m in repo.markets ==>
                var out := MarketOp(PutBook(old(Abs()), m, BookOf(old(Abs()), m)), m, taker, size);
                Abs() == out.0 && r == Ok((out.1, out.2))
    {
      if m !in repo.markets {
        return Fail("market_not_found");
      }
      var b := BookFor(m);
      ghost var start := Abs();
      var remaining := size;
      var fills: seq<Fill> := [];
      NothingExtended(MarketOp(start, m, taker, size));
      while remaining > 0 && SideOf(books[m], Opposite(taker)) != []
        invariant m in books
        invariant MarketOp(start, m, taker, size) == Extended(fills, MarketOp(Abs(), m, taker, remaining))
        decreases |SideOf(books[m], Opposite(taker))|, remaining
      {
        MarketUnfolds(Abs(), m, taker, remaining);
        var f := TakeHead(m, taker, remaining);
        ExtendedOneMore(fills, f, MarketOp(Abs(), m, taker, remaining - f.sizeBase));
        remaining := remaining - f.sizeBase;
        fills := fills + [f];
      }
      assert fills + [] == fills;
      r := Ok((remaining, fills));
    }

    /** The body of the market loop: trade, row, level. */
    method TakeHead(m: Symbol, taker: Side, remaining: int) returns (f: Fill)
      requires m in books && SideOf(books[m], Opposite(taker)) != []
      modifies this`books, repo`orders, repo`trades
      ensures (Abs(), f) == HitHead(old(Abs()), m, taker, remaining)
    {
      var level := SideOf(books[m], Opposite(taker))[0];
      var exec := if remaining < level.sizeBase then remaining else level.sizeBase;
      var left := level.sizeBase - exec;
      f := FillOf(level, exec);
      repo.AddTrade(MarketTrade(m, f));
      var found := repo.DecreaseOrderRemaining(level.id, exec, if left > 0 then PARTIALLY_FILLED else FILLED);
      var rest := SideOf(books[m], Opposite(taker))[1..];
      if left == 0 {
        books := books[m := WithSide(books[m], Opposite(taker), rest)];
      } else {
        books := books[m := WithSide(books[m], Opposite(taker), [level.(sizeBase := left)] + rest)];
      }
    }

    method Cancel(m: Symbol, id: Hash) returns (r: Outcome<bool>)
      modifies this`books, repo`orders
      ensures m !in repo.markets ==> r == Fail("market_not_found") && Abs() == old(Abs())
      ensures m in repo.markets ==> Abs() == CancelOp(old(Abs()), m, id).0 && r == Ok(CancelOp(old(Abs()), m, id).1)
    {
      if m !in repo.markets {
        return Fail("market_not_found");
      }
      var b := BookFor(m);
      var beforeB, beforeA := |b.bids|, |b.asks|;
      b := Book(Without(b.bids, id), Without(b.asks, id));
      books := books[m := b];
      var removed := beforeB != |b.bids| || beforeA != |b.asks|;
      if removed {
        var found := repo.CancelOrder(id);
      }
      assert Abs().books == CancelOp(old(Abs()), m, id).0.books;
      r := Ok(removed);
    }

    /** A new level: checks, removal of any earlier level with the hash, push, sort, row. */
    method Place(m: Symbol, t: Ticket, now: int) returns (r: Outcome<Hash>)
      modifies this`books, repo`orders
      ensures m !in repo.markets ==> r == Fail("market_not_found") && Abs() == old(Abs())
      ensures m in repo.markets ==> Abs() == PlaceOp(repo.markets[m], old(Abs()), m, t, now)
      ensures m in repo.markets ==>
                r == match Refusal(repo.markets[m], t) case Some(code) => Fail(code) case None => Ok(t.id)
    {
      if m !in repo.markets {
        return Fail("market_not_found");
      }
      var rules := repo.markets[m];
      if t.sizeBase <= 0 { return Fail("size_must_be_positive"); }
      if t.priceTicks <= 0 { return Fail("price_ticks_must_be_positive"); }
      if t.sizeBase < rules.minSizeB { return Fail("min_size_violation"); }
      var notionalQ := (t.priceTicks * rules.priceTickQ * t.sizeBase) / Pow10(rules.baseDecimals);
      if notionalQ < rules.minNotionalQ { return Fail("min_notional_violation"); }
      var gone := Cancel(m, t.id);
      PushOrder(m, OrderOf(t, now));
      repo.UpsertOrderPlaced(m, t, now);
      r := Ok(t.id);
    }

    /** Push on the order's side and re-sort it. */
    method PushOrder(m: Symbol, o: Order)
      modifies this`books
      ensures Abs() == Enqueue(old(Abs()), m, o)
    {
      var b := BookFor(m);
      if o.side == BUY {
        b := b.(bids := StableSort(BUY, b.bids + [o]));
      } else {
        b := b.(asks := StableSort(SELL, b.asks + [o]));
      }
      books := books[m := b];
      assert books == old(books)[m := b];
    }

    method HydrateLevel(m: Symbol, o: Order)
      modifies this`books
      ensures Abs() == HydrateOp(old(Abs()), m, o)
    {
      var b := BookFor(m);
      books := books[m := Drop(b, o.id)];
      assert Abs() == PutBook(old(Abs()), m, Drop(BookOf(old(Abs()), m), o.id));
      PushOrder(m, o);
    }

    method AttachRaw(m: Symbol, id: Hash, raw: Raw) returns (attached: bool)
      modifies this`books
      ensures Abs() == AttachRawOp(old(Abs()), m, id, raw).0 && attached == AttachRawOp(old(Abs()), m, id, raw).1
    {
      if m !in books {
        return false;
      }
      var hit := Locate(books[m], id);
      if hit.None? {
        return false;
      }
      books := books[m := Overwrite(books[m], WithRaw(hit.value, raw))];
      attached := true;
    }

    /** Reconcile a fill seen on chain, from the book if the order rests there, else from its row. */
    method ApplyExternalFill(m: Symbol, id: Hash, execBase: int, now: int) returns (r: Outcome<FillStatus>)
      requires execBase > 0
      modifies this`books, repo`orders
      ensures m !in repo.markets ==> r == Fail("market_not_found") && Abs() == old(Abs())
      ensures m in repo.markets ==>
                var out := ExternalFillOp(old(Abs()), m, id, execBase, id in Listing(old(repo.orders), m), now);
                Abs() == out.0 && r == Ok(out.1)
    {
      if m !in repo.markets {
        return Fail("market_not_found");
      }
      var level := if m in books then Locate(books[m], id) else None;
      if level.None? {
        var status := FillRowOnly(m, id, execBase, now);
        return Ok(status);
      }
      var exec := if execBase > level.value.sizeBase then level.value.sizeBase else execBase;
      var left := level.value.sizeBase - exec;
      var found := repo.DecreaseOrderRemaining(id, exec, if left > 0 then PARTIALLY_FILLED else FILLED);
      if left == 0 {
        books := books[m := Drop(books[m], id)];
      } else {
        books := books[m := Overwrite(books[m], level.value.(sizeBase := left))];
      }
      r := Ok(if left > 0 then Partial else Full);
    }

    /** Remove expired orders everywhere and expire their rows. */
    method SweepExpired(nowSec: int)
      modifies this`books, repo`orders
      ensures Abs() == SweepExpiredOp(old(Abs()), nowSec)
    {
      ghost var start := Abs();
      var todo := books.Keys;
      ghost var swept: set<Symbol> := {};
      NothingSwept(start, nowSec);
      while todo != {}
        invariant swept !! todo && swept + todo == start.books.Keys
        invariant Abs() == SweptSoFar(start, swept, nowSec)
        decreases todo
      {
        var m :| m in todo;
        SweepMarket(m, nowSec);
        SweptOneMore(start, swept, m, nowSec, repo.orders);
        swept, todo := swept + {m}, todo - {m};
      }
      assert swept == start.books.Keys;
    }

    method SweepMarket(m: Symbol, nowSec: int)
      requires m in books
      modifies this`books, repo`orders
      ensures books == old(books)[m := Pruned(old(books)[m], nowSec)]
      ensures repo.orders.Keys == old(repo.orders).Keys
      ensures forall h :: h in repo.orders ==>
                repo.orders[h] == if Lapsed(old(books), {m}, h, nowSec)
                                  then old(repo.orders)[h].(status := EXPIRED) else old(repo.orders)[h]
    {
      var aliveBids, expiredBids := SplitExpired(books[m].bids, nowSec);
      var aliveAsks, expiredAsks := SplitExpired(books[m].asks, nowSec);
      books := books[m := Book(aliveBids, aliveAsks)];
      ExpireRows(expiredBids + expiredAsks);
      LapsedInMarket(old(books), m, nowSec, expiredBids + expiredAsks);
    }

    method ExpireRows(expired: seq<Order>)
      modifies repo`orders
      ensures repo.orders.Keys == old(repo.orders).Keys
      ensures forall h :: h in repo.orders ==>
                repo.orders[h] == if Names(expired, h) then old(repo.orders)[h].(status := EXPIRED) else old(repo.orders)[h]
    {
      var i := 0;
      while i < |expired|
        invariant 0 <= i <= |expired|
        invariant repo.orders.Keys == old(repo.orders).Keys
        invariant forall h :: h in repo.orders ==>
                    repo.orders[h] == if Names(expired[..i], h) then old(repo.orders)[h].(status := EXPIRED)
                                      else old(repo.orders)[h]
      {
        repo.ExpireOrder(expired[i].id);
        NamesOneMore(expired, i);
        i := i + 1;
      }
      assert expired[..i] == expired;
    }

    /** Rebuild one market from its placed rows; reading number i of the clock is `clock(i)`. */
    method Rehydrate(m: Symbol, clock: nat -> int)
      modifies this`books
      ensures Abs() == RehydrateOp(old(Abs()), m, clock)
    {
      var ids := repo.ListPlacedBySymbol(m);
      ghost var start := Abs();
      var i := 0;
      while i < |ids|
        invariant 0 <= i <= |ids|
        invariant forall h :: h in ids ==> h in start.rows
        invariant Abs() == ReviveAll(start, m, ids[..i], clock)
      {
        ReviveOneMore(start, m, ids, i, clock);
        Revive(m, ids[i], clock(i));
        i := i + 1;
      }
      assert ids[..i] == ids;
    }

    /** One row back on the book, with its raw order when there is one. */
    method Revive(m: Symbol, id: Hash, now: int)
      requires id in repo.orders
      modifies this`books
      ensures Abs() == ReviveOp(old(Abs()), m, id, now)
    {
      var row := repo.orders[id];
      HydrateLevel(m, LevelOfRow(id, row, row.remainingBase, now));
      if row.raw.Some? {
        var attached := AttachRaw(m, id, row.raw.value);
      }
    }

    /** The branch for an order that is not in memory. */
    method FillRowOnly(m: Symbol, id: Hash, execBase: int, now: int) returns (status: FillStatus)
      requires execBase > 0 && Locate(BookOf(Abs(), m), id).None?
      modifies this`books, repo`orders
      ensures var out := ExternalFillOp(old(Abs()), m, id, execBase, id in Listing(old(repo.orders), m), now);
              Abs() == out.0 && status == out.1
    {
      var rem := repo.GetOrderRemaining(id);
      if rem.None? {
        return NotFound;
      }
      var placed := repo.ListPlacedBySymbol(m);
      var row := repo.orders[id];
      var exec := if execBase > rem.value then rem.value else execBase;
      var filledAll := exec >= rem.value;
      var found := repo.DecreaseOrderRemaining(id, exec, if filledAll then FILLED else PARTIALLY_FILLED);
      if !filledAll && id in placed {
        HydrateLevel(m, LevelOfRow(id, row, rem.value - exec, now));
      }
      status := DbOnly;
    }
  }
}
