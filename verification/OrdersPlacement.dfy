/** The placement service: checks in order, then book and row together or neither.
    Models apps/api/src/matching/orders-placement.service.ts:66-304. */
module OrdersPlacement {
  import opened Prelude
  import opened Levels
  import opened Desk
  import opened Coherence
  import opened Placement
  import opened OrderBooks
  import Sig = Signatures

  /** Taker fee policy; zero basis points and an empty recipient mean no demand. */
  datatype Policy = Policy(feeBps: nat, feeRecipient: Address)

  /** A placement request with what its collaborators will answer: whether the signature has a
      known shape, whether a balance guard refuses, whether the row write succeeds. */
  datatype Request = Request(order: ZxOrder, signatureOk: bool, id: Hash, maker: Address, postOnly: bool,
                             fundsRefusal: Option<string>, persists: bool)

  /** The attached order is normalised: a missing fee is written as zero. */
  function RawOf(o: ZxOrder): Raw {
    Raw(o.makerAmount, o.takerAmount, Some(if o.takerTokenFeeAmount.Some? then o.takerTokenFeeAmount.value else 0), o.expiry)
  }

  function PolicyRefusal(p: Policy, o: ZxOrder): Option<string> {
    var fee := if o.takerTokenFeeAmount.Some? then o.takerTokenFeeAmount.value else 0;
    if p.feeRecipient != "" && o.feeRecipient != p.feeRecipient then Some("invalid_fee_recipient")
    else if p.feeBps > 0 && fee < (o.takerAmount * p.feeBps) / 10000 then Some("taker_fee_too_low_for_policy")
    else None
  }

  /** Decided on the best opposite level alone. */
  predicate WouldCross(b: Book, side: Side, priceTicks: int) {
    if side == BUY then b.asks != [] && priceTicks >= b.asks[0].priceTicks
    else b.bids != [] && priceTicks <= b.bids[0].priceTicks
  }

  predicate SortedBook(b: Book) {
    Sorted(BUY, b.bids) && Sorted(SELL, b.asks)
  }

  predicate Meets(side: Side, priceTicks: int, opposite: int) {
    if side == BUY then priceTicks >= opposite else priceTicks <= opposite
  }

  /** Looking at the best level is looking at all of them. */
  lemma WouldCrossIff(b: Book, side: Side, priceTicks: int)
    requires SortedBook(b)
    ensures WouldCross(b, side, priceTicks)
       <==> exists o :: o in SideOf(b, Opposite(side)) && Meets(side, priceTicks, o.priceTicks)
  {
    var levels := SideOf(b, Opposite(side));
    if levels != [] {
      assert levels[0] in levels;
      forall o | o in levels && Meets(side, priceTicks, o.priceTicks) ensures WouldCross(b, side, priceTicks) {
        assert o == levels[0] || o in levels[1..];
      }
    }
  }

  /** No bid reaches an ask. */
  predicate Uncrossed(b: Book) {
    forall x, y :: x in b.bids && y in b.asks ==> x.priceTicks < y.priceTicks
  }

  /** Everything checked before the book is touched. */
  function Screen(p: Policy, markets: map<Symbol, Rules>, listing: seq<Symbol>, d: State, q: Request)
    : (r: Outcome<(Symbol, Ticket)>)
    ensures r.Ok? ==> r.value.0 in markets && r.value.1.id == q.id
  {
    if !q.signatureOk then Fail("invalid_signature_for_persistence")
    else if PolicyRefusal(p, q.order).Some? then Fail(PolicyRefusal(p, q.order).value)
    else
      match FindMarket(markets, listing, q.order.makerToken, q.order.takerToken)
      case None => Fail("market_not_found_for_tokens")
      case Some(m) =>
        match Derive(markets[m], q.order)
        case Fail(code) => Fail(code)
        case Ok(t) =>
          if q.fundsRefusal.Some? then Fail(q.fundsRefusal.value)
          else if q.postOnly && WouldCross(BookOf(d, m), t.side, t.priceTicks) then Fail("post_only_would_cross")
          else Ok((m, Ticket(q.id, q.maker, t.side, t.priceTicks, t.sizeBase)))
  }

  /** The desk after a screened, accepted request; undone when the row write fails. */
  function Settle(d: State, m: Symbol, t: Ticket, q: Request, now: int): (State, Outcome<Hash>) {
    var (attached, ok) := AttachRawOp(Placed(d, m, t, now), m, q.id, RawOf(q.order));
    if ok && q.persists then
      (attached.(rows := RawPersisted(attached.rows, q.id, RawOf(q.order))), Ok(q.id))
    else (RetractOp(attached, m, q.id), Fail("raw_persistence_failed"))
  }

  function PlaceOrderOp(p: Policy, markets: map<Symbol, Rules>, listing: seq<Symbol>, d: State, q: Request, now: int)
    : (State, Outcome<Hash>)
  {
    match Screen(p, markets, listing, d, q)
    case Fail(code) => (d, Fail(code))
    case Ok((m, t)) =>
      match Refusal(markets[m], t)
      case Some(code) => (d, Fail(code))
      case None => Settle(d, m, t, q, now)
  }

  // ---------------------------------------------------------------------------
  // What a placed or undone order leaves behind
  // ---------------------------------------------------------------------------

  lemma {:induction false} InsertThenRemove(side: Side, s: seq<Order>, o: Order)
    requires forall x :: x in s ==> x.id != o.id
    ensures Without(Insert(side, s, o), o.id) == s
  {
    if s == [] || !InOrder(side, s[0], o) {
      WithoutAbsent(s, o.id);
      assert ([o] + s)[1..] == s;
    } else {
      InsertThenRemove(side, s[1..], o);
      assert Insert(side, s, o)[1..] == Insert(side, s[1..], o);
      assert s == [s[0]] + s[1..];
    }
  }

  lemma {:induction false} ReplaceThenRemove(s: seq<Order>, id: Hash, o: Order)
    requires o.id == id
    ensures Without(Replace(s, id, o), id) == Without(s, id)
  {
    if s != [] {
      ReplaceThenRemove(s[1..], id, o);
      assert Replace(s, id, o)[1..] == Replace(s[1..], id, o);
    }
  }

  /** The ticket's order with the attached raw and its expiry. */
  function Resting(t: Ticket, raw: Raw, now: int): Order {
    WithRaw(OrderOf(t, now), raw)
  }

  /** The book with the ticket's order in place of any earlier level with its hash. */
  function Added(b: Book, t: Ticket, now: int): Book {
    WithSide(Drop(b, t.id), t.side, Insert(t.side, SideOf(Drop(b, t.id), t.side), OrderOf(t, now)))
  }

  /** The market's book once the order rests with its raw. */
  function BookWith(b: Book, t: Ticket, raw: Raw, now: int): Book {
    Overwrite(Added(b, t, now), Resting(t, raw, now))
  }

  lemma FindInserted(side: Side, s: seq<Order>, o: Order)
    requires forall x :: x in s ==> x.id != o.id
    ensures Find(Insert(side, s, o), o.id) == Some(o)
  {
  }

  lemma AddedIsFound(b: Book, t: Ticket, now: int)
    ensures Locate(Added(b, t, now), t.id) == Some(OrderOf(t, now))
  {
    FindInserted(t.side, SideOf(Drop(b, t.id), t.side), OrderOf(t, now));
  }

  lemma DropStaysSorted(b: Book, id: Hash)
    requires SortedBook(b)
    ensures SortedBook(Drop(b, id))
  {
    WithoutGood(BUY, b.bids, id);
    WithoutGood(SELL, b.asks, id);
  }

  lemma PutTwice(d: State, m: Symbol, b: Book, b': Book)
    ensures PutBook(PutBook(d, m, b), m, b') == PutBook(d, m, b')
    ensures BookOf(PutBook(d, m, b), m) == b
  {
    assert d.books[m := b][m := b'] == d.books[m := b'];
  }

  lemma PlacedShape(d: State, m: Symbol, t: Ticket, now: int)
    requires SortedBook(BookOf(d, m))
    ensures Placed(d, m, t, now)
         == PutBook(d, m, Added(BookOf(d, m), t, now)).(rows := Upserted(CancelOp(d, m, t.id).0.rows, m, t, now))
  {
    var b, rows := Drop(BookOf(d, m), t.id), CancelOp(d, m, t.id).0.rows;
    DropStaysSorted(BookOf(d, m), t.id);
    PushThenSort(t.side, SideOf(b, t.side), OrderOf(t, now));
    var d0 := d.(rows := rows);
    PutTwice(d0, m, b, Added(BookOf(d, m), t, now));
    CancelShape(d, m, t.id);
  }

  lemma CancelShape(d: State, m: Symbol, id: Hash)
    ensures CancelOp(d, m, id).0 == PutBook(d.(rows := CancelOp(d, m, id).0.rows), m, Drop(BookOf(d, m), id))
  {
  }

  lemma SettledBook(d: State, m: Symbol, t: Ticket, raw: Raw, now: int)
    requires SortedBook(BookOf(d, m))
    ensures AttachRawOp(Placed(d, m, t, now), m, t.id, raw)
         == (PutBook(d, m, BookWith(BookOf(d, m), t, raw, now))
             .(rows := Upserted(CancelOp(d, m, t.id).0.rows, m, t, now)), true)
  {
    var rows := Upserted(CancelOp(d, m, t.id).0.rows, m, t, now);
    var added := Added(BookOf(d, m), t, now);
    PlacedShape(d, m, t, now);
    AddedIsFound(BookOf(d, m), t, now);
    PutTwice(d.(rows := rows), m, added, BookWith(BookOf(d, m), t, raw, now));
    AttachedShape(Placed(d, m, t, now), m, OrderOf(t, now), raw);
  }

  lemma AttachedShape(d: State, m: Symbol, o: Order, raw: Raw)
    requires Locate(BookOf(d, m), o.id) == Some(o)
    ensures AttachRawOp(d, m, o.id, raw) == (PutBook(d, m, Overwrite(BookOf(d, m), WithRaw(o, raw))), true)
  {
  }

  lemma RetractShape(d: State, m: Symbol, id: Hash)
    ensures RetractOp(d, m, id)
         == PutBook(d, m, Drop(BookOf(d, m), id)).(rows := StatusSet(d.rows, id, CANCELLED))
  {
  }

  lemma RemovedAgain(b: Book, t: Ticket, raw: Raw, now: int)
    ensures Drop(BookWith(b, t, raw, now), t.id) == Drop(b, t.id)
  {
    var o, o' := OrderOf(t, now), Resting(t, raw, now);
    var clean := Drop(b, t.id);
    var s := SideOf(clean, t.side);
    WithoutAbsent(clean.bids, t.id);
    WithoutAbsent(clean.asks, t.id);
    FindInserted(t.side, s, o);
    InsertThenRemove(t.side, s, o);
    ReplaceThenRemove(Insert(t.side, s, o), t.id, o');
  }

  /** When the raw order cannot be persisted nothing of the placement survives: the book is what
      removing the hash leaves, its row is cancelled, every other row, book and trade is as before. */
  lemma RollbackUndoes(d: State, m: Symbol, t: Ticket, q: Request, now: int)
    requires SortedBook(BookOf(d, m)) && q.id == t.id && !q.persists
    ensures Settle(d, m, t, q, now).1 == Fail("raw_persistence_failed")
    ensures Undone(d, Settle(d, m, t, q, now).0, m, t.id)
  {
    RollbackShape(d, m, t, q, now);
    RollbackRows(d, m, t, now);
  }

  predicate Undone(d: State, d': State, m: Symbol, id: Hash) {
    && d'.books == d.books[m := Drop(BookOf(d, m), id)]
    && d'.trades == d.trades
    && id in d'.rows && d'.rows[id].status == CANCELLED
    && d'.rows.Keys == d.rows.Keys + {id}
    && forall h :: h in d.rows && h != id ==> d'.rows[h] == d.rows[h]
  }

  lemma RollbackRows(d: State, m: Symbol, t: Ticket, now: int)
    ensures var rows := StatusSet(Upserted(CancelOp(d, m, t.id).0.rows, m, t, now), t.id, CANCELLED);
            Undone(d, PutBook(d, m, Drop(BookOf(d, m), t.id)).(rows := rows), m, t.id)
  {
  }

  lemma RollbackShape(d: State, m: Symbol, t: Ticket, q: Request, now: int)
    requires SortedBook(BookOf(d, m)) && q.id == t.id && !q.persists
    ensures Settle(d, m, t, q, now)
         == (PutBook(d, m, Drop(BookOf(d, m), t.id))
             .(rows := StatusSet(Upserted(CancelOp(d, m, t.id).0.rows, m, t, now), t.id, CANCELLED)),
             Fail("raw_persistence_failed"))
  {
    var raw := RawOf(q.order);
    SettledBook(d, m, t, raw, now);
    RemovedAgain(BookOf(d, m), t, raw, now);
    var d1 := AttachRawOp(Placed(d, m, t, now), m, t.id, raw).0;
    RetractShape(d1, m, t.id);
    PutTwice(d.(rows := d1.rows), m, BookWith(BookOf(d, m), t, raw, now), Drop(BookOf(d, m), t.id));
  }

  predicate Rests(markets: map<Symbol, Rules>, listing: seq<Symbol>, d: State, q: Request, now: int, d': State,
                  m: Symbol, t: Ticket)
  {
    && m in markets
    && FindMarket(markets, listing, q.order.makerToken, q.order.takerToken) == Some(m)
    && t.sizeBase > 0 && t.priceTicks > 0 && Derive(markets[m], q.order) == Ok(Terms(t.side, t.sizeBase, t.priceTicks))
    && t.id == q.id && t.maker == q.maker
    && d'.books == d.books[m := BookWith(BookOf(d, m), t, RawOf(q.order), now)]
    && q.id in d'.rows && d'.rows[q.id].status == PLACED && d'.rows[q.id].raw == Some(RawOf(q.order))
  }

  /** Acceptance leaves exactly one new order on one book, with the request's terms and raw, and
      a placed row that carries the raw. */
  lemma AcceptedOrderRests(p: Policy, markets: map<Symbol, Rules>, listing: seq<Symbol>, d: State, q: Request, now: int)
    requires forall m :: SortedBook(BookOf(d, m))
    requires PlaceOrderOp(p, markets, listing, d, q, now).1.Ok?
    ensures exists m, t :: Rests(markets, listing, d, q, now, PlaceOrderOp(p, markets, listing, d, q, now).0, m, t)
  {
    var m, t := Accepted(p, markets, listing, d, q, now);
    SettledRows(d, m, t, q, now);
    assert Rests(markets, listing, d, q, now, Settle(d, m, t, q, now).0, m, t);
  }

  lemma SettledRows(d: State, m: Symbol, t: Ticket, q: Request, now: int)
    requires SortedBook(BookOf(d, m)) && t.id == q.id && Settle(d, m, t, q, now).1.Ok?
    ensures var d' := Settle(d, m, t, q, now).0;
            && d'.books == d.books[m := BookWith(BookOf(d, m), t, RawOf(q.order), now)]
            && q.id in d'.rows && d'.rows[q.id].status == PLACED && d'.rows[q.id].raw == Some(RawOf(q.order))
  {
    SettledBook(d, m, t, RawOf(q.order), now);
  }

  lemma PlaceCases(p: Policy, markets: map<Symbol, Rules>, listing: seq<Symbol>, d: State, q: Request, now: int)
    ensures var screened := Screen(p, markets, listing, d, q);
            PlaceOrderOp(p, markets, listing, d, q, now)
            == if screened.Fail? then (d, Fail(screened.code))
               else
                 var (m, t) := screened.value;
                 if Refusal(markets[m], t).Some? then (d, Fail(Refusal(markets[m], t).value)) else Settle(d, m, t, q, now)
  {
  }

  lemma ScreenedTerms(p: Policy, markets: map<Symbol, Rules>, listing: seq<Symbol>, d: State, q: Request)
    requires Screen(p, markets, listing, d, q).Ok?
    ensures var (m, t) := Screen(p, markets, listing, d, q).value;
            && FindMarket(markets, listing, q.order.makerToken, q.order.takerToken) == Some(m)
            && t.sizeBase >= 0 && t.priceTicks >= 0 && t.id == q.id && t.maker == q.maker
            && Derive(markets[m], q.order) == Ok(Terms(t.side, t.sizeBase, t.priceTicks))
            && (q.postOnly ==> !WouldCross(BookOf(d, m), t.side, t.priceTicks))
  {
  }

  /** A request that gets past every check is settled with the terms read off its amounts. */
  lemma Accepted(p: Policy, markets: map<Symbol, Rules>, listing: seq<Symbol>, d: State, q: Request, now: int)
    returns (m: Symbol, t: Ticket)
    requires PlaceOrderOp(p, markets, listing, d, q, now).0 != d || PlaceOrderOp(p, markets, listing, d, q, now).1.Ok?
    ensures m in markets && FindMarket(markets, listing, q.order.makerToken, q.order.takerToken) == Some(m)
    ensures t.sizeBase > 0 && t.priceTicks > 0 && t.id == q.id && t.maker == q.maker
    ensures Derive(markets[m], q.order) == Ok(Terms(t.side, t.sizeBase, t.priceTicks))
    ensures Refusal(markets[m], t).None?
    ensures q.postOnly ==> !WouldCross(BookOf(d, m), t.side, t.priceTicks)
    ensures PlaceOrderOp(p, markets, listing, d, q, now) == Settle(d, m, t, q, now)
  {
    PlaceCases(p, markets, listing, d, q, now);
    ScreenedTerms(p, markets, listing, d, q);
    m, t := Screen(p, markets, listing, d, q).value.0, Screen(p, markets, listing, d, q).value.1;
    AcceptedIsPositive(markets[m], t);
  }

  /** And on a coherent desk, acceptance under a safe hash keeps it coherent. */
  lemma SettledCoherent(d: State, m: Symbol, t: Ticket, q: Request, now: int)
    requires Coherent(d) && t.sizeBase > 0 && SafeToPlace(d, m, t) && t.id == q.id
    requires Settle(d, m, t, q, now).1.Ok?
    ensures Coherent(Settle(d, m, t, q, now).0)
  {
    SafePlaceKeeps(d, m, t, now);
    AttachRawKeeps(Placed(d, m, t, now), m, t.id, RawOf(q.order));
    RawColumnIsMoot(AttachRawOp(Placed(d, m, t, now), m, t.id, RawOf(q.order)).0, q.id, RawOf(q.order));
  }

  lemma RawColumnIsMoot(d: State, id: Hash, raw: Raw)
    requires Coherent(d)
    ensures Coherent(d.(rows := RawPersisted(d.rows, id, raw)))
  {
    var rows' := RawPersisted(d.rows, id, raw);
    forall m | m in d.books ensures BookBacked(rows', m, d.books[m]) {
    }
  }

  // ---------------------------------------------------------------------------
  // Exactly when a request keeps the desk coherent
  // ---------------------------------------------------------------------------

  /** What a caller would have to look up before a request: one that is stored needs a hash that is new
      or whose row says the same already; one whose raw order cannot be stored is taken back, and must
      not rest under another market. A request refused on the way does no harm. */
  predicate SafeRequest(p: Policy, markets: map<Symbol, Rules>, listing: seq<Symbol>, d: State, q: Request) {
    match Screen(p, markets, listing, d, q)
    case Fail(_) => true
    case Ok((m, t)) =>
      Refusal(markets[m], t).Some? || if q.persists then SafeToPlace(d, m, t) else !RestsElsewhere(d, m, t.id)
  }

  lemma RestingIsInBook(b: Book, t: Ticket, raw: Raw, now: int)
    ensures Resting(t, raw, now) in SideOf(BookWith(b, t, raw, now), t.side)
  {
    var s := SideOf(Added(b, t, now), t.side);
    var k :| 0 <= k < |s| && s[k] == OrderOf(t, now);
    assert Replace(s, t.id, Resting(t, raw, now))[k] == Resting(t, raw, now);
    AddedIsFound(b, t, now);
  }

  /** Storing under a known hash changes that row's status and raw order and nothing else of it. */
  lemma KnownRowKeepsTerms(d: State, m: Symbol, t: Ticket, raw: Raw, now: int)
    requires t.id in d.rows
    ensures var rows := RawPersisted(Upserted(CancelOp(d, m, t.id).0.rows, m, t, now), t.id, raw);
            t.id in rows && rows[t.id] == d.rows[t.id].(status := PLACED, raw := Some(raw))
  {
  }

  lemma UnsafeSettleBreaks(d: State, m: Symbol, t: Ticket, q: Request, now: int)
    requires Coherent(d) && q.id == t.id && q.persists && !SafeToPlace(d, m, t)
    ensures !Coherent(Settle(d, m, t, q, now).0)
  {
    var raw := RawOf(q.order);
    BookOfBacked(d, m);
    SettledBook(d, m, t, raw, now);
    RestingIsInBook(BookOf(d, m), t, raw, now);
    KnownRowKeepsTerms(d, m, t, raw, now);
    var d' := Settle(d, m, t, q, now).0;
    assert !Backed(d'.rows, m, Resting(t, raw, now));
    assert !BookBacked(d'.rows, m, d'.books[m]);
  }

  lemma SettleKeepsIff(d: State, m: Symbol, t: Ticket, q: Request, now: int)
    requires Coherent(d) && t.sizeBase > 0 && q.id == t.id && q.persists
    ensures Settle(d, m, t, q, now).1 == Ok(q.id)
    ensures Coherent(Settle(d, m, t, q, now).0) <==> SafeToPlace(d, m, t)
  {
    BookOfBacked(d, m);
    SettledBook(d, m, t, RawOf(q.order), now);
    if SafeToPlace(d, m, t) {
      SettledCoherent(d, m, t, q, now);
    } else {
      UnsafeSettleBreaks(d, m, t, q, now);
    }
  }

  /** An undone placement leaves every other market's book alone and cancels the row. */
  lemma UndoneBreaks(d: State, d': State, m: Symbol, id: Hash, m': Symbol)
    requires Undone(d, d', m, id) && m' in d.books && m' != m && Holds(d.books[m'], id)
    ensures !Coherent(d')
  {
    var o := Locate(d.books[m'], id).value;
    assert d'.books[m'] == d.books[m'] && !Backed(d'.rows, m', o);
    assert !BookBacked(d'.rows, m', d'.books[m']);
  }

  lemma UndoneKeeps(d: State, d': State, m: Symbol, id: Hash)
    requires Coherent(d) && Undone(d, d', m, id) && NoneNegative(d'.rows) && !RestsElsewhere(d, m, id)
    ensures Coherent(d')
  {
    BookOfBacked(d, m);
    DropBacked(d.rows, m, BookOf(d, m), id);
    RowOfAbsentId(d.rows, d'.rows, m, Drop(BookOf(d, m), id), id);
    forall m' | m' in d'.books ensures BookBacked(d'.rows, m', d'.books[m']) {
      if m' != m {
        RowOfAbsentId(d.rows, d'.rows, m', d.books[m'], id);
      }
    }
  }

  lemma UpsertNotNegative(rows: map<Hash, Row>, m: Symbol, t: Ticket, now: int)
    requires NoneNegative(rows) && t.sizeBase > 0
    ensures NoneNegative(StatusSet(Upserted(rows, m, t, now), t.id, CANCELLED))
  {
  }

  lemma RollbackNotNegative(d: State, m: Symbol, t: Ticket, q: Request, now: int)
    requires Coherent(d) && t.sizeBase > 0 && q.id == t.id && !q.persists
    ensures NoneNegative(Settle(d, m, t, q, now).0.rows)
  {
    BookOfBacked(d, m);
    CancelKeeps(d, m, t.id);
    UpsertNotNegative(CancelOp(d, m, t.id).0.rows, m, t, now);
    RollbackShape(d, m, t, q, now);
  }

  lemma RollbackKeepsIff(d: State, m: Symbol, t: Ticket, q: Request, now: int)
    requires Coherent(d) && t.sizeBase > 0 && q.id == t.id && !q.persists
    ensures Coherent(Settle(d, m, t, q, now).0) <==> !RestsElsewhere(d, m, t.id)
  {
    BookOfBacked(d, m);
    RollbackUndoes(d, m, t, q, now);
    if RestsElsewhere(d, m, t.id) {
      var m' :| m' in d.books && m' != m && Holds(d.books[m'], t.id);
      UndoneBreaks(d, Settle(d, m, t, q, now).0, m, t.id, m');
    } else {
      RollbackNotNegative(d, m, t, q, now);
      UndoneKeeps(d, Settle(d, m, t, q, now).0, m, t.id);
    }
  }

  /** Exactly when the placement service leaves a coherent desk coherent, whatever becomes of the
      request: accepted, refused or rolled back. */
  lemma PlacementKeepsIff(p: Policy, markets: map<Symbol, Rules>, listing: seq<Symbol>, d: State, q: Request, now: int)
    requires Coherent(d)
    ensures Coherent(PlaceOrderOp(p, markets, listing, d, q, now).0) <==> SafeRequest(p, markets, listing, d, q)
  {
    PlaceCases(p, markets, listing, d, q, now);
    if Screen(p, markets, listing, d, q).Ok? {
      var (m, t) := Screen(p, markets, listing, d, q).value;
      ScreenedTerms(p, markets, listing, d, q);
      if Refusal(markets[m], t).None? {
        AcceptedIsPositive(markets[m], t);
        if q.persists {
          SettleKeepsIff(d, m, t, q, now);
        } else {
          RollbackKeepsIff(d, m, t, q, now);
        }
      }
    }
  }

  /** So a request under a hash no row knows keeps the desk coherent, whatever becomes of it. */
  lemma NewHashKeepsCoherent(p: Policy, markets: map<Symbol, Rules>, listing: seq<Symbol>, d: State, q: Request, now: int)
    requires Coherent(d) && q.id !in d.rows
    ensures Coherent(PlaceOrderOp(p, markets, listing, d, q, now).0)
  {
    PlacementKeepsIff(p, markets, listing, d, q, now);
    if Screen(p, markets, listing, d, q).Ok? {
      NotElsewhere(d, Screen(p, markets, listing, d, q).value.0, q.id);
    }
  }

  /** Post-only placement never crosses a book that was not crossed. */
  lemma PostOnlyKeepsUncrossed(p: Policy, markets: map<Symbol, Rules>, listing: seq<Symbol>, d: State, q: Request,
                               now: int, m: Symbol)
    requires (forall x :: SortedBook(BookOf(d, x))) && q.postOnly && Uncrossed(BookOf(d, m))
    ensures Uncrossed(BookOf(PlaceOrderOp(p, markets, listing, d, q, now).0, m))
  {
    if PlaceOrderOp(p, markets, listing, d, q, now).0 != d {
      var m', t := Accepted(p, markets, listing, d, q, now);
      if m == m' {
        NoLevelMet(BookOf(d, m), t);
        InsertedStaysUncrossed(BookOf(d, m), t, RawOf(q.order), now);
      }
      SettledBookOf(d, m', t, q, now, m);
    }
  }

  lemma NoLevelMet(b: Book, t: Ticket)
    requires SortedBook(b) && !WouldCross(b, t.side, t.priceTicks)
    ensures forall o :: o in SideOf(b, Opposite(t.side)) ==> !Meets(t.side, t.priceTicks, o.priceTicks)
  {
    WouldCrossIff(b, t.side, t.priceTicks);
  }

  lemma SettledBookOf(d: State, m': Symbol, t: Ticket, q: Request, now: int, m: Symbol)
    requires SortedBook(BookOf(d, m')) && q.id == t.id
    ensures BookOf(Settle(d, m', t, q, now).0, m)
         == if m != m' then BookOf(d, m)
            else if q.persists then BookWith(BookOf(d, m), t, RawOf(q.order), now)
            else Drop(BookOf(d, m), t.id)
  {
    RollbackOrBook(d, m', t, q, now);
  }

  lemma RollbackOrBook(d: State, m: Symbol, t: Ticket, q: Request, now: int)
    requires SortedBook(BookOf(d, m)) && q.id == t.id
    ensures Settle(d, m, t, q, now).0.books
         == d.books[m := if q.persists then BookWith(BookOf(d, m), t, RawOf(q.order), now) else Drop(BookOf(d, m), t.id)]
  {
    if q.persists {
      SettledBook(d, m, t, RawOf(q.order), now);
    } else {
      RollbackShape(d, m, t, q, now);
    }
  }

  /** Whose orders the new book holds. */
  lemma MembersOfBookWith(b: Book, t: Ticket, raw: Raw, now: int)
    ensures forall o :: o in SideOf(BookWith(b, t, raw, now), t.side) ==> o.priceTicks == t.priceTicks || o in SideOf(b, t.side)
    ensures forall o :: o in SideOf(BookWith(b, t, raw, now), Opposite(t.side)) ==> o in SideOf(b, Opposite(t.side))
  {
    var added, o' := Added(b, t, now), Resting(t, raw, now);
    AddedIsFound(b, t, now);
    FindInserted(t.side, SideOf(Drop(b, t.id), t.side), OrderOf(t, now));
    if t.side == BUY {
      assert Overwrite(added, o').bids == Replace(added.bids, t.id, o');
    } else {
      assert Find(added.bids, t.id).None?;
      assert Overwrite(added, o').asks == Replace(added.asks, t.id, o');
    }
  }

  lemma InsertedStaysUncrossed(b: Book, t: Ticket, raw: Raw, now: int)
    requires Uncrossed(b)
    requires forall o :: o in SideOf(b, Opposite(t.side)) ==> !Meets(t.side, t.priceTicks, o.priceTicks)
    ensures Uncrossed(BookWith(b, t, raw, now))
  {
    MembersOfBookWith(b, t, raw, now);
  }

  // ---------------------------------------------------------------------------
  // The service
  // ---------------------------------------------------------------------------

  class OrdersPlacementService {
    const ob: OrderBookService
    const policy: Policy
    const listing: seq<Symbol>

    constructor (ob: OrderBookService, policy: Policy, listing: seq<Symbol>)
      ensures this.ob == ob && this.policy == policy && this.listing == listing
    {
      this.ob, this.policy, this.listing := ob, policy, listing;
    }

    /** `signature` decides whether the request's signature has a known shape. */
    method Place(q: Request, signature: Sig.SigInput, now: int) returns (r: Outcome<Hash>)
      requires Coherent(ob.Abs())
      modifies ob`books, ob.repo`orders, ob.repo`signatures
      ensures (ob.Abs(), r)
           == PlaceOrderOp(policy, ob.repo.markets, listing, old(ob.Abs()),
                           q.(signatureOk := Sig.SignatureToTuple(signature).Some?), now)
      ensures ob.repo.signatures
           == if r.Ok? then old(ob.repo.signatures)[q.id := Sig.Packed(Sig.SignatureToTuple(signature).value)]
              else old(ob.repo.signatures)
    {
      if Sig.SignatureToTuple(signature).None? {
        return Fail("invalid_signature_for_persistence");
      }
      var broken := PolicyRefusal(policy, q.order);
      if broken.Some? {
        return Fail(broken.value);
      }
      var market := FindMarket(ob.repo.markets, listing, q.order.makerToken, q.order.takerToken);
      if market.None? {
        return Fail("market_not_found_for_tokens");
      }
      var m := market.value;
      var derived := Derive(ob.repo.markets[m], q.order);
      if derived.Fail? {
        return Fail(derived.code);
      }
      if q.fundsRefusal.Some? {
        return Fail(q.fundsRefusal.value);
      }
      var terms := derived.value;
      if q.postOnly && m in ob.books && WouldCross(ob.books[m], terms.side, terms.priceTicks) {
        return Fail("post_only_would_cross");
      }
      var t := Ticket(q.id, q.maker, terms.side, terms.priceTicks, terms.sizeBase);
      assert Screen(policy, ob.repo.markets, listing, ob.Abs(), q.(signatureOk := true)) == Ok((m, t));
      r := Book(m, t, q, signature, now);
    }

    /** Past the checks: book and row, then raw order and signature. */
    method Book(m: Symbol, t: Ticket, q: Request, signature: Sig.SigInput, now: int) returns (r: Outcome<Hash>)
      requires SortedBook(BookOf(ob.Abs(), m)) && m in ob.repo.markets && t.id == q.id && Sig.SignatureToTuple(signature).Some?
      modifies ob`books, ob.repo`orders, ob.repo`signatures
      ensures (ob.Abs(), r)
           == match Refusal(ob.repo.markets[m], t)
              case Some(code) => (old(ob.Abs()), Fail(code))
              case None => Settle(old(ob.Abs()), m, t, q, now)
      ensures ob.repo.signatures
           == if r.Ok? then old(ob.repo.signatures)[q.id := Sig.Packed(Sig.SignatureToTuple(signature).value)]
              else old(ob.repo.signatures)
    {
      var placed := ob.Place(m, t, now);
      if placed.Fail? {
        return Fail(placed.code);
      }
      SettledBook(old(ob.Abs()), m, t, RawOf(q.order), now);
      r := AttachOrUndo(m, q, signature);
    }

    /** Raw on the level and raw and signature on the row, or neither level nor live row. */
    method AttachOrUndo(m: Symbol, q: Request, signature: Sig.SigInput) returns (r: Outcome<Hash>)
      requires m in ob.repo.markets
      modifies ob`books, ob.repo`orders, ob.repo`signatures
      ensures var (d, ok) := AttachRawOp(old(ob.Abs()), m, q.id, RawOf(q.order));
              (ob.Abs(), r)
              == if ok && q.persists && Sig.SignatureToTuple(signature).Some? && q.id in old(ob.repo.orders)
                 then (d.(rows := RawPersisted(d.rows, q.id, RawOf(q.order))), Ok(q.id))
                 else (RetractOp(d, m, q.id), Fail("raw_persistence_failed"))
      ensures ob.repo.signatures
           == if r.Ok? then old(ob.repo.signatures)[q.id := Sig.Packed(Sig.SignatureToTuple(signature).value)]
              else old(ob.repo.signatures)
    {
      var attached := ob.AttachRaw(m, q.id, RawOf(q.order));
      if attached && q.persists {
        var stored := ob.repo.AttachRawToOrder(q.id, RawOf(q.order), signature);
        if stored {
          return Ok(q.id);
        }
      }
      Undo(m, q.id);
      r := Fail("raw_persistence_failed");
    }

    /** Off the book, and the row cancelled whatever the book held. */
    method Undo(m: Symbol, id: Hash)
      requires m in ob.repo.markets
      modifies ob`books, ob.repo`orders
      ensures ob.Abs() == RetractOp(old(ob.Abs()), m, id)
    {
      var removed := ob.Cancel(m, id);
      var cancelled := ob.repo.CancelOrder(id);
    }
  }
}
