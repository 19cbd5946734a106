/** Who is served first: an accepted order joins the back of its price, the clock never runs behind
    the books, and a sweep takes whole orders in turn.
    Models apps/api/src/matching/orderbook.service.ts:52-65 and 344-396. */
module TimePriority {
  import opened Prelude
  import opened Levels
  import opened Sweep
  import opened Desk
  import opened Coherence
  import opened Rehydration
  import DeskOutcomes

  // ---------------------------------------------------------------------------
  // The accepted order
  // ---------------------------------------------------------------------------

  function Others(ids: seq<Hash>, id: Hash): seq<Hash> {
    if ids == [] then [] else (if ids[0] == id then [] else [ids[0]]) + Others(ids[1..], id)
  }

  lemma {:induction false} AtPriceWithout(s: seq<Order>, id: Hash, priceTicks: int)
    ensures AtPrice(Without(s, id), priceTicks) == Others(AtPrice(s, priceTicks), id)
  {
    if s != [] {
      AtPriceWithout(s[1..], id, priceTicks);
      if s[0].id != id {
        AtPriceCons(s[0], Without(s[1..], id), priceTicks);
      }
      if s[0].priceTicks == priceTicks {
        assert AtPrice(s, priceTicks)[1..] == AtPrice(s[1..], priceTicks);
      } else {
        assert AtPrice(s, priceTicks) == AtPrice(s[1..], priceTicks);
      }
    }
  }

  lemma PlacedBook(r: Rules, d: State, m: Symbol, t: Ticket, now: int)
    requires Refusal(r, t).None?
    ensures var b := Drop(BookOf(d, m), t.id);
            BookOf(PlaceOp(r, d, m, t, now), m)
            == WithSide(b, t.side, StableSort(t.side, SideOf(b, t.side) + [Order(t.id, t.maker, t.side, t.priceTicks, t.sizeBase, now, None, 0)]))
  {
  }

  /** The side of the book after placing: the earlier level with the hash is gone and the new one stands
      where the comparator puts it. */
  lemma PlacedSide(r: Rules, d: State, m: Symbol, t: Ticket, now: int, side: Side)
    requires Coherent(d) && Refusal(r, t).None?
    ensures var o := Order(t.id, t.maker, t.side, t.priceTicks, t.sizeBase, now, None, 0);
            SideOf(BookOf(PlaceOp(r, d, m, t, now), m), side)
            == if side == t.side then Insert(side, Without(SideOf(BookOf(d, m), side), t.id), o)
               else Without(SideOf(BookOf(d, m), side), t.id)
  {
    BookOfBacked(d, m);
    PlacedBook(r, d, m, t, now);
    WithoutGood(t.side, SideOf(BookOf(d, m), t.side), t.id);
    PushThenSort(t.side, Without(SideOf(BookOf(d, m), t.side), t.id),
                 Order(t.id, t.maker, t.side, t.priceTicks, t.sizeBase, now, None, 0));
  }

  /** When no resting order claims to have come later than `now`, an order accepted at `now` goes behind
      every order of its price, and nobody else moves. */
  lemma PlacedJoinsTheBack(r: Rules, d: State, m: Symbol, t: Ticket, now: int, side: Side, priceTicks: int)
    requires Coherent(d) && Refusal(r, t).None? && NotAfter(BookOf(d, m), now)
    ensures AtPrice(SideOf(BookOf(PlaceOp(r, d, m, t, now), m), side), priceTicks)
         == Others(AtPrice(SideOf(BookOf(d, m), side), priceTicks), t.id)
            + if side == t.side && priceTicks == t.priceTicks then [t.id] else []
  {
    var s := Without(SideOf(BookOf(d, m), side), t.id);
    PlacedSide(r, d, m, t, now, side);
    AtPriceWithout(SideOf(BookOf(d, m), side), t.id, priceTicks);
    if side == t.side {
      BookOfBacked(d, m);
      WithoutGood(side, SideOf(BookOf(d, m), side), t.id);
      InsertJoinsTheBack(side, s, Order(t.id, t.maker, t.side, t.priceTicks, t.sizeBase, now, None, 0), priceTicks);
    }
  }

  /** The level with a ticket's terms, come at `now`. */
  predicate RestsSince(b: Book, t: Ticket, now: int) {
    Locate(b, t.id) == Some(Order(t.id, t.maker, t.side, t.priceTicks, t.sizeBase, now, None, 0))
  }

  /** Only the row with this id differs. */
  predicate OtherRowsKept(rows: map<Hash, Row>, rows': map<Hash, Row>, id: Hash) {
    && (forall h :: h in rows && h != id ==> h in rows' && rows'[h] == rows[h])
    && (forall h :: h in rows' && h != id ==> h in rows)
  }

  /** What an accepted ticket leaves on its market: one level with its terms, and every other as before. */
  lemma PlacedLevel(r: Rules, d: State, m: Symbol, t: Ticket, now: int)
    requires Coherent(d) && Refusal(r, t).None?
    ensures RestsSince(BookOf(PlaceOp(r, d, m, t, now), m), t, now)
    ensures DeskOutcomes.OtherLevelsKept(BookOf(d, m), BookOf(PlaceOp(r, d, m, t, now), m), t.id)
  {
    var o := Order(t.id, t.maker, t.side, t.priceTicks, t.sizeBase, now, None, 0);
    PlacedSide(r, d, m, t, now, BUY);
    PlacedSide(r, d, m, t, now, SELL);
    assert o in SideOf(BookOf(PlaceOp(r, d, m, t, now), m), t.side);
  }

  /** The ticket's row is new with its terms, or the old one with its status reset; no other row differs. */
  predicate RowTold(rows: map<Hash, Row>, rows': map<Hash, Row>, m: Symbol, t: Ticket, now: int) {
    && t.id in rows' && OtherRowsKept(rows, rows', t.id)
    && rows'[t.id] == if t.id in rows then rows[t.id].(status := PLACED)
                      else Row(m, t.maker, t.side, t.priceTicks, t.sizeBase, t.sizeBase, PLACED, now, None)
  }

  lemma UpsertedRow(rows: map<Hash, Row>, rows1: map<Hash, Row>, m: Symbol, t: Ticket, now: int)
    requires rows1 == rows || rows1 == StatusSet(rows, t.id, CANCELLED)
    ensures RowTold(rows, Upserted(rows1, m, t, now), m, t, now)
  {
  }

  lemma CancelledRows(d: State, m: Symbol, id: Hash)
    ensures CancelOp(d, m, id).0.rows == d.rows || CancelOp(d, m, id).0.rows == StatusSet(d.rows, id, CANCELLED)
    ensures CancelOp(d, m, id).0.trades == d.trades
  {
  }

  /** An accepted ticket's row, and no trade. */
  lemma PlacedRow(r: Rules, d: State, m: Symbol, t: Ticket, now: int)
    requires Refusal(r, t).None?
    ensures RowTold(d.rows, PlaceOp(r, d, m, t, now).rows, m, t, now)
    ensures PlaceOp(r, d, m, t, now).trades == d.trades
  {
    CancelledRows(d, m, t.id);
    UpsertedRow(d.rows, CancelOp(d, m, t.id).0.rows, m, t, now);
  }

  /** No other market changes. */
  lemma PlacedInOneMarket(r: Rules, d: State, m: Symbol, t: Ticket, now: int, m': Symbol)
    requires m' in d.books && m' != m
    ensures m' in PlaceOp(r, d, m, t, now).books && PlaceOp(r, d, m, t, now).books[m'] == d.books[m']
  {
  }

  // ---------------------------------------------------------------------------
  // The clock and the books
  // ---------------------------------------------------------------------------

  /** No resting order of any market claims to have come after `t`. */
  predicate UpTo(d: State, t: int) {
    forall m :: m in d.books ==> NotAfter(d.books[m], t)
  }

  /** Every clock reading of the operation lies between `from` and `to`. */
  ghost predicate ReadsWithin(d: State, op: Op, from: int, to: int) {
    from <= to &&
    match op
    case Place(_, _, _, now) => from <= now <= to
    case ExternalFill(_, _, _, now) => from <= now <= to
    case Rehydrate(m, clock) => forall i :: 0 <= i < |Listing(d.rows, m)| ==> from <= clock(i) <= to
    case _ => true
  }

  lemma PutUpTo(d: State, m: Symbol, b: Book, t: int)
    requires UpTo(d, t) && NotAfter(b, t)
    ensures UpTo(PutBook(d, m, b), t)
  {
  }

  lemma HydrateUpTo(d: State, m: Symbol, o: Order, t: int)
    requires UpTo(d, t) && o.ts <= t
    ensures UpTo(HydrateOp(d, m, o), t)
  {
    var d1 := PutBook(d, m, Drop(BookOf(d, m), o.id));
    PutUpTo(d, m, Drop(BookOf(d, m), o.id), t);
    EnqueueUpTo(d1, m, o, t);
  }

  lemma {:induction false} SortUpTo(side: Side, s: seq<Order>)
    ensures forall x :: x in StableSort(side, s) <==> x in s
  {
    if s != [] {
      SortUpTo(side, s[..|s| - 1]);
      assert s == s[..|s| - 1] + [s[|s| - 1]];
    }
  }

  lemma EnqueueUpTo(d: State, m: Symbol, o: Order, t: int)
    requires UpTo(d, t) && o.ts <= t
    ensures UpTo(Enqueue(d, m, o), t)
  {
    var b := BookOf(d, m);
    SortUpTo(o.side, SideOf(b, o.side) + [o]);
    PutUpTo(d, m, WithSide(b, o.side, StableSort(o.side, SideOf(b, o.side) + [o])), t);
  }

  lemma OverwriteUpTo(b: Book, o: Order, t: int)
    requires NotAfter(b, t) && o.ts <= t
    ensures NotAfter(Overwrite(b, o), t)
  {
  }

  lemma AttachUpTo(d: State, m: Symbol, id: Hash, raw: Raw, t: int)
    requires UpTo(d, t)
    ensures UpTo(AttachRawOp(d, m, id, raw).0, t)
  {
    if Holds(BookOf(d, m), id) {
      OverwriteUpTo(BookOf(d, m), WithRaw(Locate(BookOf(d, m), id).value, raw), t);
    }
  }

  lemma PlaceUpTo(r: Rules, d: State, m: Symbol, t: Ticket, now: int, to: int)
    requires UpTo(d, to) && now <= to
    ensures UpTo(PlaceOp(r, d, m, t, now), to)
  {
    if Refusal(r, t).None? {
      var d1 := CancelOp(d, m, t.id).0;
      PutUpTo(d, m, Drop(BookOf(d, m), t.id), to);
      EnqueueUpTo(d1, m, OrderOf(t, now), to);
    }
  }

  lemma HitHeadUpTo(d: State, m: Symbol, taker: Side, size: int, t: int)
    requires UpTo(d, t) && SideOf(BookOf(d, m), Opposite(taker)) != []
    ensures UpTo(HitHead(d, m, taker, size).0, t)
  {
    var levels := SideOf(BookOf(d, m), Opposite(taker));
    assert levels[0] in levels && forall x :: x in levels[1..] ==> x in levels;
  }

  lemma {:induction false} MarketUpTo(d: State, m: Symbol, taker: Side, size: int, t: int, out: (State, int, seq<Fill>))
    requires Coherent(d) && UpTo(d, t) && Comes(d, m, taker, size, out)
    ensures UpTo(out.0, t)
    decreases |SideOf(BookOf(d, m), Opposite(taker))|, size
  {
    if size > 0 && SideOf(BookOf(d, m), Opposite(taker)) != [] {
      HitHeadUpTo(d, m, taker, size, t);
      var d1, exec := MarketTurn(d, m, taker, size);
      MarketUpTo(d1, m, taker, size - exec, t, MarketOp(d1, m, taker, size - exec));
    } else {
      NothingTaken(d, m, taker, size);
    }
  }

  lemma FillInBookUpTo(d: State, m: Symbol, hit: Order, left: int, rows: map<Hash, Row>, t: int)
    requires UpTo(d, t) && Locate(BookOf(d, m), hit.id) == Some(hit)
    ensures UpTo(PutBook(d, m, Overwrite(BookOf(d, m), hit.(sizeBase := left))).(rows := rows), t)
    ensures UpTo(PutBook(d, m, Drop(BookOf(d, m), hit.id)).(rows := rows), t)
  {
    OverwriteUpTo(BookOf(d, m), hit.(sizeBase := left), t);
    PutUpTo(d, m, Overwrite(BookOf(d, m), hit.(sizeBase := left)), t);
    PutUpTo(d, m, Drop(BookOf(d, m), hit.id), t);
  }

  lemma SameBooksUpTo(d: State, d': State, t: int)
    requires UpTo(d, t) && d'.books == d.books
    ensures UpTo(d', t)
  {
  }

  lemma FillFromRowUpTo(d: State, m: Symbol, id: Hash, execBase: int, listed: bool, now: int, t: int)
    requires UpTo(d, t) && now <= t && id in d.rows && !Holds(BookOf(d, m), id)
    ensures UpTo(ExternalFillOp(d, m, id, execBase, listed, now).0, t)
  {
    var o := LevelOfRow(id, d.rows[id], d.rows[id].remainingBase - Min(execBase, d.rows[id].remainingBase), now);
    HydrateUpTo(d, m, o, t);
    DeskOutcomes.RowOnlyBooks(d, m, id, execBase, listed, now);
    SameBooksUpTo(if o.sizeBase > 0 && listed then HydrateOp(d, m, o) else d, ExternalFillOp(d, m, id, execBase, listed, now).0, t);
  }

  lemma ExternalFillUpTo(d: State, m: Symbol, id: Hash, execBase: int, listed: bool, now: int, t: int)
    requires UpTo(d, t) && now <= t
    ensures UpTo(ExternalFillOp(d, m, id, execBase, listed, now).0, t)
  {
    if Holds(BookOf(d, m), id) {
      var hit := Locate(BookOf(d, m), id).value;
      FillInBookUpTo(d, m, hit, hit.sizeBase - Min(execBase, hit.sizeBase),
                     ExternalFillOp(d, m, id, execBase, listed, now).0.rows, t);
    } else if id in d.rows {
      FillFromRowUpTo(d, m, id, execBase, listed, now, t);
    }
  }

  lemma {:induction false} ReviveAllUpTo(d: State, m: Symbol, ids: seq<Hash>, clock: nat -> int, t: int)
    requires UpTo(d, t) && (forall h :: h in ids ==> h in d.rows) && forall i :: 0 <= i < |ids| ==> clock(i) <= t
    ensures UpTo(ReviveAll(d, m, ids, clock), t)
  {
    if ids != [] {
      var front, h := ids[..|ids| - 1], ids[|ids| - 1];
      ReviveAllUpTo(d, m, front, clock, t);
      var d1, now := ReviveAll(d, m, front, clock), clock(|ids| - 1);
      var o := LevelOfRow(h, d1.rows[h], d1.rows[h].remainingBase, now);
      HydrateUpTo(d1, m, o, t);
      if d1.rows[h].raw.Some? {
        AttachUpTo(HydrateOp(d1, m, o), m, h, d1.rows[h].raw.value, t);
      }
    }
  }

  lemma StepUpTo(d: State, op: Op, from: int, to: int)
    requires Coherent(d) && UpTo(d, from) && ReadsWithin(d, op, from, to)
    ensures UpTo(Step(d, op), to)
  {
    assert UpTo(d, to);
    match op {
      case Place(r, m, t, now) => PlaceUpTo(r, d, m, t, now, to);
      case Market(m, taker, size) => MarketUpTo(d, m, taker, size, to, MarketOp(d, m, taker, size));
      case ExternalFill(m, id, execBase, now) => ExternalFillUpTo(d, m, id, execBase, id in Listing(d.rows, m), now, to);
      case AttachRaw(m, id, raw) => AttachUpTo(d, m, id, raw, to);
      case Rehydrate(m, clock) => ReviveAllUpTo(d, m, Listing(d.rows, m), clock, to);
      case Cancel(m, id) => PutUpTo(d, m, Drop(BookOf(d, m), id), to);
      case Retract(m, id) => PutUpTo(d, m, Drop(BookOf(d, m), id), to);
      case _ =>
    }
  }

  /** A history whose clock never runs backwards: operation number i reads it between times[i - 1] and
      times[i]. */
  ghost predicate ByTheClock(d: State, ops: seq<Op>, start: int, times: seq<int>) {
    |ops| == |times| &&
    (ops == [] ||
     (ByTheClock(d, ops[..|ops| - 1], start, times[..|times| - 1]) &&
      ReadsWithin(Run(d, ops[..|ops| - 1]), ops[|ops| - 1], Latest(start, times[..|times| - 1]), Latest(start, times))))
  }

  function Latest(start: int, times: seq<int>): int {
    if times == [] then start else times[|times| - 1]
  }

  /** Along such a history no resting order ever claims to have come later than the clock. */
  lemma {:induction false} ClockStaysAhead(d: State, ops: seq<Op>, start: int, times: seq<int>)
    requires Coherent(d) && Respectful(d, ops) && UpTo(d, start) && ByTheClock(d, ops, start, times)
    ensures Coherent(Run(d, ops)) && UpTo(Run(d, ops), Latest(start, times))
  {
    HistoriesStayCoherent(d, ops);
    if ops != [] {
      ClockStaysAhead(d, ops[..|ops| - 1], start, times[..|times| - 1]);
      StepUpTo(Run(d, ops[..|ops| - 1]), ops[|ops| - 1], Latest(start, times[..|times| - 1]), Latest(start, times));
    }
  }

  /** So at the end of any such history the next accepted order is the last of its price. */
  lemma NewcomersWaitTheirTurn(d: State, ops: seq<Op>, start: int, times: seq<int>, r: Rules, m: Symbol, t: Ticket, now: int)
    requires Coherent(d) && Respectful(d, ops) && UpTo(d, start) && ByTheClock(d, ops, start, times)
    requires Refusal(r, t).None? && Latest(start, times) <= now
    ensures AtPrice(SideOf(BookOf(Step(Run(d, ops), Place(r, m, t, now)), m), t.side), t.priceTicks)
         == Others(AtPrice(SideOf(BookOf(Run(d, ops), m), t.side), t.priceTicks), t.id) + [t.id]
  {
    ClockStaysAhead(d, ops, start, times);
    PlacedJoinsTheBack(r, Run(d, ops), m, t, now, t.side, t.priceTicks);
  }

  // ---------------------------------------------------------------------------
  // The sweep
  // ---------------------------------------------------------------------------

  lemma {:induction false} NothingOfOthers(taker: Side, limit: Option<int>, levels: seq<Order>, size: int, id: Hash)
    requires forall x :: x in levels ==> x.id != id
    ensures FilledOf(Plan(taker, limit, levels, size), id) == 0
  {
    if levels != [] && size > 0 && !Worse(taker, limit, levels[0].priceTicks) {
      var exec := Min(size, levels[0].sizeBase);
      NothingOfOthers(taker, limit, levels[1..], size - exec, id);
      assert Plan(taker, limit, levels, size)[1..] == Plan(taker, limit, levels[1..], size - exec);
    }
  }

  /** Nobody is served before the orders in front are served in full. */
  lemma {:induction false} FrontIsServedFirst(taker: Side, limit: Option<int>, levels: seq<Order>, size: int, i: nat, j: nat)
    requires GoodSide(Opposite(taker), levels) && i < j < |levels|
    requires FilledOf(Plan(taker, limit, levels, size), levels[j].id) > 0
    ensures FilledOf(Plan(taker, limit, levels, size), levels[i].id) == levels[i].sizeBase
  {
    var rest := levels[1..];
    assert levels[j] in rest && levels[0].id != levels[j].id;
    if size > 0 && !Worse(taker, limit, levels[0].priceTicks) {
      var exec := Min(size, levels[0].sizeBase);
      var plan := Plan(taker, limit, levels, size);
      assert plan[1..] == Plan(taker, limit, rest, size - exec);
      if i == 0 {
        NothingOfOthers(taker, limit, rest, size - exec, levels[0].id);
      } else {
        assert rest[i - 1] in rest;
        FrontIsServedFirst(taker, limit, rest, size - exec, i - 1, j - 1);
      }
    }
  }
}
