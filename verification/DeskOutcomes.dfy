/** Where an order ends up: after a fill seen on chain, and after its attached expiry passes.
    Models apps/api/src/matching/orderbook.service.ts:123-342. */
module DeskOutcomes {
  import opened Prelude
  import opened Levels
  import opened Sweep
  import opened Desk
  import opened Coherence

  lemma InsertedIsHeld(b: Book, o: Order)
    ensures Holds(WithSide(b, o.side, StableSort(o.side, SideOf(b, o.side) + [o])), o.id)
  {
    assert (SideOf(b, o.side) + [o])[|SideOf(b, o.side) + [o]| - 1] == o;
    assert o in StableSort(o.side, SideOf(b, o.side) + [o]);
  }

  lemma OverwrittenIsHeld(b: Book, o: Order)
    requires Holds(b, o.id)
    ensures Holds(Overwrite(b, o), o.id)
  {
    var s := if Find(b.bids, o.id).Some? then b.bids else b.asks;
    var k :| 0 <= k < |s| && s[k].id == o.id;
    assert Replace(s, o.id, o)[k] in Replace(s, o.id, o);
  }

  lemma DroppedIsGone(b: Book, id: Hash)
    ensures !Holds(Drop(b, id), id)
  {
  }

  lemma RestInBook(d: State, m: Symbol, id: Hash, exec: int, listed: bool, now: int)
    requires exec > 0 && Holds(BookOf(d, m), id) && Locate(BookOf(d, m), id).value.sizeBase > 0
    ensures Holds(BookOf(ExternalFillOp(d, m, id, exec, listed, now).0, m), id)
       <==> Locate(BookOf(d, m), id).value.sizeBase > exec
  {
    var b, o := BookOf(d, m), Locate(BookOf(d, m), id).value;
    if o.sizeBase > exec {
      OverwrittenIsHeld(b, o.(sizeBase := o.sizeBase - exec));
    } else {
      DroppedIsGone(b, id);
    }
  }

  lemma RestFromRow(d: State, m: Symbol, id: Hash, exec: int, listed: bool, now: int)
    requires exec > 0 && !Holds(BookOf(d, m), id)
    ensures Holds(BookOf(ExternalFillOp(d, m, id, exec, listed, now).0, m), id)
       <==> id in d.rows && d.rows[id].remainingBase > exec && listed
  {
    if id in d.rows && d.rows[id].remainingBase > exec && listed {
      InsertedIsHeld(Drop(BookOf(d, m), id), LevelOfRow(id, d.rows[id], d.rows[id].remainingBase - exec, now));
    }
  }

  /** After a watched fill the order rests exactly when base is left and it rested before or was
      still listed as placed. */
  lemma FillLeavesTheRest(d: State, m: Symbol, id: Hash, exec: int, listed: bool, now: int)
    requires Coherent(d) && exec > 0
    ensures Holds(BookOf(ExternalFillOp(d, m, id, exec, listed, now).0, m), id)
       <==> id in d.rows && d.rows[id].remainingBase > exec && (Holds(BookOf(d, m), id) || listed)
  {
    if Holds(BookOf(d, m), id) {
      BookOfBacked(d, m);
      assert Backed(d.rows, m, Locate(BookOf(d, m), id).value);
      RestInBook(d, m, id, exec, listed, now);
    } else {
      RestFromRow(d, m, id, exec, listed, now);
    }
  }

  lemma WithRawIsHeld(b: Book, id: Hash, raw: Raw)
    requires GoodBook(b) && Holds(b, id)
    ensures Holds(Overwrite(b, WithRaw(Locate(b, id).value, raw)), id)
    ensures Locate(Overwrite(b, WithRaw(Locate(b, id).value, raw)), id) == Some(WithRaw(Locate(b, id).value, raw))
  {
    var o := WithRaw(Locate(b, id).value, raw);
    OverwrittenIsHeld(b, o);
    if Find(b.bids, id).Some? {
      ReplacedIsFound(b.bids, id, o);
    } else {
      ReplacedIsFound(b.asks, id, o);
    }
  }

  lemma {:induction false} ReplacedIsFound(s: seq<Order>, id: Hash, o: Order)
    requires o.id == id && Find(s, id).Some?
    ensures Find(Replace(s, id, o), id) == Some(o)
  {
    if s[0].id != id {
      ReplacedIsFound(s[1..], id, o);
      assert Replace(s, id, o)[1..] == Replace(s[1..], id, o);
    }
  }

  /** The one order with an id survives pruning exactly when it has not expired. */
  lemma PrunedHolds(rows: map<Hash, Row>, m: Symbol, b: Book, id: Hash, nowSec: int)
    requires BookBacked(rows, m, b) && Holds(b, id)
    ensures Holds(Pruned(b, nowSec), id) <==> !IsExpired(Locate(b, id).value, nowSec)
  {
    var o := Locate(b, id).value;
    forall x | (x in b.bids || x in b.asks) && x.id == id ensures x == o {
      assert Backed(rows, m, x) && Backed(rows, m, o);
      if x.side == BUY {
        SameIdSameOrder(b.bids, x, o);
      } else {
        SameIdSameOrder(b.asks, x, o);
      }
    }
    assert o in b.bids || o in b.asks;
    assert IsExpired(o, nowSec) ==> Locate(Pruned(b, nowSec), id).None?;
  }

  lemma RowLapsesIff(d: State, m: Symbol, o: Order, nowSec: int)
    requires Coherent(d) && m in d.books && (o in d.books[m].bids || o in d.books[m].asks)
    ensures Lapsed(d.books, d.books.Keys, o.id, nowSec) <==> IsExpired(o, nowSec)
  {
    if Lapsed(d.books, d.books.Keys, o.id, nowSec) {
      var m1, o1 :| m1 in d.books.Keys && m1 in d.books && (o1 in d.books[m1].bids || o1 in d.books[m1].asks)
                    && o1.id == o.id && IsExpired(o1, nowSec);
      OneHomePerId(d, m, m1, o, o1);
    }
  }

  /** The sweep takes a resting order off the book, and expires its row, exactly from the second of its
      expiry on; an order without one stays. */
  lemma SweptFromItsExpiry(d: State, m: Symbol, id: Hash, nowSec: int)
    requires Coherent(d) && Holds(BookOf(d, m), id)
    ensures var o, swept := Locate(BookOf(d, m), id).value, SweepExpiredOp(d, nowSec);
            var alive := o.expirySec == 0 || nowSec < o.expirySec;
            && (Holds(BookOf(swept, m), id) <==> alive)
            && id in d.rows && id in swept.rows
            && swept.rows[id] == if alive then d.rows[id] else d.rows[id].(status := EXPIRED)
  {
    BookOfBacked(d, m);
    PrunedHolds(d.rows, m, BookOf(d, m), id, nowSec);
    var o := Locate(BookOf(d, m), id).value;
    assert Backed(d.rows, m, o);
    RowLapsesIff(d, m, o, nowSec);
  }

  /** So an order with an attached expiry is swept exactly from that second on. */
  lemma AttachedExpiryIsSwept(d: State, m: Symbol, id: Hash, raw: Raw, nowSec: int)
    requires Coherent(d) && Holds(BookOf(d, m), id) && raw.expiry > 0
    ensures var swept := SweepExpiredOp(AttachRawOp(d, m, id, raw).0, nowSec);
            && (Holds(BookOf(swept, m), id) <==> nowSec < raw.expiry)
            && id in d.rows && id in swept.rows
            && swept.rows[id] == if nowSec < raw.expiry then d.rows[id] else d.rows[id].(status := EXPIRED)
  {
    BookOfBacked(d, m);
    AttachRawKeeps(d, m, id, raw);
    WithRawIsHeld(BookOf(d, m), id, raw);
    SweptFromItsExpiry(AttachRawOp(d, m, id, raw).0, m, id, nowSec);
  }

  // ---------------------------------------------------------------------------
  // Market orders
  // ---------------------------------------------------------------------------

  lemma {:induction false} OneTradePerFill(m: Symbol, fills: seq<Fill>)
    ensures |MarketTrades(m, fills)| == |fills|
    ensures forall i :: 0 <= i < |fills| ==>
              MarketTrades(m, fills)[i] == Trade(m, fills[i].makerOrderHash, "0x0000000000000000000000000000000000000000",
                                                 fills[i].priceTicks, fills[i].sizeBase, None)
  {
    if fills != [] {
      OneTradePerFill(m, fills[1..]);
    }
  }

  /** What a market order does to one row: base and status follow what was filled of it, nothing else of the
      row changes. */
  predicate RowAfter(row: Row, row': Row, taken: int) {
    if taken == 0 then row' == row
    else row' == row.(remainingBase := row.remainingBase - taken,
                      status := if row.remainingBase == taken then FILLED else PARTIALLY_FILLED)
  }

  /** What a market outcome does to rows, trades and other markets. */
  predicate Accounts(d: State, out: (State, int, seq<Fill>), m: Symbol, id: Hash) {
    && out.0.trades == d.trades + MarketTrades(m, out.2)
    && out.0.rows.Keys == d.rows.Keys
    && (id in d.rows ==> FilledOf(out.2, id) >= 0 && RowAfter(d.rows[id], out.0.rows[id], FilledOf(out.2, id)))
    && (forall m' :: m' in d.books && m' != m ==> m' in out.0.books && out.0.books[m'] == d.books[m'])
  }

  /** One turn, by what it does to rows, trades and other markets. */
  predicate Hits(d: State, d1: State, m: Symbol, f: Fill, id: Hash) {
    && d1.trades == d.trades + [MarketTrade(m, f)] && d1.rows.Keys == d.rows.Keys && f.sizeBase > 0
    && (id in d.rows ==> RowAfter(d.rows[id], d1.rows[id], if f.makerOrderHash == id then f.sizeBase else 0))
    && (forall m' :: m' in d.books && m' != m ==> m' in d1.books && d1.books[m'] == d.books[m'])
  }

  lemma AccountsStep(d: State, d1: State, m: Symbol, f: Fill, inner: (State, int, seq<Fill>), id: Hash)
    requires Hits(d, d1, m, f, id) && Accounts(d1, inner, m, id)
    ensures Accounts(d, Prefixed(f, inner), m, id)
  {
    assert ([f] + inner.2)[0] == f && ([f] + inner.2)[1..] == inner.2;
    assert d.trades + [MarketTrade(m, f)] + MarketTrades(m, inner.2)
        == d.trades + ([MarketTrade(m, f)] + MarketTrades(m, inner.2));
  }

  lemma HeadHits(d: State, m: Symbol, taker: Side, size: int, id: Hash)
    requires Coherent(d) && size > 0 && SideOf(BookOf(d, m), Opposite(taker)) != []
    ensures Hits(d, HitHead(d, m, taker, size).0, m, HitHead(d, m, taker, size).1, id)
  {
    var head := SideOf(BookOf(d, m), Opposite(taker))[0];
    BookOfBacked(d, m);
    assert Backed(d.rows, m, head);
  }

  lemma NothingAccounts(d: State, size: int, m: Symbol, id: Hash)
    ensures Accounts(d, (d, size, []), m, id)
  {
    assert d.trades + [] == d.trades;
  }

  lemma {:induction false} OutcomeAccounts(d: State, m: Symbol, taker: Side, size: int, id: Hash, out: (State, int, seq<Fill>))
    requires Coherent(d) && Comes(d, m, taker, size, out)
    ensures Accounts(d, out, m, id)
    decreases |SideOf(BookOf(d, m), Opposite(taker))|, size
  {
    if size > 0 && SideOf(BookOf(d, m), Opposite(taker)) != [] {
      HeadHits(d, m, taker, size, id);
      var d1, exec := MarketTurn(d, m, taker, size);
      var f, inner := FillOf(SideOf(BookOf(d, m), Opposite(taker))[0], exec), MarketOp(d1, m, taker, size - exec);
      OutcomeAccounts(d1, m, taker, size - exec, id, inner);
      AccountsStep(d, d1, m, f, inner, id);
    } else {
      NothingTaken(d, m, taker, size);
      NothingAccounts(d, size, m, id);
    }
  }

  /** A market order records one trade for each fill, in order, with its market, order, price and size, no
      taker and no transaction; each row gives up what was filled of it and is FILLED exactly when nothing
      is left; no other market changes. */
  lemma MarketRecordsFills(d: State, m: Symbol, taker: Side, size: int, id: Hash, i: nat)
    requires Coherent(d)
    ensures var (d', _, fills) := MarketOp(d, m, taker, size);
            && d.trades <= d'.trades && |d'.trades| == |d.trades| + |fills|
            && (i < |fills| ==>
                  d'.trades[|d.trades| + i] == Trade(m, fills[i].makerOrderHash, "0x0000000000000000000000000000000000000000",
                                                     fills[i].priceTicks, fills[i].sizeBase, None))
            && (id in d.rows ==> id in d'.rows && RowAfter(d.rows[id], d'.rows[id], FilledOf(fills, id)))
            && (forall m' :: m' in d.books && m' != m ==> m' in d'.books && d'.books[m'] == d.books[m'])
  {
    var out := MarketOp(d, m, taker, size);
    OutcomeAccounts(d, m, taker, size, id, out);
    OneTradePerFill(m, out.2);
  }

  // ---------------------------------------------------------------------------
  // Cancels and fills seen on chain
  // ---------------------------------------------------------------------------

  /** All rows but this one are the same. */
  predicate OnlyRow(rows: map<Hash, Row>, rows': map<Hash, Row>, id: Hash) {
    rows'.Keys == rows.Keys && forall h :: h in rows && h != id ==> rows'[h] == rows[h]
  }

  /** All markets but this one are the same. */
  predicate OnlyMarket(d: State, d': State, m: Symbol) {
    forall m' :: m' in d.books && m' != m ==> m' in d'.books && d'.books[m'] == d.books[m']
  }

  /** Only levels with this id differ. */
  predicate OtherLevelsKept(b: Book, b': Book, id: Hash) {
    && (forall o :: o in b.bids && o.id != id ==> o in b'.bids)
    && (forall o :: o in b.asks && o.id != id ==> o in b'.asks)
    && (forall o :: o in b'.bids && o.id != id ==> o in b.bids)
    && (forall o :: o in b'.asks && o.id != id ==> o in b.asks)
  }

  /** A book cancel takes the order off both sides of its market. */
  lemma CancelTakesOff(d: State, m: Symbol, id: Hash)
    ensures var d' := CancelOp(d, m, id).0;
            && BookOf(d', m).bids == Without(BookOf(d, m).bids, id) && BookOf(d', m).asks == Without(BookOf(d, m).asks, id)
            && OnlyMarket(d, d', m)
  {
  }

  /** And cancels its row exactly when it rested there; nothing else changes. */
  lemma CancelMarksRow(d: State, m: Symbol, id: Hash)
    requires Coherent(d)
    ensures var d' := CancelOp(d, m, id).0;
            && OnlyRow(d.rows, d'.rows, id) && d'.trades == d.trades
            && (Holds(BookOf(d, m), id) ==> id in d.rows && d'.rows[id] == d.rows[id].(status := CANCELLED))
            && (!Holds(BookOf(d, m), id) ==> d'.rows == d.rows)
  {
    CancelKeeps(d, m, id);
    BookOfBacked(d, m);
    if Holds(BookOf(d, m), id) {
      assert Backed(d.rows, m, Locate(BookOf(d, m), id).value);
    }
  }

  /** The row after `exec` was filled of it on chain. */
  function FilledRow(row: Row, exec: int): Row {
    row.(remainingBase := Max(0, row.remainingBase - exec),
         status := if exec >= row.remainingBase then FILLED else PARTIALLY_FILLED)
  }

  /** One side with the size of one order changed, everything in its place. */
  predicate Resized(s: seq<Order>, s': seq<Order>, id: Hash, left: int) {
    |s'| == |s| && forall k :: 0 <= k < |s| ==> s'[k] == if s[k].id == id then s[k].(sizeBase := left) else s[k]
  }

  lemma {:induction false} AbsentIsResized(s: seq<Order>, id: Hash, left: int)
    requires forall x :: x in s ==> x.id != id
    ensures Resized(s, s, id, left)
  {
    forall k | 0 <= k < |s| ensures s[k].id != id {
      assert s[k] in s;
    }
  }

  lemma OverwriteResizes(rows: map<Hash, Row>, m: Symbol, b: Book, id: Hash, left: int)
    requires BookBacked(rows, m, b) && Holds(b, id)
    ensures var b' := Overwrite(b, Locate(b, id).value.(sizeBase := left));
            Resized(b.bids, b'.bids, id, left) && Resized(b.asks, b'.asks, id, left)
  {
    var o := Locate(b, id).value;
    assert Backed(rows, m, o);
    if Find(b.bids, id).Some? {
      forall x | x in b.asks ensures x.id != id {
        assert Backed(rows, m, x);
      }
      AbsentIsResized(b.asks, id, left);
      OnlyOneResized(b.bids, id, o, left);
    } else {
      AbsentIsResized(b.bids, id, left);
      OnlyOneResized(b.asks, id, o, left);
    }
  }

  lemma OnlyOneResized(s: seq<Order>, id: Hash, o: Order, left: int)
    requires DistinctIds(s) && o in s && o.id == id
    ensures Resized(s, Replace(s, id, o.(sizeBase := left)), id, left)
  {
    forall k | 0 <= k < |s| && s[k].id == id ensures s[k] == o {
      SameIdSameOrder(s, s[k], o);
    }
  }

  /** What a watched fill of `exec` does to rows and trades. */
  predicate RowFollows(d: State, d': State, id: Hash, exec: int) {
    id in d.rows && OnlyRow(d.rows, d'.rows, id) && d'.rows[id] == FilledRow(d.rows[id], exec) && d'.trades == d.trades
  }

  lemma DecreaseFollows(d: State, id: Hash, exec: int, d1: State)
    requires id in d.rows && d.rows[id].remainingBase >= 0 && exec > 0 && d1.trades == d.trades
    requires d1.rows == Decrease(d, id, Min(exec, d.rows[id].remainingBase),
                                 if exec >= d.rows[id].remainingBase then FILLED else PARTIALLY_FILLED).rows
    ensures RowFollows(d, d1, id, exec)
  {
  }

  /** A watched fill of a resting order: its row follows. */
  lemma RestingFillRow(d: State, m: Symbol, id: Hash, exec: int, listed: bool, now: int)
    requires Coherent(d) && exec > 0 && Holds(BookOf(d, m), id)
    ensures RowFollows(d, ExternalFillOp(d, m, id, exec, listed, now).0, id, exec)
    ensures ExternalFillOp(d, m, id, exec, listed, now).1
         == if Locate(BookOf(d, m), id).value.sizeBase > exec then Partial else Full
  {
    BookOfBacked(d, m);
    assert Backed(d.rows, m, Locate(BookOf(d, m), id).value);
    DecreaseFollows(d, id, exec, ExternalFillOp(d, m, id, exec, listed, now).0);
  }

  /** And it keeps its place, raw order and expiry with what is left, or leaves the book; nobody else moves. */
  lemma RestingFillBook(d: State, m: Symbol, id: Hash, exec: int, listed: bool, now: int)
    requires Coherent(d) && exec > 0 && Holds(BookOf(d, m), id)
    ensures var d', left := ExternalFillOp(d, m, id, exec, listed, now).0, Locate(BookOf(d, m), id).value.sizeBase - exec;
            var b, b' := BookOf(d, m), BookOf(d', m);
            && OnlyMarket(d, d', m)
            && if left > 0 then Resized(b.bids, b'.bids, id, left) && Resized(b.asks, b'.asks, id, left)
               else b'.bids == Without(b.bids, id) && b'.asks == Without(b.asks, id)
  {
    BookOfBacked(d, m);
    var left := Locate(BookOf(d, m), id).value.sizeBase - exec;
    if left > 0 {
      OverwriteResizes(d.rows, m, BookOf(d, m), id, left);
    }
  }

  /** The level a stored row is worth, come at `now`. */
  function LevelFrom(id: Hash, row: Row, left: int, now: int): Order {
    Order(id, row.maker, row.side, row.priceTicks, left, now, None, 0)
  }

  /** A watched fill of an order that is not in memory: its row follows. */
  lemma StoredFillRow(d: State, m: Symbol, id: Hash, exec: int, listed: bool, now: int)
    requires NoneNegative(d.rows) && exec > 0 && !Holds(BookOf(d, m), id) && id in d.rows
    ensures RowFollows(d, ExternalFillOp(d, m, id, exec, listed, now).0, id, exec)
    ensures ExternalFillOp(d, m, id, exec, listed, now).1 == DbOnly
  {
    DecreaseFollows(d, id, exec, ExternalFillOp(d, m, id, exec, listed, now).0);
  }

  lemma RowOnlyBooks(d: State, m: Symbol, id: Hash, execBase: int, listed: bool, now: int)
    requires id in d.rows && !Holds(BookOf(d, m), id)
    ensures var left := d.rows[id].remainingBase - Min(execBase, d.rows[id].remainingBase);
            ExternalFillOp(d, m, id, execBase, listed, now).0.books
            == if left > 0 && listed then HydrateOp(d, m, LevelOfRow(id, d.rows[id], left, now)).books else d.books
  {
  }

  lemma HydratedLevel(d: State, m: Symbol, o: Order)
    ensures Locate(BookOf(HydrateOp(d, m, o), m), o.id) == Some(o) && OnlyMarket(d, HydrateOp(d, m, o), m)
  {
    HydratedIsFound(Drop(BookOf(d, m), o.id), o);
  }

  lemma ByBooks(d: State, d1: State, d2: State, m: Symbol, o: Order)
    requires d1.books == d2.books && Locate(BookOf(d1, m), o.id) == Some(o) && OnlyMarket(d, d1, m)
    ensures Locate(BookOf(d2, m), o.id) == Some(o) && OnlyMarket(d, d2, m)
  {
  }

  /** And what is left of a listed row comes back on the book with the row's terms. */
  lemma StoredFillBook(d: State, m: Symbol, id: Hash, exec: int, listed: bool, now: int)
    requires NoneNegative(d.rows) && exec > 0 && !Holds(BookOf(d, m), id) && id in d.rows
    ensures var d', left := ExternalFillOp(d, m, id, exec, listed, now).0, d.rows[id].remainingBase - exec;
            if left > 0 && listed then
              Locate(BookOf(d', m), id) == Some(LevelFrom(id, d.rows[id], left, now)) && OnlyMarket(d, d', m)
            else d'.books == d.books
  {
    var o := LevelFrom(id, d.rows[id], d.rows[id].remainingBase - exec, now);
    RowOnlyBooks(d, m, id, exec, listed, now);
    if o.sizeBase > 0 && listed {
      HydratedLevel(d, m, o);
      ByBooks(d, HydrateOp(d, m, o), ExternalFillOp(d, m, id, exec, listed, now).0, m, o);
    }
  }

  lemma HydratedIsFound(b: Book, o: Order)
    requires !Holds(b, o.id)
    ensures Locate(WithSide(b, o.side, StableSort(o.side, SideOf(b, o.side) + [o])), o.id) == Some(o)
  {
    InsertedIsHeld(b, o);
    SortMembers(o.side, SideOf(b, o.side) + [o]);
  }

  lemma {:induction false} SortMembers(side: Side, s: seq<Order>)
    ensures forall x :: x in StableSort(side, s) <==> x in s
  {
    if s != [] {
      SortMembers(side, s[..|s| - 1]);
      assert s == s[..|s| - 1] + [s[|s| - 1]];
    }
  }

  /** A fill of an order nobody knows changes nothing. */
  lemma UnknownFill(d: State, m: Symbol, id: Hash, exec: int, listed: bool, now: int)
    requires !Holds(BookOf(d, m), id) && id !in d.rows
    ensures ExternalFillOp(d, m, id, exec, listed, now) == (d, NotFound)
  {
  }

  /** Attaching a raw order: the level carries it, and its expiry when it has one; nothing else changes. */
  lemma AttachedLevel(d: State, m: Symbol, id: Hash, raw: Raw)
    requires Coherent(d) && Holds(BookOf(d, m), id)
    ensures var was, d' := Locate(BookOf(d, m), id).value, AttachRawOp(d, m, id, raw).0;
            && Locate(BookOf(d', m), id)
               == Some(was.(raw := Some(raw), expirySec := if raw.expiry > 0 then raw.expiry else was.expirySec))
            && d'.rows == d.rows && d'.trades == d.trades && OnlyMarket(d, d', m)
  {
    BookOfBacked(d, m);
    WithRawIsHeld(BookOf(d, m), id, raw);
  }
}
