/** The books never claim more than the rows back: what every operation keeps, and the exact
    condition under which the three that can break it do not. */
module Coherence {
  import opened Prelude
  import opened Levels
  import opened Sweep
  import opened Desk

  /** A live row that agrees with the resting order on side, price and remaining base. */
  predicate Backed(rows: map<Hash, Row>, m: Symbol, o: Order) {
    && o.id in rows
    && rows[o.id].market == m
    && rows[o.id].side == o.side
    && rows[o.id].priceTicks == o.priceTicks
    && rows[o.id].remainingBase == o.sizeBase
    && (rows[o.id].status == PLACED || rows[o.id].status == PARTIALLY_FILLED)
  }

  predicate GoodBook(b: Book) {
    GoodSide(BUY, b.bids) && GoodSide(SELL, b.asks)
  }

  predicate BookBacked(rows: map<Hash, Row>, m: Symbol, b: Book) {
    && GoodBook(b)
    && (forall o :: o in b.bids ==> Backed(rows, m, o))
    && (forall o :: o in b.asks ==> Backed(rows, m, o))
  }

  predicate NoneNegative(rows: map<Hash, Row>) {
    forall h :: h in rows ==> rows[h].remainingBase >= 0
  }

  predicate Coherent(d: State) {
    match d
    case State(books, rows, _) =>
      && (forall m :: m in books ==> BookBacked(rows, m, books[m]))
      && NoneNegative(rows)
  }

  /** An id rests at most once: in one market and on one side of it. */
  lemma OneHomePerId(d: State, m1: Symbol, m2: Symbol, o1: Order, o2: Order)
    requires Coherent(d) && m1 in d.books && m2 in d.books
    requires o1 in d.books[m1].bids || o1 in d.books[m1].asks
    requires o2 in d.books[m2].bids || o2 in d.books[m2].asks
    requires o1.id == o2.id
    ensures m1 == m2 && o1 == o2
  {
    if o1.side == BUY {
      SameIdSameOrder(d.books[m1].bids, o1, o2);
    } else {
      SameIdSameOrder(d.books[m1].asks, o1, o2);
    }
  }

  lemma {:induction false} SameIdSameOrder(s: seq<Order>, x: Order, y: Order)
    requires DistinctIds(s) && x in s && y in s && x.id == y.id
    ensures x == y
  {
    assert x == s[0] || x in s[1..];
    assert y == s[0] || y in s[1..];
    if x in s[1..] && y in s[1..] {
      SameIdSameOrder(s[1..], x, y);
    }
  }

  // ---------------------------------------------------------------------------
  // Framing
  // ---------------------------------------------------------------------------

  /** Row changes that stay inside market `m`. */
  predicate OnlyTouches(rows: map<Hash, Row>, rows': map<Hash, Row>, m: Symbol) {
    forall h :: h in rows ==> h in rows' && (rows'[h] == rows[h] || rows[h].market == m)
  }

  lemma OtherBooksStayBacked(rows: map<Hash, Row>, rows': map<Hash, Row>, m: Symbol, m': Symbol, b: Book)
    requires BookBacked(rows, m', b) && OnlyTouches(rows, rows', m) && m' != m
    ensures BookBacked(rows', m', b)
  {
  }

  /** Rebuilding coherence after a change confined to market `m`. */
  lemma Rebuild(d: State, d': State, m: Symbol, b': Book)
    requires Coherent(d)
    requires d'.books == d.books[m := b'] && OnlyTouches(d.rows, d'.rows, m)
    requires BookBacked(d'.rows, m, b') && NoneNegative(d'.rows)
    ensures Coherent(d')
  {
    forall m' | m' in d'.books ensures BookBacked(d'.rows, m', d'.books[m']) {
      if m' != m {
        OtherBooksStayBacked(d.rows, d'.rows, m, m', d.books[m']);
      }
    }
  }

  lemma BookOfBacked(d: State, m: Symbol)
    requires Coherent(d)
    ensures BookBacked(d.rows, m, BookOf(d, m))
  {
  }

  lemma DropBacked(rows: map<Hash, Row>, m: Symbol, b: Book, id: Hash)
    requires BookBacked(rows, m, b)
    ensures BookBacked(rows, m, Drop(b, id))
    ensures !Holds(Drop(b, id), id)
    ensures !Holds(b, id) ==> Drop(b, id) == b
  {
    WithoutGood(BUY, b.bids, id);
    WithoutGood(SELL, b.asks, id);
    if !Holds(b, id) {
      WithoutAbsent(b.bids, id);
      WithoutAbsent(b.asks, id);
    }
  }

  /** A book that does not hold `id` is untouched by what happens to that row. */
  lemma RowOfAbsentId(rows: map<Hash, Row>, rows': map<Hash, Row>, m: Symbol, b: Book, id: Hash)
    requires BookBacked(rows, m, b) && !Holds(b, id)
    requires forall h :: h in rows && h != id ==> h in rows' && rows'[h] == rows[h]
    ensures BookBacked(rows', m, b)
  {
  }

  // ---------------------------------------------------------------------------
  // Operations that always keep coherence
  // ---------------------------------------------------------------------------

  lemma CancelKeeps(d: State, m: Symbol, id: Hash)
    requires Coherent(d)
    ensures Coherent(CancelOp(d, m, id).0)
    ensures CancelOp(d, m, id).1 == Holds(BookOf(d, m), id)
    ensures !Holds(BookOf(CancelOp(d, m, id).0, m), id)
  {
    var b := BookOf(d, m);
    var d' := CancelOp(d, m, id).0;
    BookOfBacked(d, m);
    DropBacked(d.rows, m, b, id);
    RowOfAbsentId(d.rows, d'.rows, m, Drop(b, id), id);
    Rebuild(d, d', m, Drop(b, id));
  }

  lemma InsertBacked(rows: map<Hash, Row>, m: Symbol, b: Book, o: Order)
    requires BookBacked(rows, m, b) && !Holds(b, o.id)
    requires Backed(rows, m, o) && o.sizeBase > 0
    ensures BookBacked(rows, m, WithSide(b, o.side, StableSort(o.side, SideOf(b, o.side) + [o])))
  {
    PushThenSort(o.side, SideOf(b, o.side), o);
    InsertSorted(o.side, SideOf(b, o.side), o);
    InsertDistinct(o.side, SideOf(b, o.side), o);
  }

  lemma HydrateKeeps(d: State, m: Symbol, o: Order)
    requires Coherent(d) && Backed(d.rows, m, o) && o.sizeBase > 0
    ensures Coherent(HydrateOp(d, m, o))
  {
    var b := BookOf(d, m);
    BookOfBacked(d, m);
    DropBacked(d.rows, m, b, o.id);
    InsertBacked(d.rows, m, Drop(b, o.id), o);
    var b' := WithSide(Drop(b, o.id), o.side, StableSort(o.side, SideOf(Drop(b, o.id), o.side) + [o]));
    assert HydrateOp(d, m, o).books == d.books[m := b'];
    Rebuild(d, HydrateOp(d, m, o), m, b');
  }

  lemma OverwriteBacked(rows: map<Hash, Row>, rows': map<Hash, Row>, m: Symbol, b: Book, was: Order, o: Order)
    requires BookBacked(rows, m, b) && Locate(b, o.id) == Some(was)
    requires o.side == was.side && o.priceTicks == was.priceTicks && o.ts == was.ts && o.sizeBase > 0
    requires Backed(rows', m, o)
    requires forall h :: h in rows && h != o.id ==> h in rows' && rows'[h] == rows[h]
    ensures BookBacked(rows', m, Overwrite(b, o))
  {
    OverwriteGood(BUY, b.bids, was, o);
    OverwriteGood(SELL, b.asks, was, o);
    if Find(b.bids, o.id).Some? {
      assert rows[o.id].side == BUY;
      assert forall x :: x in b.asks ==> x.id != o.id;
    }
  }

  lemma {:induction false} OverwriteGood(side: Side, s: seq<Order>, was: Order, o: Order)
    requires GoodSide(side, s) && o.id == was.id
    requires o.side == was.side && o.priceTicks == was.priceTicks && o.ts == was.ts && o.sizeBase > 0
    ensures was in s ==> GoodSide(side, Replace(s, o.id, o))
    ensures was in s ==> forall x :: x in Replace(s, o.id, o) <==> x == o || (x in s && x.id != o.id)
  {
    if was in s {
      var r := Replace(s, o.id, o);
      assert r[1..] == Replace(s[1..], o.id, o);
      assert forall x :: x in s <==> x == s[0] || x in s[1..];
      assert forall x :: x in r <==> x == r[0] || x in r[1..];
      OverwriteGood(side, s[1..], was, o);
      if was !in s[1..] {
        assert forall x :: x in s[1..] ==> x.id != o.id;
        assert r[1..] == s[1..];
      }
    }
  }

  lemma AttachRawKeeps(d: State, m: Symbol, id: Hash, raw: Raw)
    requires Coherent(d)
    ensures Coherent(AttachRawOp(d, m, id, raw).0)
  {
    var b := BookOf(d, m);
    BookOfBacked(d, m);
    var hit := Locate(b, id);
    if hit.Some? {
      var o := WithRaw(hit.value, raw);
      OverwriteBacked(d.rows, d.rows, m, b, hit.value, o);
      Rebuild(d, AttachRawOp(d, m, id, raw).0, m, Overwrite(b, o));
    }
  }

  // ---------------------------------------------------------------------------
  // Market orders
  // ---------------------------------------------------------------------------

  lemma HitHeadShape(d: State, m: Symbol, taker: Side, size: int)
    requires Coherent(d) && size > 0 && SideOf(BookOf(d, m), Opposite(taker)) != []
    ensures var levels := SideOf(BookOf(d, m), Opposite(taker));
            var (d', f) := HitHead(d, m, taker, size);
            && f == FillOf(levels[0], Min(size, levels[0].sizeBase))
            && d'.books == d.books[m := WithSide(BookOf(d, m), Opposite(taker), Residue(levels, f.sizeBase))]
            && f.sizeBase > 0
            && SideOf(BookOf(d', m), Opposite(taker)) == Residue(levels, f.sizeBase)
            && SideOf(BookOf(d', m), taker) == SideOf(BookOf(d, m), taker)
            && |SideOf(BookOf(d', m), Opposite(taker))| <= |levels|
            && levels[0].sizeBase > 0
  {
    var levels := SideOf(BookOf(d, m), Opposite(taker));
    BookOfBacked(d, m);
    assert levels[0] in levels;
    assert Residue(levels[1..], 0) == levels[1..];
  }

  lemma HeadRowUpdated(rows: map<Hash, Row>, rows': map<Hash, Row>, m: Symbol, b: Book, taker: Side, exec: int)
    requires BookBacked(rows, m, b) && SideOf(b, Opposite(taker)) != []
    requires 0 < exec <= SideOf(b, Opposite(taker))[0].sizeBase
    requires var head := SideOf(b, Opposite(taker))[0];
             head.id in rows &&
             rows' == rows[head.id := rows[head.id].(remainingBase := rows[head.id].remainingBase - exec,
                                                     status := if exec < head.sizeBase then PARTIALLY_FILLED else FILLED)]
    ensures BookBacked(rows', m, WithSide(b, Opposite(taker), Residue(SideOf(b, Opposite(taker)), exec)))
  {
    var side := Opposite(taker);
    var levels := SideOf(b, side);
    ResidueGood(side, levels, exec);
    assert levels[0] in levels && Residue(levels[1..], 0) == levels[1..];
    var rest := Residue(levels, exec);
    assert rest == if exec < levels[0].sizeBase then [levels[0].(sizeBase := levels[0].sizeBase - exec)] + levels[1..]
                   else levels[1..];
    forall o | o in rest ensures Backed(rows', m, o) {
      if o in levels[1..] {
        assert o in levels && o.id != levels[0].id;
      }
    }
    forall o | o in SideOf(b, taker) ensures Backed(rows', m, o) {
      assert rows[o.id].side != rows[levels[0].id].side;
    }
  }

  lemma HitHeadKeeps(d: State, m: Symbol, taker: Side, size: int)
    requires Coherent(d) && size > 0 && SideOf(BookOf(d, m), Opposite(taker)) != []
    ensures Coherent(HitHead(d, m, taker, size).0)
  {
    var levels := SideOf(BookOf(d, m), Opposite(taker));
    var (d', f) := HitHead(d, m, taker, size);
    HitHeadShape(d, m, taker, size);
    BookOfBacked(d, m);
    assert levels[0] in levels;
    HeadRowUpdated(d.rows, d'.rows, m, BookOf(d, m), taker, f.sizeBase);
    Rebuild(d, d', m, WithSide(BookOf(d, m), Opposite(taker), Residue(levels, f.sizeBase)));
  }

  /** A market outcome (state, unfilled base, fills) that does to `levels` what the uncapped
      quote plans and leaves the taker's own side, `others`, alone. */
  predicate Honours(out: (State, int, seq<Fill>), m: Symbol, taker: Side, levels: seq<Order>, others: seq<Order>, size: int) {
    && out.2 == Plan(taker, None, levels, size)
    && out.1 + Filled(out.2) == size
    && SideOf(BookOf(out.0, m), Opposite(taker)) == Residue(levels, size)
    && SideOf(BookOf(out.0, m), taker) == others
  }

  function Prefixed(f: Fill, inner: (State, int, seq<Fill>)): (State, int, seq<Fill>) {
    (inner.0, inner.1, [f] + inner.2)
  }

  lemma MarketUnfolds(d: State, m: Symbol, taker: Side, size: int)
    requires size > 0 && SideOf(BookOf(d, m), Opposite(taker)) != []
    ensures var hit := HitHead(d, m, taker, size);
            var inner := MarketOp(hit.0, m, taker, size - hit.1.sizeBase);
            MarketOp(d, m, taker, size) == Prefixed(hit.1, inner)
  {
  }

  lemma PlanUnfolds(taker: Side, levels: seq<Order>, size: int, exec: int, fills: seq<Fill>)
    requires levels != [] && size > 0 && levels[0].sizeBase > 0 && exec == Min(size, levels[0].sizeBase)
    requires fills == Plan(taker, None, Residue(levels, exec), size - exec)
    ensures [FillOf(levels[0], exec)] + fills == Plan(taker, None, levels, size)
    ensures Residue(Residue(levels, exec), size - exec) == Residue(levels, size)
  {
    assert Residue(levels[1..], 0) == levels[1..];
    assert exec == size ==> fills == [] && Plan(taker, None, levels[1..], 0) == [];
  }

  lemma HonoursStep(out: (State, int, seq<Fill>), inner: (State, int, seq<Fill>), m: Symbol, taker: Side,
                    levels: seq<Order>, others: seq<Order>, size: int, exec: int)
    requires levels != [] && size > 0 && levels[0].sizeBase > 0 && exec == Min(size, levels[0].sizeBase)
    requires Honours(inner, m, taker, Residue(levels, exec), others, size - exec)
    requires out == (inner.0, inner.1, [FillOf(levels[0], exec)] + inner.2)
    ensures Honours(out, m, taker, levels, others, size)
  {
    PlanUnfolds(taker, levels, size, exec, inner.2);
    assert out.2[1..] == inner.2;
  }

  /** One turn of the loop, seen from outside. */
  predicate Turned(d: State, m: Symbol, taker: Side, size: int, d1: State, exec: int)
    requires SideOf(BookOf(d, m), Opposite(taker)) != []
  {
    var levels := SideOf(BookOf(d, m), Opposite(taker));
    && levels[0].sizeBase > 0
    && exec == Min(size, levels[0].sizeBase)
    && SideOf(BookOf(d1, m), Opposite(taker)) == Residue(levels, exec)
    && SideOf(BookOf(d1, m), taker) == SideOf(BookOf(d, m), taker)
    && |Residue(levels, exec)| <= |levels|
  }

  lemma MarketTurn(d: State, m: Symbol, taker: Side, size: int) returns (d1: State, exec: int)
    requires Coherent(d) && size > 0 && SideOf(BookOf(d, m), Opposite(taker)) != []
    ensures Coherent(d1) && Turned(d, m, taker, size, d1, exec)
    ensures MarketOp(d, m, taker, size)
         == Prefixed(FillOf(SideOf(BookOf(d, m), Opposite(taker))[0], exec), MarketOp(d1, m, taker, size - exec))
    ensures (d1, FillOf(SideOf(BookOf(d, m), Opposite(taker))[0], exec)) == HitHead(d, m, taker, size)
  {
    HitHeadKeeps(d, m, taker, size);
    HitHeadShape(d, m, taker, size);
    MarketUnfolds(d, m, taker, size);
    d1 := HitHead(d, m, taker, size).0;
    exec := HitHead(d, m, taker, size).1.sizeBase;
  }

  lemma {:induction false} OutcomeCoherent(d: State, m: Symbol, taker: Side, size: int, out: (State, int, seq<Fill>))
    requires Coherent(d) && out == MarketOp(d, m, taker, size)
    ensures Coherent(out.0)
    decreases |SideOf(BookOf(d, m), Opposite(taker))|, size
  {
    if size > 0 && SideOf(BookOf(d, m), Opposite(taker)) != [] {
      var d1, exec := MarketTurn(d, m, taker, size);
      OutcomeCoherent(d1, m, taker, size - exec, MarketOp(d1, m, taker, size - exec));
    }
  }

  /** A market order keeps coherence. */
  lemma MarketKeeps(d: State, m: Symbol, taker: Side, size: int)
    requires Coherent(d)
    ensures Coherent(MarketOp(d, m, taker, size).0)
  {
    OutcomeCoherent(d, m, taker, size, MarketOp(d, m, taker, size));
  }

  lemma NothingTaken(d: State, m: Symbol, taker: Side, size: int)
    requires size <= 0 || SideOf(BookOf(d, m), Opposite(taker)) == []
    ensures MarketOp(d, m, taker, size) == (d, size, [])
  {
  }

  lemma NothingHonours(d: State, m: Symbol, taker: Side, levels: seq<Order>, size: int)
    requires levels == SideOf(BookOf(d, m), Opposite(taker)) && (size <= 0 || levels == [])
    ensures Honours((d, size, []), m, taker, levels, SideOf(BookOf(d, m), taker), size)
  {
  }

  /** One turn as it shows in fills and sides. */
  lemma TurnTakes(d: State, m: Symbol, taker: Side, size: int, levels: seq<Order>, others: seq<Order>)
    returns (d1: State, exec: int, inner: (State, int, seq<Fill>))
    requires Coherent(d) && size > 0 && levels != []
    requires levels == SideOf(BookOf(d, m), Opposite(taker)) && others == SideOf(BookOf(d, m), taker)
    ensures Coherent(d1) && levels[0].sizeBase > 0 && exec == Min(size, levels[0].sizeBase)
    ensures SideOf(BookOf(d1, m), Opposite(taker)) == Residue(levels, exec) && |Residue(levels, exec)| <= |levels|
    ensures SideOf(BookOf(d1, m), taker) == others && inner == MarketOp(d1, m, taker, size - exec)
    ensures MarketOp(d, m, taker, size) == (inner.0, inner.1, [FillOf(levels[0], exec)] + inner.2)
  {
    d1, exec := MarketTurn(d, m, taker, size);
    inner := MarketOp(d1, m, taker, size - exec);
  }

  lemma {:induction false} OutcomeHonours(d: State, m: Symbol, taker: Side, size: int, levels: seq<Order>, others: seq<Order>,
                                          out: (State, int, seq<Fill>))
    requires Coherent(d) && out == MarketOp(d, m, taker, size)
    requires levels == SideOf(BookOf(d, m), Opposite(taker)) && others == SideOf(BookOf(d, m), taker)
    ensures Honours(out, m, taker, levels, others, size)
    decreases |levels|, size
  {
    if size > 0 && levels != [] {
      var d1, exec, inner := TurnTakes(d, m, taker, size, levels, others);
      OutcomeHonours(d1, m, taker, size - exec, Residue(levels, exec), others, inner);
      HonoursStep(out, inner, m, taker, levels, others, size, exec);
    } else {
      NothingTaken(d, m, taker, size);
      NothingHonours(d, m, taker, levels, size);
    }
  }

  /** Market fills what the uncapped quote plans on the same book, reports the unfilled rest,
      and leaves the old side minus those fills. */
  lemma MarketRefinesQuote(d: State, m: Symbol, taker: Side, size: int)
    requires Coherent(d)
    ensures Honours(MarketOp(d, m, taker, size), m, taker,
                    SideOf(BookOf(d, m), Opposite(taker)), SideOf(BookOf(d, m), taker), size)
  {
    OutcomeHonours(d, m, taker, size, SideOf(BookOf(d, m), Opposite(taker)), SideOf(BookOf(d, m), taker),
                   MarketOp(d, m, taker, size));
  }

  function MarketTrades(m: Symbol, fills: seq<Fill>): seq<Trade> {
    if fills == [] then [] else [MarketTrade(m, fills[0])] + MarketTrades(m, fills[1..])
  }

  /** The rows and the trade log after `out` account for every fill made since `d`. */
  predicate Settles(d: State, out: (State, int, seq<Fill>), m: Symbol, id: Hash) {
    && id in d.rows && id in out.0.rows
    && out.0.rows[id].remainingBase + FilledOf(out.2, id) == d.rows[id].remainingBase
    && out.0.trades == d.trades + MarketTrades(m, out.2)
  }

  /** One turn: one trade, and the head's row gives up what was executed. */
  lemma HeadSettles(d: State, m: Symbol, taker: Side, size: int, id: Hash)
    requires SideOf(BookOf(d, m), Opposite(taker)) != [] && id in d.rows
    requires HitHead(d, m, taker, size).1.makerOrderHash in d.rows
    ensures var (d1, f) := HitHead(d, m, taker, size);
            && d1.trades == d.trades + [MarketTrade(m, f)]
            && id in d1.rows
            && d1.rows[id].remainingBase == d.rows[id].remainingBase - if f.makerOrderHash == id then f.sizeBase else 0
  {
  }

  /** What one turn with fill `f` did to the trades and to one row. */
  predicate Paid(d: State, d1: State, m: Symbol, f: Fill, id: Hash) {
    && id in d.rows && id in d1.rows
    && d1.trades == d.trades + [MarketTrade(m, f)]
    && d1.rows[id].remainingBase == d.rows[id].remainingBase - if f.makerOrderHash == id then f.sizeBase else 0
  }

  lemma SettlesStep(d: State, m: Symbol, id: Hash, d1: State, f: Fill, inner: (State, int, seq<Fill>))
    requires Settles(d1, inner, m, id) && Paid(d, d1, m, f, id)
    ensures Settles(d, Prefixed(f, inner), m, id)
  {
    assert ([f] + inner.2)[0] == f && ([f] + inner.2)[1..] == inner.2;
    assert d.trades + [MarketTrade(m, f)] + MarketTrades(m, inner.2)
        == d.trades + ([MarketTrade(m, f)] + MarketTrades(m, inner.2));
  }

  lemma HeadIsBacked(d: State, m: Symbol, taker: Side)
    requires Coherent(d) && SideOf(BookOf(d, m), Opposite(taker)) != []
    ensures SideOf(BookOf(d, m), Opposite(taker))[0].id in d.rows
  {
    BookOfBacked(d, m);
    assert Backed(d.rows, m, SideOf(BookOf(d, m), Opposite(taker))[0]);
  }

  /** What the market loop leaves, by name. */
  predicate Comes(d: State, m: Symbol, taker: Side, size: int, out: (State, int, seq<Fill>)) {
    out == MarketOp(d, m, taker, size)
  }

  /** One turn of the loop as rows and trades see it. */
  lemma TurnPays(d: State, m: Symbol, taker: Side, size: int, levels: seq<Order>, id: Hash, out: (State, int, seq<Fill>))
    returns (d1: State, f: Fill, rest: seq<Order>, inner: (State, int, seq<Fill>))
    requires Coherent(d) && size > 0 && levels != [] && levels == SideOf(BookOf(d, m), Opposite(taker)) && id in d.rows
    requires Comes(d, m, taker, size, out)
    ensures Coherent(d1) && Paid(d, d1, m, f, id) && f.sizeBase > 0
    ensures rest == SideOf(BookOf(d1, m), Opposite(taker)) && |rest| <= |levels|
    ensures Comes(d1, m, taker, size - f.sizeBase, inner) && out == Prefixed(f, inner)
  {
    var exec;
    d1, exec := MarketTurn(d, m, taker, size);
    f, rest, inner := FillOf(levels[0], exec), SideOf(BookOf(d1, m), Opposite(taker)), MarketOp(d1, m, taker, size - exec);
    HeadIsBacked(d, m, taker);
    HeadSettles(d, m, taker, size, id);
  }

  lemma NothingSettles(d: State, size: int, m: Symbol, id: Hash)
    requires id in d.rows
    ensures Settles(d, (d, size, []), m, id)
  {
    assert d.trades + [] == d.trades;
  }

  lemma {:induction false} OutcomeSettles(d: State, m: Symbol, taker: Side, size: int, levels: seq<Order>, id: Hash,
                                          out: (State, int, seq<Fill>))
    requires Coherent(d) && id in d.rows && Comes(d, m, taker, size, out)
    requires levels == SideOf(BookOf(d, m), Opposite(taker))
    ensures Settles(d, out, m, id)
    decreases |levels|, size
  {
    if size > 0 && levels != [] {
      var d1, f, rest, inner := TurnPays(d, m, taker, size, levels, id, out);
      OutcomeSettles(d1, m, taker, size - f.sizeBase, rest, id, inner);
      SettlesStep(d, m, id, d1, f, inner);
    } else {
      NothingTaken(d, m, taker, size);
      NothingSettles(d, size, m, id);
    }
  }

  /** Every fill is paid for: each row gives up exactly what was filled against it, and one
      trade is recorded per fill, in order. */
  lemma MarketSettlesRows(d: State, m: Symbol, taker: Side, size: int, id: Hash)
    requires Coherent(d) && id in d.rows
    ensures Settles(d, MarketOp(d, m, taker, size), m, id)
  {
    OutcomeSettles(d, m, taker, size, SideOf(BookOf(d, m), Opposite(taker)), id, MarketOp(d, m, taker, size));
  }

  // ---------------------------------------------------------------------------
  // Operations with an exact condition
  // ---------------------------------------------------------------------------

  /** What a caller must look up before placing: the hash is new, or its row already says
      exactly what is being placed. */
  predicate SafeToPlace(d: State, m: Symbol, t: Ticket) {
    t.id !in d.rows ||
    (d.rows[t.id].market == m && d.rows[t.id].side == t.side &&
     d.rows[t.id].priceTicks == t.priceTicks && d.rows[t.id].remainingBase == t.sizeBase)
  }

  /** What placing does after the earlier level with the hash is gone. */
  function Queued(d: State, m: Symbol, t: Ticket, now: int): Book {
    var b := BookOf(d, m);
    WithSide(b, t.side, StableSort(t.side, SideOf(b, t.side) + [OrderOf(t, now)]))
  }

  lemma PlaceShape(d: State, m: Symbol, t: Ticket, now: int)
    requires Coherent(d)
    ensures var d1 := CancelOp(d, m, t.id).0;
            var d' := Placed(d, m, t, now);
            && d'.books == d1.books[m := Queued(d1, m, t, now)]
            && d'.rows == Upserted(d1.rows, m, t, now)
            && OrderOf(t, now) in SideOf(Queued(d1, m, t, now), t.side)
            && (t.id in d1.rows ==> t.id in d.rows && d1.rows[t.id] == d.rows[t.id].(status := d1.rows[t.id].status))
            && (t.id in d.rows ==> t.id in d1.rows)
  {
    var d1 := CancelOp(d, m, t.id).0;
    CancelKeeps(d, m, t.id);
    BookOfBacked(d1, m);
    PushThenSort(t.side, SideOf(BookOf(d1, m), t.side), OrderOf(t, now));
  }

  lemma SafeUpsert(rows: map<Hash, Row>, m: Symbol, t: Ticket, now: int)
    requires NoneNegative(rows) && t.sizeBase > 0
    requires t.id in rows ==> rows[t.id].market == m && rows[t.id].side == t.side && rows[t.id].priceTicks == t.priceTicks
                              && rows[t.id].remainingBase == t.sizeBase
    ensures Backed(Upserted(rows, m, t, now), m, OrderOf(t, now))
    ensures OnlyTouches(rows, Upserted(rows, m, t, now), m) && NoneNegative(Upserted(rows, m, t, now))
    ensures forall h :: h in rows && h != t.id ==> h in Upserted(rows, m, t, now) && Upserted(rows, m, t, now)[h] == rows[h]
  {
  }

  lemma SafePlaceKeeps(d: State, m: Symbol, t: Ticket, now: int)
    requires Coherent(d) && t.sizeBase > 0 && SafeToPlace(d, m, t)
    ensures Coherent(Placed(d, m, t, now))
  {
    var d1 := CancelOp(d, m, t.id).0;
    PlaceShape(d, m, t, now);
    CancelKeeps(d, m, t.id);
    QueueKeeps(d1, Placed(d, m, t, now), m, t, now);
  }

  /** Queueing a new level whose row says the same. */
  lemma QueueKeeps(d1: State, d': State, m: Symbol, t: Ticket, now: int)
    requires Coherent(d1) && t.sizeBase > 0 && SafeToPlace(d1, m, t) && !Holds(BookOf(d1, m), t.id)
    requires d'.books == d1.books[m := Queued(d1, m, t, now)] && d'.rows == Upserted(d1.rows, m, t, now)
    ensures Coherent(d')
  {
    BookOfBacked(d1, m);
    SafeUpsert(d1.rows, m, t, now);
    RowOfAbsentId(d1.rows, d'.rows, m, BookOf(d1, m), t.id);
    InsertBacked(d'.rows, m, BookOf(d1, m), OrderOf(t, now));
    Rebuild(d1, d', m, Queued(d1, m, t, now));
  }

  lemma UnsafePlaceBreaks(d: State, m: Symbol, t: Ticket, now: int)
    requires Coherent(d) && !SafeToPlace(d, m, t)
    ensures !Coherent(Placed(d, m, t, now))
  {
    PlaceShape(d, m, t, now);
    var d' := Placed(d, m, t, now);
    assert !Backed(d'.rows, m, OrderOf(t, now));
    assert !BookBacked(d'.rows, m, d'.books[m]);
  }

  lemma AcceptedIsPositive(r: Rules, t: Ticket)
    requires Refusal(r, t).None?
    ensures t.sizeBase > 0 && t.priceTicks > 0
  {
  }

  /** Placement keeps coherence exactly for such hashes; on any other known hash only the
      status is reset and the book then promises what the row does not back. */
  lemma PlaceKeepsIff(r: Rules, d: State, m: Symbol, t: Ticket, now: int)
    requires Coherent(d) && Refusal(r, t).None?
    ensures Coherent(PlaceOp(r, d, m, t, now)) <==> SafeToPlace(d, m, t)
  {
    AcceptedIsPositive(r, t);
    if SafeToPlace(d, m, t) {
      SafePlaceKeeps(d, m, t, now);
    } else {
      UnsafePlaceBreaks(d, m, t, now);
    }
  }

  /** The order rests in the book of some other market. */
  predicate RestsElsewhere(d: State, m: Symbol, id: Hash) {
    exists m' :: m' in d.books && m' != m && Holds(d.books[m'], id)
  }

  /** An id whose row names this market, or that has no row, rests in no other. */
  lemma NotElsewhere(d: State, m: Symbol, id: Hash)
    requires Coherent(d) && (id in d.rows ==> d.rows[id].market == m)
    ensures !RestsElsewhere(d, m, id)
  {
    forall m' | m' in d.books && Holds(d.books[m'], id) ensures m' == m {
      assert Backed(d.rows, m', Locate(d.books[m'], id).value);
    }
  }

  lemma PartialFillKeeps(d: State, d': State, m: Symbol, hit: Order, left: int)
    requires Coherent(d) && Locate(BookOf(d, m), hit.id) == Some(hit) && 0 < left <= hit.sizeBase
    requires d' == Decrease(PutBook(d, m, Overwrite(BookOf(d, m), hit.(sizeBase := left))), hit.id, hit.sizeBase - left,
                            PARTIALLY_FILLED)
    ensures Coherent(d')
  {
    BookOfBacked(d, m);
    assert Backed(d.rows, m, hit);
    OverwriteBacked(d.rows, d'.rows, m, BookOf(d, m), hit, hit.(sizeBase := left));
    Rebuild(d, d', m, Overwrite(BookOf(d, m), hit.(sizeBase := left)));
  }

  lemma FullFillKeeps(d: State, d': State, m: Symbol, hit: Order)
    requires Coherent(d) && Locate(BookOf(d, m), hit.id) == Some(hit)
    requires d' == Decrease(PutBook(d, m, Drop(BookOf(d, m), hit.id)), hit.id, hit.sizeBase, FILLED)
    ensures Coherent(d')
  {
    BookOfBacked(d, m);
    assert Backed(d.rows, m, hit);
    DropBacked(d.rows, m, BookOf(d, m), hit.id);
    RowOfAbsentId(d.rows, d'.rows, m, Drop(BookOf(d, m), hit.id), hit.id);
    Rebuild(d, d', m, Drop(BookOf(d, m), hit.id));
  }

  lemma ExternalFillInBook(d: State, m: Symbol, id: Hash, execBase: int, listed: bool, now: int)
    requires Coherent(d) && execBase > 0 && Holds(BookOf(d, m), id)
    ensures Coherent(ExternalFillOp(d, m, id, execBase, listed, now).0)
  {
    BookOfBacked(d, m);
    var hit := Locate(BookOf(d, m), id).value;
    var left := hit.sizeBase - Min(execBase, hit.sizeBase);
    var d' := ExternalFillOp(d, m, id, execBase, listed, now).0;
    if left > 0 {
      PartialFillKeeps(d, d', m, hit, left);
    } else {
      FullFillKeeps(d, d', m, hit);
    }
  }

  /** A row that rests nowhere may lose base. */
  lemma DecreaseKeeps(d: State, m: Symbol, id: Hash, exec: int, s: OrderStatus)
    requires Coherent(d) && id in d.rows && 0 <= exec <= d.rows[id].remainingBase
    requires !Holds(BookOf(d, m), id) && !RestsElsewhere(d, m, id)
    ensures Coherent(Decrease(d, id, exec, s))
  {
    var d1 := Decrease(d, id, exec, s);
    forall m' | m' in d1.books ensures BookBacked(d1.rows, m', d1.books[m']) {
      RowOfAbsentId(d.rows, d1.rows, m', d.books[m'], id);
    }
  }

  lemma ExternalFillOutOfBook(d: State, m: Symbol, id: Hash, execBase: int, listed: bool, now: int)
    requires Coherent(d) && execBase > 0 && !Holds(BookOf(d, m), id)
    requires listed ==> id in d.rows && IsPlaced(d.rows[id], m)
    requires !RestsElsewhere(d, m, id)
    ensures Coherent(ExternalFillOp(d, m, id, execBase, listed, now).0)
  {
    if id in d.rows {
      var row := d.rows[id];
      var exec := Min(execBase, row.remainingBase);
      var s := if exec >= row.remainingBase then FILLED else PARTIALLY_FILLED;
      var d1 := Decrease(d, id, exec, s);
      DecreaseKeeps(d, m, id, exec, s);
      if exec < row.remainingBase && listed {
        HydrateKeeps(d1, m, LevelOfRow(id, row, row.remainingBase - exec, now));
      }
    }
  }

  /** Reconciling a fill keeps coherence exactly when the order does not rest under another
      market: the caller's market must be the one the order was placed in. */
  lemma ExternalFillKeepsIff(d: State, m: Symbol, id: Hash, execBase: int, listed: bool, now: int)
    requires Coherent(d) && execBase > 0
    requires listed ==> id in d.rows && IsPlaced(d.rows[id], m)
    ensures Coherent(ExternalFillOp(d, m, id, execBase, listed, now).0) <==> !RestsElsewhere(d, m, id)
  {
    if Holds(BookOf(d, m), id) {
      ExternalFillInBook(d, m, id, execBase, listed, now);
      assert Backed(d.rows, m, Locate(BookOf(d, m), id).value);
      forall m' | m' in d.books && Holds(d.books[m'], id) ensures m' == m {
        assert Backed(d.rows, m', Locate(d.books[m'], id).value);
      }
    } else if !RestsElsewhere(d, m, id) {
      ExternalFillOutOfBook(d, m, id, execBase, listed, now);
    } else {
      var m' :| m' in d.books && m' != m && Holds(d.books[m'], id);
      var o := Locate(d.books[m'], id).value;
      assert Backed(d.rows, m', o);
      var d' := ExternalFillOp(d, m, id, execBase, listed, now).0;
      assert d'.books[m'] == d.books[m'];
      assert !Backed(d'.rows, m', o);
      assert !BookBacked(d'.rows, m', d'.books[m']);
    }
  }

  lemma RetractHereKeeps(d: State, m: Symbol, id: Hash)
    requires Coherent(d) && !RestsElsewhere(d, m, id)
    ensures Coherent(RetractOp(d, m, id))
  {
    var d1, d' := CancelOp(d, m, id).0, RetractOp(d, m, id);
    CancelKeeps(d, m, id);
    forall m' | m' in d'.books ensures BookBacked(d'.rows, m', d'.books[m']) {
      assert !Holds(d1.books[m'], id);
      RowOfAbsentId(d1.rows, d'.rows, m', d1.books[m'], id);
    }
  }

  lemma RetractElsewhereBreaks(d: State, m: Symbol, id: Hash, m': Symbol)
    requires Coherent(d) && m' in d.books && m' != m && Holds(d.books[m'], id)
    ensures !Coherent(RetractOp(d, m, id))
  {
    var d' := RetractOp(d, m, id);
    var o := Locate(d.books[m'], id).value;
    assert Backed(d.rows, m', o) && d'.books[m'] == d.books[m'];
    assert !Backed(d'.rows, m', o);
    assert !BookBacked(d'.rows, m', d'.books[m']);
  }

  /** The cancel endpoints and a failed placement cancel the row whatever the book held; that
      is safe exactly when the order does not rest under another market. */
  lemma RetractKeepsIff(d: State, m: Symbol, id: Hash)
    requires Coherent(d)
    ensures Coherent(RetractOp(d, m, id)) <==> !RestsElsewhere(d, m, id)
  {
    if RestsElsewhere(d, m, id) {
      var m' :| m' in d.books && m' != m && Holds(d.books[m'], id);
      RetractElsewhereBreaks(d, m, id, m');
    } else {
      RetractHereKeeps(d, m, id);
    }
  }

  // ---------------------------------------------------------------------------
  // Expiry and rehydration
  // ---------------------------------------------------------------------------

  lemma {:induction false} AliveGood(side: Side, s: seq<Order>, nowSec: int)
    requires GoodSide(side, s)
    ensures GoodSide(side, Alive(s, nowSec))
  {
    if s != [] {
      AliveGood(side, s[1..], nowSec);
      if !IsExpired(s[0], nowSec) {
        assert Alive(s, nowSec)[1..] == Alive(s[1..], nowSec);
      }
    }
  }

  lemma SweepExpiredKeeps(d: State, nowSec: int)
    requires Coherent(d)
    ensures Coherent(SweepExpiredOp(d, nowSec))
  {
    var d' := SweepExpiredOp(d, nowSec);
    forall m | m in d'.books ensures BookBacked(d'.rows, m, d'.books[m]) {
      AliveGood(BUY, d.books[m].bids, nowSec);
      AliveGood(SELL, d.books[m].asks, nowSec);
      forall o | o in d'.books[m].bids || o in d'.books[m].asks ensures Backed(d'.rows, m, o) {
        if Lapsed(d.books, d.books.Keys, o.id, nowSec) {
          var m1, o1 :| m1 in d.books && (o1 in d.books[m1].bids || o1 in d.books[m1].asks)
            && o1.id == o.id && IsExpired(o1, nowSec);
          OneHomePerId(d, m, m1, o, o1);
          assert false;
        }
      }
    }
  }

  lemma ReviveKeeps(d: State, m: Symbol, id: Hash, now: int)
    requires Coherent(d) && id in d.rows && IsPlaced(d.rows[id], m)
    ensures Coherent(ReviveOp(d, m, id, now))
  {
    HydrateKeeps(d, m, LevelOfRow(id, d.rows[id], d.rows[id].remainingBase, now));
    var d' := HydrateOp(d, m, LevelOfRow(id, d.rows[id], d.rows[id].remainingBase, now));
    if d.rows[id].raw.Some? {
      AttachRawKeeps(d', m, id, d.rows[id].raw.value);
    }
  }

  lemma {:induction false} ReviveAllKeeps(d: State, m: Symbol, ids: seq<Hash>, clock: nat -> int)
    requires Coherent(d) && forall h :: h in ids ==> h in d.rows && IsPlaced(d.rows[h], m)
    ensures Coherent(ReviveAll(d, m, ids, clock))
  {
    if ids != [] {
      ReviveAllKeeps(d, m, ids[..|ids| - 1], clock);
      ReviveKeeps(ReviveAll(d, m, ids[..|ids| - 1], clock), m, ids[|ids| - 1], clock(|ids| - 1));
    }
  }

  // ---------------------------------------------------------------------------
  // Whole histories
  // ---------------------------------------------------------------------------

  datatype Op =
    | Place(r: Rules, m: Symbol, t: Ticket, now: int)
    | Cancel(m: Symbol, id: Hash)
    | Retract(m: Symbol, id: Hash)
    | Market(m: Symbol, taker: Side, size: int)
    | ExternalFill(m: Symbol, id: Hash, execBase: int, now: int)
    | AttachRaw(m: Symbol, id: Hash, raw: Raw)
    | PersistRaw(id: Hash, raw: Raw)
    | SweepExpired(nowSec: int)
    | Restart
    | Rehydrate(m: Symbol, clock: nat -> int)

  ghost function Step(d: State, op: Op): State {
    match op
    case Place(r, m, t, now) => PlaceOp(r, d, m, t, now)
    case Cancel(m, id) => CancelOp(d, m, id).0
    case Retract(m, id) => RetractOp(d, m, id)
    case Market(m, taker, size) => MarketOp(d, m, taker, size).0
    case ExternalFill(m, id, execBase, now) => ExternalFillOp(d, m, id, execBase, id in Listing(d.rows, m), now).0
    case AttachRaw(m, id, raw) => AttachRawOp(d, m, id, raw).0
    case PersistRaw(id, raw) => d.(rows := RawPersisted(d.rows, id, raw))
    case SweepExpired(nowSec) => SweepExpiredOp(d, nowSec)
    case Restart => d.(books := map[])
    case Rehydrate(m, clock) => RehydrateOp(d, m, clock)
  }

  /** What callers owe: positive fills, and the two look-ups above. */
  predicate Owed(d: State, op: Op) {
    match op
    case Place(r, m, t, _) => Refusal(r, t).None? ==> SafeToPlace(d, m, t)
    case Retract(m, id) => !RestsElsewhere(d, m, id)
    case ExternalFill(m, id, execBase, _) => !RestsElsewhere(d, m, id)
    case _ => true
  }

  predicate WellPosed(op: Op) {
    op.ExternalFill? ==> op.execBase > 0
  }

  /** The operations nobody owes anything for. */
  lemma FreeStepKeeps(d: State, op: Op)
    requires Coherent(d) && !(op.Place? || op.Retract? || op.ExternalFill?)
    ensures Coherent(Step(d, op))
  {
    match op {
      case Cancel(m, id) => CancelKeeps(d, m, id);
      case Market(m, taker, size) => MarketKeeps(d, m, taker, size);
      case AttachRaw(m, id, raw) => AttachRawKeeps(d, m, id, raw);
      case PersistRaw(id, raw) => PersistRawKeeps(d, id, raw);
      case SweepExpired(nowSec) => SweepExpiredKeeps(d, nowSec);
      case Restart =>
      case Rehydrate(m, clock) => ReviveAllKeeps(d, m, Listing(d.rows, m), clock);
    }
  }

  lemma PersistRawKeeps(d: State, id: Hash, raw: Raw)
    requires Coherent(d)
    ensures Coherent(d.(rows := RawPersisted(d.rows, id, raw)))
  {
  }

  /** One operation keeps coherence exactly when its caller met the look-ups. */
  lemma StepKeepsIff(d: State, op: Op)
    requires Coherent(d) && WellPosed(op)
    ensures Coherent(Step(d, op)) <==> Owed(d, op)
  {
    if op.Place? {
      if Refusal(op.r, op.t).None? {
        PlaceKeepsIff(op.r, d, op.m, op.t, op.now);
      }
    } else if op.Retract? {
      RetractKeepsIff(d, op.m, op.id);
    } else if op.ExternalFill? {
      ExternalFillKeepsIff(d, op.m, op.id, op.execBase, op.id in Listing(d.rows, op.m), op.now);
    } else {
      FreeStepKeeps(d, op);
    }
  }

  ghost function Run(d: State, ops: seq<Op>): State {
    if ops == [] then d else Step(Run(d, ops[..|ops| - 1]), ops[|ops| - 1])
  }

  /** Every caller along the way met its look-ups. */
  ghost predicate Respectful(d: State, ops: seq<Op>) {
    ops == [] ||
    (Respectful(d, ops[..|ops| - 1]) && WellPosed(ops[|ops| - 1]) && Owed(Run(d, ops[..|ops| - 1]), ops[|ops| - 1]))
  }

  /** Along any history of look-up-respecting calls, the books stay within the rows, no
      remaining goes negative and no id rests twice. */
  lemma {:induction false} HistoriesStayCoherent(d: State, ops: seq<Op>)
    requires Coherent(d) && Respectful(d, ops)
    ensures Coherent(Run(d, ops))
  {
    if ops != [] {
      HistoriesStayCoherent(d, ops[..|ops| - 1]);
      StepKeepsIff(Run(d, ops[..|ops| - 1]), ops[|ops| - 1]);
    }
  }

  /** Placing a filled hash again, at its own terms, books base the row no longer has. */
  lemma ReusedHashBreaksCoherence()
    ensures exists r, d, m, t, now ::
              Coherent(d) && Refusal(r, t).None? && !Coherent(PlaceOp(r, d, m, t, now))
  {
    var row := Row("M", "a", SELL, 7, 5, 0, FILLED, 0, None);
    var d := State(map[], map[1 := row], []);
    var r := Rules(0, 1, 1, 1, "b", "q");
    var t := Ticket(1, "a", SELL, 7, 5);
    PlaceKeepsIff(r, d, "M", t, 9);
    assert !SafeToPlace(d, "M", t);
  }
}
