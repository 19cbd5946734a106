/** The in-memory books beside their order rows, and what each operation does to both.
    Models apps/api/src/matching/orderbook.service.ts and persistence.repository.ts. */
module Desk {
  import opened Prelude
  import opened Levels
  import opened Sweep

  datatype OrderStatus = PLACED | PARTIALLY_FILLED | FILLED | CANCELLED | EXPIRED

  datatype Row = Row(market: Symbol, maker: Address, side: Side, priceTicks: int, sizeBase: int,
                     remainingBase: int, status: OrderStatus, placedAt: int, raw: Option<Raw>)

  datatype Trade = Trade(market: Symbol, makerOrderHash: Hash, taker: Address, priceTicks: int,
                         sizeBase: int, txHash: Option<TxHash>)

  predicate Concerns(t: Trade, tx: TxHash, m: Symbol, owner: Address) {
    t.txHash == Some(tx) && t.market == m && t.taker == owner
  }

  datatype Book = Book(bids: seq<Order>, asks: seq<Order>)

  datatype Rules = Rules(baseDecimals: nat, minNotionalQ: nat, minSizeB: nat, priceTickQ: nat,
                         baseAddress: Address, quoteAddress: Address)

  /** Everything the matching side remembers. */
  datatype State = State(books: map<Symbol, Book>, rows: map<Hash, Row>, trades: seq<Trade>)

  const LISTING_CAP: nat := 10000
  const ZERO_ADDR: Address := "0x0000000000000000000000000000000000000000"

  // ---------------------------------------------------------------------------
  // Reading and writing one book
  // ---------------------------------------------------------------------------

  function BookOf(d: State, m: Symbol): Book {
    if m in d.books then d.books[m] else Book([], [])
  }

  function SideOf(b: Book, side: Side): seq<Order> {
    if side == BUY then b.bids else b.asks
  }

  function WithSide(b: Book, side: Side, s: seq<Order>): Book {
    if side == BUY then b.(bids := s) else b.(asks := s)
  }

  function PutBook(d: State, m: Symbol, b: Book): State {
    d.(books := d.books[m := b])
  }

  function Drop(b: Book, id: Hash): Book {
    Book(Without(b.bids, id), Without(b.asks, id))
  }

  function Locate(b: Book, id: Hash): Option<Order> {
    var hit := Find(b.bids, id);
    if hit.Some? then hit else Find(b.asks, id)
  }

  predicate Holds(b: Book, id: Hash) {
    Locate(b, id).Some?
  }

  // ---------------------------------------------------------------------------
  // Row updates
  // ---------------------------------------------------------------------------

  function StatusSet(rows: map<Hash, Row>, id: Hash, s: OrderStatus): map<Hash, Row> {
    if id in rows then rows[id := rows[id].(status := s)] else rows
  }

  function Decreased(rows: map<Hash, Row>, id: Hash, exec: int, s: OrderStatus): map<Hash, Row> {
    if id in rows then rows[id := rows[id].(remainingBase := rows[id].remainingBase - exec, status := s)] else rows
  }

  datatype Ticket = Ticket(id: Hash, maker: Address, side: Side, priceTicks: int, sizeBase: int)

  /** A row that already exists only has its status reset. */
  function Upserted(rows: map<Hash, Row>, m: Symbol, t: Ticket, now: int): map<Hash, Row> {
    if t.id in rows then StatusSet(rows, t.id, PLACED)
    else rows[t.id := Row(m, t.maker, t.side, t.priceTicks, t.sizeBase, t.sizeBase, PLACED, now, None)]
  }

  function RawPersisted(rows: map<Hash, Row>, id: Hash, raw: Raw): map<Hash, Row> {
    if id in rows then rows[id := rows[id].(raw := Some(raw))] else rows
  }

  function SetStatus(d: State, id: Hash, s: OrderStatus): State {
    d.(rows := StatusSet(d.rows, id, s))
  }

  function Decrease(d: State, id: Hash, exec: int, s: OrderStatus): State {
    d.(rows := Decreased(d.rows, id, exec, s))
  }

  // ---------------------------------------------------------------------------
  // Operations
  // ---------------------------------------------------------------------------

  /** Take an order off its book; the row is cancelled only if something was removed. */
  function CancelOp(d: State, m: Symbol, id: Hash): (State, bool) {
    var b := BookOf(d, m);
    var b' := Drop(b, id);
    var removed := |b'.bids| != |b.bids| || |b'.asks| != |b.asks|;
    var d' := PutBook(d, m, b');
    if removed then (SetStatus(d', id, CANCELLED), true) else (d', false)
  }

  /** Cancel with the database fallback of the cancel endpoints and of a failed placement. */
  function RetractOp(d: State, m: Symbol, id: Hash): State {
    SetStatus(CancelOp(d, m, id).0, id, CANCELLED)
  }

  function Refusal(r: Rules, t: Ticket): Option<string> {
    if t.sizeBase <= 0 then Some("size_must_be_positive")
    else if t.priceTicks <= 0 then Some("price_ticks_must_be_positive")
    else if t.sizeBase < r.minSizeB then Some("min_size_violation")
    else if Notional(t.priceTicks, r.priceTickQ, t.sizeBase, r.baseDecimals) < r.minNotionalQ
    then Some("min_notional_violation")
    else None
  }

  function OrderOf(t: Ticket, now: int): Order {
    Order(t.id, t.maker, t.side, t.priceTicks, t.sizeBase, now, None, 0)
  }

  /** Push on the order's side, then sort that side again. */
  function Enqueue(d: State, m: Symbol, o: Order): State {
    var b := BookOf(d, m);
    PutBook(d, m, WithSide(b, o.side, StableSort(o.side, SideOf(b, o.side) + [o])))
  }

  /** What an accepted ticket does: drop any earlier level with its hash, queue it, upsert its row. */
  function Placed(d: State, m: Symbol, t: Ticket, now: int): State {
    var queued := Enqueue(CancelOp(d, m, t.id).0, m, OrderOf(t, now));
    queued.(rows := Upserted(queued.rows, m, t, now))
  }

  function PlaceOp(r: Rules, d: State, m: Symbol, t: Ticket, now: int): State {
    if Refusal(r, t).Some? then d else Placed(d, m, t, now)
  }

  /** Inject a level without touching its row. */
  function HydrateOp(d: State, m: Symbol, o: Order): State {
    Enqueue(PutBook(d, m, Drop(BookOf(d, m), o.id)), m, o)
  }

  function WithRaw(o: Order, raw: Raw): Order {
    o.(raw := Some(raw), expirySec := if raw.expiry > 0 then raw.expiry else o.expirySec)
  }

  function Overwrite(b: Book, o: Order): Book {
    if Find(b.bids, o.id).Some? then b.(bids := Replace(b.bids, o.id, o))
    else b.(asks := Replace(b.asks, o.id, o))
  }

  function AttachRawOp(d: State, m: Symbol, id: Hash, raw: Raw): (State, bool) {
    var hit := Locate(BookOf(d, m), id);
    if hit.None? then (d, false)
    else (PutBook(d, m, Overwrite(BookOf(d, m), WithRaw(hit.value, raw))), true)
  }

  function MarketTrade(m: Symbol, f: Fill): Trade {
    Trade(m, f.makerOrderHash, ZERO_ADDR, f.priceTicks, f.sizeBase, None)
  }

  /** One turn of the market loop against the head of the opposite side. */
  function HitHead(d: State, m: Symbol, taker: Side, size: int): (State, Fill)
    requires SideOf(BookOf(d, m), Opposite(taker)) != []
  {
    var b := BookOf(d, m);
    var levels := SideOf(b, Opposite(taker));
    var head := levels[0];
    var exec := Min(size, head.sizeBase);
    var left := head.sizeBase - exec;
    var rest := if left == 0 then levels[1..] else [head.(sizeBase := left)] + levels[1..];
    var traded := d.(trades := d.trades + [MarketTrade(m, FillOf(head, exec))]);
    (Decrease(PutBook(traded, m, WithSide(b, Opposite(taker), rest)), head.id, exec,
              if left > 0 then PARTIALLY_FILLED else FILLED),
     FillOf(head, exec))
  }

  /** The market loop: final state, unfilled base and fills. */
  function MarketOp(d: State, m: Symbol, taker: Side, size: int): (State, int, seq<Fill>)
    decreases |SideOf(BookOf(d, m), Opposite(taker))|, size
  {
    if size <= 0 || SideOf(BookOf(d, m), Opposite(taker)) == [] then (d, size, [])
    else
      var (d', f) := HitHead(d, m, taker, size);
      var (d'', left, fs) := MarketOp(d', m, taker, size - f.sizeBase);
      (d'', left, [f] + fs)
  }

  datatype FillStatus = Partial | Full | DbOnly | NotFound

  function LevelOfRow(id: Hash, row: Row, size: int, now: int): Order {
    Order(id, row.maker, row.side, row.priceTicks, size, now, None, 0)
  }

  /** Reconcile a fill seen on chain. `listed` says whether the row was among the placed rows. */
  function ExternalFillOp(d: State, m: Symbol, id: Hash, execBase: int, listed: bool, now: int): (State, FillStatus) {
    var b := BookOf(d, m);
    var hit := Locate(b, id);
    if hit.Some? then
      var exec := Min(execBase, hit.value.sizeBase);
      var left := hit.value.sizeBase - exec;
      if left > 0 then
        (Decrease(PutBook(d, m, Overwrite(b, hit.value.(sizeBase := left))), id, exec, PARTIALLY_FILLED), Partial)
      else (Decrease(PutBook(d, m, Drop(b, id)), id, exec, FILLED), Full)
    else if id !in d.rows then (d, NotFound)
    else
      var row := d.rows[id];
      var exec := Min(execBase, row.remainingBase);
      var full := exec >= row.remainingBase;
      var d' := Decrease(d, id, exec, if full then FILLED else PARTIALLY_FILLED);
      (if !full && listed then HydrateOp(d', m, LevelOfRow(id, row, row.remainingBase - exec, now)) else d', DbOnly)
  }

  predicate IsExpired(o: Order, nowSec: int) {
    o.expirySec > 0 && o.expirySec <= nowSec
  }

  function Alive(s: seq<Order>, nowSec: int): (r: seq<Order>)
    ensures forall x :: x in r <==> x in s && !IsExpired(x, nowSec)
  {
    if s == [] then []
    else
      var t := Alive(s[1..], nowSec);
      assert forall x :: x in s <==> x == s[0] || x in s[1..];
      if IsExpired(s[0], nowSec) then t else [s[0]] + t
  }

  /** Some order resting in one of the `swept` markets with this id has passed its expiry. */
  ghost predicate Lapsed(books: map<Symbol, Book>, swept: set<Symbol>, id: Hash, nowSec: int) {
    exists m, o :: m in swept && m in books && (o in books[m].bids || o in books[m].asks)
                   && o.id == id && IsExpired(o, nowSec)
  }

  function Pruned(b: Book, nowSec: int): Book {
    Book(Alive(b.bids, nowSec), Alive(b.asks, nowSec))
  }

  /** The expiry sweep once it has visited the `swept` markets. */
  ghost function SweptSoFar(d: State, swept: set<Symbol>, nowSec: int): State {
    State(map m | m in d.books :: if m in swept then Pruned(d.books[m], nowSec) else d.books[m],
          map h | h in d.rows :: if Lapsed(d.books, swept, h, nowSec) then d.rows[h].(status := EXPIRED) else d.rows[h],
          d.trades)
  }

  ghost function SweepExpiredOp(d: State, nowSec: int): State {
    SweptSoFar(d, d.books.Keys, nowSec)
  }

  // ---------------------------------------------------------------------------
  // The listing of placed rows
  // ---------------------------------------------------------------------------

  predicate IsPlaced(row: Row, m: Symbol) {
    row.status == PLACED && row.market == m && row.remainingBase > 0
  }

  function PlacedIn(rows: map<Hash, Row>, m: Symbol): set<Hash> {
    set h | h in rows && IsPlaced(rows[h], m)
  }

  /** `orderBy placedAt asc, orderHash asc`. */
  predicate Before(rows: map<Hash, Row>, a: Hash, b: Hash)
    requires a in rows && b in rows
  {
    rows[a].placedAt < rows[b].placedAt || (rows[a].placedAt == rows[b].placedAt && a < b)
  }

  predicate IsFirst(rows: map<Hash, Row>, s: set<Hash>, x: Hash)
    requires s <= rows.Keys
  {
    x in s && forall y :: y in s ==> y == x || Before(rows, x, y)
  }

  lemma {:induction false} FirstExists(rows: map<Hash, Row>, s: set<Hash>)
    requires s <= rows.Keys && s != {}
    ensures exists x :: IsFirst(rows, s, x)
  {
    var z :| z in s;
    if s == {z} {
      assert IsFirst(rows, s, z);
    } else {
      FirstExists(rows, s - {z});
      var x :| IsFirst(rows, s - {z}, x);
      if Before(rows, x, z) {
        assert IsFirst(rows, s, x);
      } else {
        forall y | y in s ensures y == z || Before(rows, z, y) {
          assert y == z || y in s - {z};
        }
        assert IsFirst(rows, s, z);
      }
    }
  }

  ghost function InOrderOfPlacing(rows: map<Hash, Row>, s: set<Hash>): (r: seq<Hash>)
    requires s <= rows.Keys
    ensures |r| == |s|
    ensures forall h :: h in r <==> h in s
  {
    if s == {} then []
    else
      FirstExists(rows, s);
      var x :| IsFirst(rows, s, x);
      [x] + InOrderOfPlacing(rows, s - {x})
  }

  ghost function Listing(rows: map<Hash, Row>, m: Symbol): (r: seq<Hash>)
    ensures forall h :: h in r ==> h in rows && IsPlaced(rows[h], m)
  {
    var all := InOrderOfPlacing(rows, PlacedIn(rows, m));
    assert forall h :: h in all[..Min(|all|, LISTING_CAP)] ==> h in all;
    all[..Min(|all|, LISTING_CAP)]
  }

  // ---------------------------------------------------------------------------
  // Rehydration
  // ---------------------------------------------------------------------------

  function RevivedOrder(id: Hash, row: Row, now: int): Order {
    var o := LevelOfRow(id, row, row.remainingBase, now);
    if row.raw.Some? then WithRaw(o, row.raw.value) else o
  }

  function ReviveOp(d: State, m: Symbol, id: Hash, now: int): State
    requires id in d.rows
  {
    var d' := HydrateOp(d, m, LevelOfRow(id, d.rows[id], d.rows[id].remainingBase, now));
    if d.rows[id].raw.Some? then AttachRawOp(d', m, id, d.rows[id].raw.value).0 else d'
  }

  /** Revive the listed ids in turn; reading number i of the clock is `clock(i)`. */
  function ReviveAll(d: State, m: Symbol, ids: seq<Hash>, clock: nat -> int): (r: State)
    requires forall h :: h in ids ==> h in d.rows
    ensures r.rows == d.rows
  {
    if ids == [] then d
    else
      var d' := ReviveAll(d, m, ids[..|ids| - 1], clock);
      ReviveOp(d', m, ids[|ids| - 1], clock(|ids| - 1))
  }

  ghost function RehydrateOp(d: State, m: Symbol, clock: nat -> int): State {
    ReviveAll(d, m, Listing(d.rows, m), clock)
  }
}
