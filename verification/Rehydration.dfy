/** Rebuilding a market from its rows: arrival order comes back, and doing it twice changes
    nothing a client can see. Models apps/api/src/matching/lob-rehydrator.service.ts:20-59 with
    orderbook.service.ts:168-203. */
module Rehydration {
  import opened Prelude
  import opened Levels
  import opened Desk
  import opened Coherence
  import DeskOutcomes

  /** An order apart from the moment it entered memory. */
  function Face(o: Order): Order {
    o.(ts := 0)
  }

  function Faces(s: seq<Order>): seq<Order> {
    if s == [] then [] else [Face(s[0])] + Faces(s[1..])
  }

  function Only(s: seq<Order>, ids: set<Hash>): seq<Order> {
    if s == [] then [] else if s[0].id in ids then [s[0]] + Only(s[1..], ids) else Only(s[1..], ids)
  }

  lemma {:induction false} OnlyMembers(s: seq<Order>, ids: set<Hash>)
    ensures forall x :: x in Only(s, ids) <==> x in s && x.id in ids
  {
    if s != [] {
      OnlyMembers(s[1..], ids);
      assert forall x :: x in s <==> x == s[0] || x in s[1..];
    }
  }

  /** The listed rows put on a side one after the other, by price alone. */
  function SideFromRows(base: seq<Order>, rows: map<Hash, Row>, ids: seq<Hash>, side: Side): seq<Order>
    requires forall h :: h in ids ==> h in rows
  {
    if ids == [] then base
    else
      var front, h := ids[..|ids| - 1], ids[|ids| - 1];
      if rows[h].side == side then Insert(side, SideFromRows(base, rows, front, side), RevivedOrder(h, rows[h], 0))
      else SideFromRows(base, rows, front, side)
  }

  lemma {:induction false} FacesOfInsert(side: Side, s: seq<Order>, o: Order)
    requires forall x :: x in s ==> x.ts <= o.ts
    ensures Faces(Insert(side, s, o)) == Insert(side, Faces(s), Face(o))
  {
    if s != [] {
      if InOrder(side, s[0], o) {
        FacesOfInsert(side, s[1..], o);
        assert Insert(side, s, o)[1..] == Insert(side, s[1..], o);
      } else {
        assert ([o] + s)[1..] == s;
      }
      assert Faces(s)[1..] == Faces(s[1..]);
    }
  }

  lemma {:induction false} OnlyOfInsert(side: Side, s: seq<Order>, o: Order, ids: set<Hash>)
    requires Sorted(side, s) && o.id in ids
    ensures Only(Insert(side, s, o), ids) == Insert(side, Only(s, ids), o)
  {
    if s != [] {
      if InOrder(side, s[0], o) {
        OnlyOfInsert(side, s[1..], o, ids);
        assert Insert(side, s, o)[1..] == Insert(side, s[1..], o);
        if s[0].id in ids {
          assert Only(s, ids)[1..] == Only(s[1..], ids);
        }
      } else {
        assert ([o] + s)[1..] == s;
        var t := Only(s, ids);
        OnlyMembers(s, ids);
        if t != [] {
          assert t[0] in s && (t[0] == s[0] || t[0] in s[1..]);
        }
      }
    }
  }

  lemma {:induction false} OnlyWithout(s: seq<Order>, id: Hash, ids: set<Hash>)
    requires id !in ids
    ensures Only(Without(s, id), ids + {id}) == Only(s, ids)
  {
    if s != [] {
      OnlyWithout(s[1..], id, ids);
      if s[0].id != id {
        assert Without(s, id)[1..] == Without(s[1..], id);
      }
    }
  }

  lemma {:induction false} OnlyAll(s: seq<Order>, ids: set<Hash>)
    requires forall x :: x in s ==> x.id in ids
    ensures Only(s, ids) == s
  {
    if s != [] {
      OnlyAll(s[1..], ids);
    }
  }

  lemma {:induction false} SameSlot(side: Side, s: seq<Order>, o: Order, o': Order) returns (k: nat)
    requires o'.priceTicks == o.priceTicks && o'.ts == o.ts
    ensures k <= |s|
    ensures Insert(side, s, o) == s[..k] + [o] + s[k..]
    ensures Insert(side, s, o') == s[..k] + [o'] + s[k..]
  {
    if s != [] && InOrder(side, s[0], o) {
      var j := SameSlot(side, s[1..], o, o');
      k := j + 1;
      assert s[..k] == [s[0]] + s[1..][..j] && s[k..] == s[1..][j..];
    } else {
      k := 0;
    }
  }

  lemma ReplaceInserted(side: Side, s: seq<Order>, o: Order, o': Order)
    requires forall x :: x in s ==> x.id != o.id
    requires o'.id == o.id && o'.priceTicks == o.priceTicks && o'.ts == o.ts
    ensures Replace(Insert(side, s, o), o.id, o') == Insert(side, s, o')
  {
    var k := SameSlot(side, s, o, o');
  }

  /** The book with `o` queued on its side. */
  function With(b: Book, o: Order): Book {
    WithSide(b, o.side, Insert(o.side, SideOf(b, o.side), o))
  }

  /** A book after one row is revived: the level leaves both sides and comes back, raw
      attached, at the end of its price. */
  function RevivedBook(b: Book, id: Hash, row: Row, now: int): Book {
    With(Drop(b, id), RevivedOrder(id, row, now))
  }

  lemma HydrateShape(d: State, m: Symbol, o: Order)
    requires Coherent(d)
    ensures !Holds(Drop(BookOf(d, m), o.id), o.id)
    ensures BookOf(HydrateOp(d, m, o), m) == With(Drop(BookOf(d, m), o.id), o)
  {
    var b := Drop(BookOf(d, m), o.id);
    BookOfBacked(d, m);
    DropBacked(d.rows, m, BookOf(d, m), o.id);
    PushThenSort(o.side, SideOf(b, o.side), o);
  }

  lemma FoundWhereQueued(b: Book, o: Order)
    requires !Holds(b, o.id)
    ensures Locate(With(b, o), o.id) == Some(o)
  {
    assert o in Insert(o.side, SideOf(b, o.side), o);
  }

  lemma AttachShape(b: Book, o: Order, raw: Raw)
    requires !Holds(b, o.id)
    ensures Overwrite(With(b, o), WithRaw(o, raw)) == With(b, WithRaw(o, raw))
  {
    FoundWhereQueued(b, o);
    ReplaceInserted(o.side, SideOf(b, o.side), o, WithRaw(o, raw));
  }

  lemma ReviveShape(d: State, m: Symbol, id: Hash, now: int)
    requires Coherent(d) && id in d.rows
    ensures BookOf(ReviveOp(d, m, id, now), m) == RevivedBook(BookOf(d, m), id, d.rows[id], now)
  {
    var row := d.rows[id];
    var o := LevelOfRow(id, row, row.remainingBase, now);
    var b := Drop(BookOf(d, m), id);
    HydrateShape(d, m, o);
    FoundWhereQueued(b, o);
    if row.raw.Some? {
      AttachShape(b, o, row.raw.value);
    }
  }

  predicate NotAfter(b: Book, t: int) {
    (forall x :: x in b.bids ==> x.ts <= t) && (forall x :: x in b.asks ==> x.ts <= t)
  }

  /** Readings 0 to `n` never decrease. */
  predicate NeverBackwards(clock: nat -> int, n: nat) {
    n == 0 || (clock(n - 1) <= clock(n) && NeverBackwards(clock, n - 1))
  }

  function IdSet(ids: seq<Hash>): set<Hash> {
    set h | h in ids
  }

  predicate NoRepeats(ids: seq<Hash>) {
    forall i, j :: 0 <= i < j < |ids| ==> ids[i] != ids[j]
  }

  lemma ReviveOneStep(d: State, m: Symbol, h: Hash, now: int, side: Side, done: set<Hash>)
    requires Coherent(d) && h in d.rows && h !in done && NotAfter(BookOf(d, m), now)
    ensures Faces(Only(SideOf(BookOf(ReviveOp(d, m, h, now), m), side), done + {h}))
         == if d.rows[h].side == side then Insert(side, Faces(Only(SideOf(BookOf(d, m), side), done)), RevivedOrder(h, d.rows[h], 0))
            else Faces(Only(SideOf(BookOf(d, m), side), done))
  {
    ReviveShape(d, m, h, now);
    BookOfBacked(d, m);
    ReviveStep(BookOf(d, m), h, d.rows[h], now, side, done);
  }

  lemma ReviveStaysInThePast(b: Book, id: Hash, row: Row, now: int, next: int)
    requires NotAfter(b, now) && now <= next
    ensures NotAfter(RevivedBook(b, id, row, now), next)
  {
  }

  lemma RevivedSide(b: Book, id: Hash, row: Row, now: int, side: Side)
    ensures SideOf(RevivedBook(b, id, row, now), side)
         == if row.side == side then Insert(side, Without(SideOf(b, side), id), RevivedOrder(id, row, now))
            else Without(SideOf(b, side), id)
    ensures Face(RevivedOrder(id, row, now)) == RevivedOrder(id, row, 0)
    ensures RevivedOrder(id, row, now).id == id && RevivedOrder(id, row, now).ts == now
  {
  }

  lemma ReviveStep(b: Book, id: Hash, row: Row, now: int, side: Side, done: set<Hash>)
    requires Sorted(side, SideOf(b, side)) && id !in done && NotAfter(b, now)
    ensures Faces(Only(SideOf(RevivedBook(b, id, row, now), side), done + {id}))
         == if row.side == side then Insert(side, Faces(Only(SideOf(b, side), done)), RevivedOrder(id, row, 0))
            else Faces(Only(SideOf(b, side), done))
  {
    RevivedSide(b, id, row, now, side);
    if row.side == side {
      InsertedStep(side, SideOf(b, side), RevivedOrder(id, row, now), done);
    } else {
      OnlyWithout(SideOf(b, side), id, done);
    }
  }

  lemma InsertedStep(side: Side, s: seq<Order>, o: Order, done: set<Hash>)
    requires Sorted(side, s) && o.id !in done && forall x :: x in s ==> x.ts <= o.ts
    ensures Faces(Only(Insert(side, Without(s, o.id), o), done + {o.id})) == Insert(side, Faces(Only(s, done)), Face(o))
  {
    WithoutGood(side, s, o.id);
    OnlyWithout(s, o.id, done);
    OnlyMembers(s, done);
    OnlyOfInsert(side, Without(s, o.id), o, done + {o.id});
    FacesOfInsert(side, Only(s, done), o);
  }

  lemma IdSetGrows(front: seq<Hash>, h: Hash, kept: set<Hash>)
    ensures kept + IdSet(front + [h]) == kept + IdSet(front) + {h}
  {
  }

  /** The side `now` is the kept orders of `was` with the rows of `ids` put among them. */
  predicate Rebuilt(was: seq<Order>, now: seq<Order>, rows: map<Hash, Row>, ids: seq<Hash>, side: Side, kept: set<Hash>)
    requires forall h :: h in ids ==> h in rows
  {
    Faces(Only(now, kept + IdSet(ids))) == SideFromRows(Faces(Only(was, kept)), rows, ids, side)
  }

  lemma RebuiltOneMore(was: seq<Order>, s1: seq<Order>, s2: seq<Order>, rows: map<Hash, Row>, front: seq<Hash>, h: Hash,
                       side: Side, kept: set<Hash>)
    requires (forall x :: x in front ==> x in rows) && h in rows && Rebuilt(was, s1, rows, front, side, kept)
    requires Faces(Only(s2, kept + IdSet(front) + {h}))
          == if rows[h].side == side then Insert(side, Faces(Only(s1, kept + IdSet(front))), RevivedOrder(h, rows[h], 0))
             else Faces(Only(s1, kept + IdSet(front)))
    ensures forall x :: x in front + [h] ==> x in rows
    ensures Rebuilt(was, s2, rows, front + [h], side, kept)
  {
    IdSetGrows(front, h, kept);
    assert (front + [h])[..|front + [h]| - 1] == front;
  }

  /** The next id has a row, is not among the kept, and was not revived before. */
  predicate IsNext(rows: map<Hash, Row>, front: seq<Hash>, h: Hash, kept: set<Hash>) {
    (forall x :: x in front ==> x in rows) && h in rows && h !in kept && h !in front
  }

  lemma RebuiltByRevival(was: seq<Order>, d1: State, out: State, m: Symbol, front: seq<Hash>, h: Hash, now: int, side: Side,
                         kept: set<Hash>)
    requires Coherent(d1) && NotAfter(BookOf(d1, m), now) && IsNext(d1.rows, front, h, kept)
    requires out == ReviveOp(d1, m, h, now)
    requires Rebuilt(was, SideOf(BookOf(d1, m), side), d1.rows, front, side, kept)
    ensures forall x :: x in front + [h] ==> x in d1.rows
    ensures Rebuilt(was, SideOf(BookOf(out, m), side), d1.rows, front + [h], side, kept)
  {
    ReviveOneStep(d1, m, h, now, side, kept + IdSet(front));
    RebuiltOneMore(was, SideOf(BookOf(d1, m), side), SideOf(BookOf(out, m), side), d1.rows, front, h, side, kept);
  }

  lemma RebuiltFromNothing(was: seq<Order>, rows: map<Hash, Row>, side: Side, kept: set<Hash>)
    ensures Rebuilt(was, was, rows, [], side, kept)
  {
    assert kept + IdSet([]) == kept;
  }

  /** Rows of this market that may be revived, none of them among the `kept`. */
  predicate Revivable(rows: map<Hash, Row>, m: Symbol, ids: seq<Hash>, kept: set<Hash>) {
    forall h :: h in ids ==> h in rows && IsPlaced(rows[h], m) && h !in kept
  }

  /** The desk after the first `k` revivals. */
  function RevivedTo(d: State, m: Symbol, ids: seq<Hash>, k: nat, clock: nat -> int): State
    requires Revivable(d.rows, m, ids, {}) && k <= |ids|
  {
    ReviveAll(d, m, ids[..k], clock)
  }

  lemma OneMoreRevived(d: State, m: Symbol, ids: seq<Hash>, k: nat, clock: nat -> int)
    requires Coherent(d) && Revivable(d.rows, m, ids, {}) && 0 < k <= |ids|
    ensures ids[..k] == ids[..k - 1] + [ids[k - 1]] && ids[k - 1] in ids
    ensures Coherent(RevivedTo(d, m, ids, k - 1, clock)) && RevivedTo(d, m, ids, k - 1, clock).rows == d.rows
    ensures RevivedTo(d, m, ids, k, clock) == ReviveOp(RevivedTo(d, m, ids, k - 1, clock), m, ids[k - 1], clock(k - 1))
  {
    assert ids[..k][..k - 1] == ids[..k - 1];
    ReviveAllKeeps(d, m, ids[..k - 1], clock);
  }

  lemma NextOf(rows: map<Hash, Row>, m: Symbol, ids: seq<Hash>, k: nat, kept: set<Hash>)
    requires NoRepeats(ids) && Revivable(rows, m, ids, kept) && 0 < k <= |ids|
    ensures IsNext(rows, ids[..k - 1], ids[k - 1], kept)
  {
  }

  lemma {:induction false} RevivedInThePast(d: State, m: Symbol, ids: seq<Hash>, k: nat, clock: nat -> int)
    requires Coherent(d) && NeverBackwards(clock, k) && NotAfter(BookOf(d, m), clock(0))
    requires Revivable(d.rows, m, ids, {}) && k <= |ids|
    ensures NotAfter(BookOf(RevivedTo(d, m, ids, k, clock), m), clock(k))
  {
    if k > 0 {
      RevivedInThePast(d, m, ids, k - 1, clock);
      OneMoreRevived(d, m, ids, k, clock);
      var d1, h := RevivedTo(d, m, ids, k - 1, clock), ids[k - 1];
      ReviveShape(d1, m, h, clock(k - 1));
      ReviveStaysInThePast(BookOf(d1, m), h, d.rows[h], clock(k - 1), clock(k));
    }
  }

  /** Revival number `k` finds the desk coherent, its clock ahead of the book, and an id not yet seen. */
  lemma StepIsReady(d: State, m: Symbol, ids: seq<Hash>, k: nat, clock: nat -> int, kept: set<Hash>)
    requires Coherent(d) && NoRepeats(ids) && NeverBackwards(clock, k) && NotAfter(BookOf(d, m), clock(0))
    requires Revivable(d.rows, m, ids, kept) && Revivable(d.rows, m, ids, {}) && 0 < k <= |ids|
    ensures var d1 := RevivedTo(d, m, ids, k - 1, clock);
            && Coherent(d1) && d1.rows == d.rows && NotAfter(BookOf(d1, m), clock(k - 1))
            && IsNext(d1.rows, ids[..k - 1], ids[k - 1], kept)
            && RevivedTo(d, m, ids, k, clock) == ReviveOp(d1, m, ids[k - 1], clock(k - 1))
            && ids[..k] == ids[..k - 1] + [ids[k - 1]]
  {
    RevivedInThePast(d, m, ids, k - 1, clock);
    OneMoreRevived(d, m, ids, k, clock);
    NextOf(d.rows, m, ids, k, kept);
  }

  /** Half-way through, the `kept` orders stand as they did, with the levels revived so far put among
      them as their rows describe. */
  lemma {:induction false} ReviveProgress(d: State, m: Symbol, ids: seq<Hash>, k: nat, clock: nat -> int, side: Side,
                                          kept: set<Hash>)
    requires Coherent(d) && NoRepeats(ids) && NeverBackwards(clock, k) && NotAfter(BookOf(d, m), clock(0))
    requires Revivable(d.rows, m, ids, kept) && Revivable(d.rows, m, ids, {}) && k <= |ids|
    ensures Rebuilt(SideOf(BookOf(d, m), side), SideOf(BookOf(RevivedTo(d, m, ids, k, clock), m), side), d.rows, ids[..k],
                    side, kept)
  {
    var was := SideOf(BookOf(d, m), side);
    if k == 0 {
      RebuiltFromNothing(was, d.rows, side, kept);
    } else {
      ReviveProgress(d, m, ids, k - 1, clock, side, kept);
      StepIsReady(d, m, ids, k, clock, kept);
      RebuiltByRevival(was, RevivedTo(d, m, ids, k - 1, clock), RevivedTo(d, m, ids, k, clock), m, ids[..k - 1], ids[k - 1],
                       clock(k - 1), side, kept);
    }
  }

  lemma NoRepeatsCons(x: Hash, rest: seq<Hash>)
    requires NoRepeats(rest) && x !in rest
    ensures NoRepeats([x] + rest)
  {
  }

  lemma {:induction false} ListingHasNoRepeats(rows: map<Hash, Row>, s: set<Hash>)
    requires s <= rows.Keys
    ensures NoRepeats(InOrderOfPlacing(rows, s))
  {
    if s != {} {
      var x := InOrderOfPlacing(rows, s)[0];
      ListingHasNoRepeats(rows, s - {x});
      NoRepeatsCons(x, InOrderOfPlacing(rows, s - {x}));
    }
  }

  lemma ListingNoRepeats(rows: map<Hash, Row>, m: Symbol)
    ensures NoRepeats(Listing(rows, m))
  {
    ListingHasNoRepeats(rows, PlacedIn(rows, m));
  }

  function IdsOf(s: seq<Order>): set<Hash> {
    set x | x in s :: x.id
  }

  /** The orders of a side that the listing does not name: partially filled ones, or past its cap. */
  function Unlisted(s: seq<Order>, listed: seq<Hash>): seq<Order> {
    Only(s, IdsOf(s) - IdSet(listed))
  }

  lemma {:induction false} OnlyIgnores(side: Side, s: seq<Order>, o: Order, ids: set<Hash>)
    requires o.id !in ids
    ensures Only(Insert(side, s, o), ids) == Only(s, ids)
  {
    if s != [] && InOrder(side, s[0], o) {
      OnlyIgnores(side, s[1..], o, ids);
      assert Insert(side, s, o)[1..] == Insert(side, s[1..], o);
    } else {
      assert ([o] + s)[1..] == s;
    }
  }

  lemma OnlyIgnoresRemoved(s: seq<Order>, id: Hash, ids: set<Hash>)
    requires id !in ids
    ensures Only(Without(s, id), ids) == Only(s, ids)
  {
    OnlyWithout(s, id, ids);
    OnlyDrops(Without(s, id), id, ids);
  }

  lemma {:induction false} OnlyDrops(s: seq<Order>, id: Hash, ids: set<Hash>)
    requires forall x :: x in s ==> x.id != id
    ensures Only(s, ids + {id}) == Only(s, ids)
  {
    if s != [] {
      OnlyDrops(s[1..], id, ids);
    }
  }

  /** Every order of the side has one of these ids. */
  predicate AllIn(s: seq<Order>, ids: set<Hash>) {
    forall x :: x in s ==> x.id in ids
  }

  /** One revival leaves all other orders of the side as they are, and adds no id but its own. */
  lemma ReviveLeaves(d: State, m: Symbol, h: Hash, now: int, side: Side, kept: set<Hash>)
    requires Coherent(d) && h in d.rows && h !in kept
    ensures Only(SideOf(BookOf(ReviveOp(d, m, h, now), m), side), kept) == Only(SideOf(BookOf(d, m), side), kept)
  {
    ReviveShape(d, m, h, now);
    RevivedSide(BookOf(d, m), h, d.rows[h], now, side);
    var s := SideOf(BookOf(d, m), side);
    OnlyIgnoresRemoved(s, h, kept);
    OnlyIgnores(side, Without(s, h), RevivedOrder(h, d.rows[h], now), kept);
  }

  lemma ReviveStaysIn(d: State, m: Symbol, h: Hash, now: int, side: Side, ids: set<Hash>)
    requires Coherent(d) && h in d.rows && h in ids && AllIn(SideOf(BookOf(d, m), side), ids)
    ensures AllIn(SideOf(BookOf(ReviveOp(d, m, h, now), m), side), ids)
  {
    ReviveShape(d, m, h, now);
    RevivedSide(BookOf(d, m), h, d.rows[h], now, side);
  }

  lemma {:induction false} ReviveAllLeaves(d: State, m: Symbol, ids: seq<Hash>, k: nat, clock: nat -> int, side: Side,
                                           kept: set<Hash>)
    requires Coherent(d) && Revivable(d.rows, m, ids, kept) && Revivable(d.rows, m, ids, {}) && k <= |ids|
    ensures Only(SideOf(BookOf(RevivedTo(d, m, ids, k, clock), m), side), kept) == Only(SideOf(BookOf(d, m), side), kept)
  {
    if k > 0 {
      ReviveAllLeaves(d, m, ids, k - 1, clock, side, kept);
      OneMoreRevived(d, m, ids, k, clock);
      ReviveLeaves(RevivedTo(d, m, ids, k - 1, clock), m, ids[k - 1], clock(k - 1), side, kept);
    }
  }

  lemma OneMoreStaysIn(d: State, m: Symbol, ids: seq<Hash>, k: nat, clock: nat -> int, side: Side, home: set<Hash>)
    requires Coherent(d) && Revivable(d.rows, m, ids, {}) && 0 < k <= |ids| && forall h :: h in ids ==> h in home
    requires AllIn(SideOf(BookOf(RevivedTo(d, m, ids, k - 1, clock), m), side), home)
    ensures AllIn(SideOf(BookOf(RevivedTo(d, m, ids, k, clock), m), side), home)
  {
    OneMoreRevived(d, m, ids, k, clock);
    ReviveStaysIn(RevivedTo(d, m, ids, k - 1, clock), m, ids[k - 1], clock(k - 1), side, home);
  }

  lemma {:induction false} ReviveAllStaysIn(d: State, m: Symbol, ids: seq<Hash>, k: nat, clock: nat -> int, side: Side,
                                            home: set<Hash>)
    requires Coherent(d) && Revivable(d.rows, m, ids, {}) && k <= |ids|
    requires AllIn(SideOf(BookOf(d, m), side), home) && forall h :: h in ids ==> h in home
    ensures AllIn(SideOf(BookOf(RevivedTo(d, m, ids, k, clock), m), side), home)
  {
    if k > 0 {
      ReviveAllStaysIn(d, m, ids, k - 1, clock, side, home);
      OneMoreStaysIn(d, m, ids, k, clock, side, home);
    }
  }

  lemma WholeListing(d: State, m: Symbol, clock: nat -> int)
    ensures var ids := Listing(d.rows, m);
            && Revivable(d.rows, m, ids, {}) && NoRepeats(ids) && ids[..|ids|] == ids
            && RevivedTo(d, m, ids, |ids|, clock) == RehydrateOp(d, m, clock)
  {
    ListingNoRepeats(d.rows, m);
    assert Listing(d.rows, m)[..|Listing(d.rows, m)|] == Listing(d.rows, m);
  }

  lemma OnlyThoseIds(s: seq<Order>, kept: set<Hash>)
    requires kept <= IdsOf(s)
    ensures IdsOf(Only(s, kept)) == kept
  {
    OnlyMembers(s, kept);
    forall h | h in kept ensures h in IdsOf(Only(s, kept)) {
      var x :| x in s && x.id == h;
      assert x in Only(s, kept);
    }
  }

  /** Orders with other ids than the listed ones: nothing lost, nothing gained. */
  lemma SameUnlistedIds(was: seq<Order>, s: seq<Order>, ids: seq<Hash>)
    requires Only(s, IdsOf(was) - IdSet(ids)) == Only(was, IdsOf(was) - IdSet(ids)) && AllIn(s, IdsOf(was) + IdSet(ids))
    ensures IdsOf(s) - IdSet(ids) == IdsOf(was) - IdSet(ids)
  {
    var kept := IdsOf(was) - IdSet(ids);
    OnlyThoseIds(was, kept);
    OnlyMembers(s, kept);
    forall h | h in kept ensures h in IdsOf(s) {
      var x :| x in Only(s, kept) && x.id == h;
    }
  }

  /** The unlisted orders are the same before and after, down to the moment they came. */
  lemma UnlistedStays(d: State, m: Symbol, clock: nat -> int, side: Side)
    requires Coherent(d)
    ensures var listed := Listing(d.rows, m);
            Unlisted(SideOf(BookOf(RehydrateOp(d, m, clock), m), side), listed) == Unlisted(SideOf(BookOf(d, m), side), listed)
  {
    var ids := Listing(d.rows, m);
    var was, s := SideOf(BookOf(d, m), side), SideOf(BookOf(RehydrateOp(d, m, clock), m), side);
    WholeListing(d, m, clock);
    ReviveAllLeaves(d, m, ids, |ids|, clock, side, IdsOf(was) - IdSet(ids));
    ReviveAllStaysIn(d, m, ids, |ids|, clock, side, IdsOf(was) + IdSet(ids));
    SameUnlistedIds(was, s, ids);
  }

  /** After rehydrating, each side is its unlisted orders as they stood, with the listed rows put
      among them one after the other as the rows describe. */
  lemma RehydrateRebuilds(d: State, m: Symbol, clock: nat -> int, side: Side)
    requires Coherent(d)
    requires NeverBackwards(clock, |Listing(d.rows, m)|) && NotAfter(BookOf(d, m), clock(0))
    ensures Faces(SideOf(BookOf(RehydrateOp(d, m, clock), m), side))
         == SideFromRows(Faces(Unlisted(SideOf(BookOf(d, m), side), Listing(d.rows, m))), d.rows, Listing(d.rows, m), side)
    ensures Coherent(RehydrateOp(d, m, clock))
    ensures NotAfter(BookOf(RehydrateOp(d, m, clock), m), clock(|Listing(d.rows, m)|))
  {
    var ids := Listing(d.rows, m);
    var kept := IdsOf(SideOf(BookOf(d, m), side)) - IdSet(ids);
    WholeListing(d, m, clock);
    ReviveAllKeeps(d, m, ids, clock);
    RevivedInThePast(d, m, ids, |ids|, clock);
    ReviveProgress(d, m, ids, |ids|, clock, side, kept);
    ReviveAllStaysIn(d, m, ids, |ids|, clock, side, kept + IdSet(ids));
    OnlyAll(SideOf(BookOf(RehydrateOp(d, m, clock), m), side), kept + IdSet(ids));
  }

  /** Rehydrating again at a later time leaves every order, size, raw payload and queue
      position as it was. */
  lemma RehydrateIsIdempotent(d: State, m: Symbol, clock: nat -> int, later: nat -> int, side: Side)
    requires Coherent(d)
    requires NeverBackwards(clock, |Listing(d.rows, m)|) && NotAfter(BookOf(d, m), clock(0))
    requires NeverBackwards(later, |Listing(d.rows, m)|) && clock(|Listing(d.rows, m)|) <= later(0)
    ensures var once := RehydrateOp(d, m, clock);
            var twice := RehydrateOp(once, m, later);
            && Faces(SideOf(BookOf(twice, m), side)) == Faces(SideOf(BookOf(once, m), side))
            && twice.rows == once.rows
  {
    RehydrateRebuilds(d, m, clock, side);
    UnlistedStays(d, m, clock, side);
    RehydrateRebuilds(RehydrateOp(d, m, clock), m, later, side);
  }

  // ---------------------------------------------------------------------------
  // First in, first out
  // ---------------------------------------------------------------------------

  function AtPrice(s: seq<Order>, priceTicks: int): seq<Hash> {
    if s == [] then []
    else (if s[0].priceTicks == priceTicks then [s[0].id] else []) + AtPrice(s[1..], priceTicks)
  }

  function RowsAtPrice(rows: map<Hash, Row>, ids: seq<Hash>, side: Side, priceTicks: int): seq<Hash>
    requires forall h :: h in ids ==> h in rows
  {
    if ids == [] then []
    else
      var h := ids[|ids| - 1];
      RowsAtPrice(rows, ids[..|ids| - 1], side, priceTicks)
      + (if rows[h].side == side && rows[h].priceTicks == priceTicks then [h] else [])
  }

  lemma AtPriceCons(x: Order, rest: seq<Order>, priceTicks: int)
    ensures AtPrice([x] + rest, priceTicks) == (if x.priceTicks == priceTicks then [x.id] else []) + AtPrice(rest, priceTicks)
  {
    assert ([x] + rest)[1..] == rest;
  }

  lemma {:induction false} WorsePriceOnly(side: Side, s: seq<Order>, o: Order)
    requires Sorted(side, s) && s != [] && !InOrder(side, s[0], o)
    requires forall x :: x in s ==> x.ts <= o.ts
    ensures AtPrice(s, o.priceTicks) == []
  {
    if |s| > 1 {
      assert InOrder(side, s[0], s[1]);
      WorsePriceOnly(side, s[1..], o);
    }
  }

  /** An order no older than the rest of its side goes behind every order of its price. */
  lemma {:induction false} InsertJoinsTheBack(side: Side, s: seq<Order>, o: Order, priceTicks: int)
    requires Sorted(side, s) && forall x :: x in s ==> x.ts <= o.ts
    ensures AtPrice(Insert(side, s, o), priceTicks)
         == AtPrice(s, priceTicks) + (if o.priceTicks == priceTicks then [o.id] else [])
  {
    if s != [] && InOrder(side, s[0], o) {
      InsertJoinsTheBack(side, s[1..], o, priceTicks);
      AtPriceCons(s[0], Insert(side, s[1..], o), priceTicks);
    } else {
      AtPriceCons(o, s, priceTicks);
      assert [o] + s == Insert(side, s, o);
      if s != [] && o.priceTicks == priceTicks {
        WorsePriceOnly(side, s, o);
      }
    }
  }

  lemma {:induction false} SideFromRowsSorted(base: seq<Order>, rows: map<Hash, Row>, ids: seq<Hash>, side: Side)
    requires forall h :: h in ids ==> h in rows
    requires Sorted(side, base) && forall x :: x in base ==> x.ts == 0
    ensures Sorted(side, SideFromRows(base, rows, ids, side))
    ensures forall x :: x in SideFromRows(base, rows, ids, side) ==> x.ts == 0
  {
    if ids != [] {
      var front, h := ids[..|ids| - 1], ids[|ids| - 1];
      SideFromRowsSorted(base, rows, front, side);
      InsertSorted(side, SideFromRows(base, rows, front, side), RevivedOrder(h, rows[h], 0));
    }
  }

  lemma OneRowMore(base: seq<Order>, rows: map<Hash, Row>, front: seq<Hash>, h: Hash, side: Side, priceTicks: int)
    requires (forall x :: x in front ==> x in rows) && h in rows
    requires Sorted(side, base) && forall x :: x in base ==> x.ts == 0
    ensures forall x :: x in front + [h] ==> x in rows
    ensures AtPrice(SideFromRows(base, rows, front + [h], side), priceTicks)
         == AtPrice(SideFromRows(base, rows, front, side), priceTicks)
            + (if rows[h].side == side && rows[h].priceTicks == priceTicks then [h] else [])
    ensures RowsAtPrice(rows, front + [h], side, priceTicks)
         == RowsAtPrice(rows, front, side, priceTicks)
            + (if rows[h].side == side && rows[h].priceTicks == priceTicks then [h] else [])
  {
    assert (front + [h])[..|front + [h]| - 1] == front;
    if rows[h].side == side {
      SideFromRowsSorted(base, rows, front, side);
      InsertJoinsTheBack(side, SideFromRows(base, rows, front, side), RevivedOrder(h, rows[h], 0), priceTicks);
    }
  }

  lemma {:induction false} SideFromRowsIsFifo(base: seq<Order>, rows: map<Hash, Row>, ids: seq<Hash>, side: Side, priceTicks: int)
    requires forall h :: h in ids ==> h in rows
    requires Sorted(side, base) && forall x :: x in base ==> x.ts == 0
    ensures AtPrice(SideFromRows(base, rows, ids, side), priceTicks)
         == AtPrice(base, priceTicks) + RowsAtPrice(rows, ids, side, priceTicks)
  {
    if ids == [] {
      assert AtPrice(base, priceTicks) + [] == AtPrice(base, priceTicks);
    } else {
      var front, h := ids[..|ids| - 1], ids[|ids| - 1];
      assert ids == front + [h];
      SideFromRowsIsFifo(base, rows, front, side, priceTicks);
      OneRowMore(base, rows, front, h, side, priceTicks);
    }
  }

  lemma {:induction false} FacesSorted(side: Side, s: seq<Order>)
    requires Sorted(side, s)
    ensures Sorted(side, Faces(s)) && forall x :: x in Faces(s) ==> x.ts == 0 && exists y :: y in s && x == Face(y)
  {
    if s != [] {
      FacesSorted(side, s[1..]);
      assert Faces(s)[1..] == Faces(s[1..]);
      forall x | x in Faces(s[1..]) ensures InOrder(side, Face(s[0]), x) {
        var y :| y in s[1..] && x == Face(y);
        assert InOrder(side, s[0], y);
      }
    }
  }

  lemma {:induction false} OnlySorted(side: Side, s: seq<Order>, ids: set<Hash>)
    requires Sorted(side, s)
    ensures Sorted(side, Only(s, ids))
  {
    if s != [] {
      OnlySorted(side, s[1..], ids);
      OnlyMembers(s[1..], ids);
      if s[0].id in ids {
        assert Only(s, ids)[1..] == Only(s[1..], ids);
      }
    }
  }

  lemma {:induction false} AtPriceOfFaces(s: seq<Order>, priceTicks: int)
    ensures AtPrice(Faces(s), priceTicks) == AtPrice(s, priceTicks)
  {
    if s != [] {
      AtPriceOfFaces(s[1..], priceTicks);
      assert Faces(s)[1..] == Faces(s[1..]);
    }
  }

  /** The queue at every price: first the unlisted orders in their old order, then the listed rows of
      that price, oldest placement first. */
  lemma RehydrateRestoresFifo(d: State, m: Symbol, clock: nat -> int, side: Side, priceTicks: int)
    requires Coherent(d)
    requires NeverBackwards(clock, |Listing(d.rows, m)|) && NotAfter(BookOf(d, m), clock(0))
    ensures AtPrice(SideOf(BookOf(RehydrateOp(d, m, clock), m), side), priceTicks)
         == AtPrice(Unlisted(SideOf(BookOf(d, m), side), Listing(d.rows, m)), priceTicks)
            + RowsAtPrice(d.rows, Listing(d.rows, m), side, priceTicks)
  {
    var unlisted := Unlisted(SideOf(BookOf(d, m), side), Listing(d.rows, m));
    RehydrateRebuilds(d, m, clock, side);
    BookOfBacked(d, m);
    OnlySorted(side, SideOf(BookOf(d, m), side), IdsOf(SideOf(BookOf(d, m), side)) - IdSet(Listing(d.rows, m)));
    FacesSorted(side, unlisted);
    SideFromRowsIsFifo(Faces(unlisted), d.rows, Listing(d.rows, m), side, priceTicks);
    AtPriceOfFaces(unlisted, priceTicks);
    AtPriceOfFaces(SideOf(BookOf(RehydrateOp(d, m, clock), m), side), priceTicks);
  }

  lemma {:induction false} EarlierIsBefore(rows: map<Hash, Row>, s: set<Hash>, i: nat, j: nat)
    requires s <= rows.Keys && i < j < |s|
    ensures Before(rows, InOrderOfPlacing(rows, s)[i], InOrderOfPlacing(rows, s)[j])
  {
    var r := InOrderOfPlacing(rows, s);
    var x := r[0];
    var rest := InOrderOfPlacing(rows, s - {x});
    assert IsFirst(rows, s, x) && r == [x] + rest;
    if i > 0 {
      EarlierIsBefore(rows, s - {x}, i - 1, j - 1);
    } else {
      assert rest[j - 1] in rest;
    }
  }

  /** The listing itself runs by placement time, ties by hash. */
  lemma ListingInOrder(rows: map<Hash, Row>, s: set<Hash>, i: nat, j: nat)
    requires s <= rows.Keys && i < j < |s|
    ensures var a, b := InOrderOfPlacing(rows, s)[i], InOrderOfPlacing(rows, s)[j];
            rows[a].placedAt < rows[b].placedAt || (rows[a].placedAt == rows[b].placedAt && a < b)
  {
    EarlierIsBefore(rows, s, i, j);
  }

  // ---------------------------------------------------------------------------
  // What survives a restart
  // ---------------------------------------------------------------------------

  /** The members of `s` placed before `id`. */
  function AheadIn(rows: map<Hash, Row>, s: set<Hash>, id: Hash): set<Hash>
    requires s <= rows.Keys && id in rows
  {
    set h | h in s && Before(rows, h, id)
  }

  lemma NoneAheadOfFirst(rows: map<Hash, Row>, s: set<Hash>, x: Hash)
    requires s <= rows.Keys && IsFirst(rows, s, x)
    ensures AheadIn(rows, s, x) == {}
  {
  }

  lemma FirstIsAhead(rows: map<Hash, Row>, s: set<Hash>, x: Hash, y: Hash)
    requires s <= rows.Keys && IsFirst(rows, s, x) && y in s - {x}
    ensures |AheadIn(rows, s, y)| == |AheadIn(rows, s - {x}, y)| + 1
  {
    assert AheadIn(rows, s, y) == AheadIn(rows, s - {x}, y) + {x};
  }

  /** An order's place in the listing is the number of orders placed before it. */
  lemma {:induction false} PlaceInListing(rows: map<Hash, Row>, s: set<Hash>, i: nat)
    requires s <= rows.Keys && i < |s|
    ensures |AheadIn(rows, s, InOrderOfPlacing(rows, s)[i])| == i
  {
    var r := InOrderOfPlacing(rows, s);
    var x, rest := r[0], s - {r[0]};
    assert IsFirst(rows, s, x) && r == [x] + InOrderOfPlacing(rows, rest);
    if i == 0 {
      NoneAheadOfFirst(rows, s, x);
    } else {
      PlaceInListing(rows, rest, i - 1);
      assert r[i] == InOrderOfPlacing(rows, rest)[i - 1];
      FirstIsAhead(rows, s, x, r[i]);
    }
  }

  /** Listed: placed in this market with base left, and among the first ten thousand of those. */
  lemma ListedIff(rows: map<Hash, Row>, m: Symbol, id: Hash)
    ensures id in Listing(rows, m) <==>
              id in rows && IsPlaced(rows[id], m) && |AheadIn(rows, PlacedIn(rows, m), id)| < LISTING_CAP
  {
    var s := PlacedIn(rows, m);
    var all := InOrderOfPlacing(rows, s);
    if id in s {
      assert id in all;
      var i :| 0 <= i < |all| && all[i] == id;
      PlaceInListing(rows, s, i);
      if i < LISTING_CAP {
        assert Listing(rows, m)[i] == id;
      } else {
        forall j | 0 <= j < |Listing(rows, m)| ensures Listing(rows, m)[j] != id {
          PlaceInListing(rows, s, j);
        }
      }
    }
  }

  lemma {:induction false} EveryRowIsThere(base: seq<Order>, rows: map<Hash, Row>, ids: seq<Hash>, side: Side, h: Hash)
    requires (forall x :: x in ids ==> x in rows) && h in ids && rows[h].side == side
    ensures RevivedOrder(h, rows[h], 0) in SideFromRows(base, rows, ids, side)
  {
    var front, last := ids[..|ids| - 1], ids[|ids| - 1];
    assert ids == front + [last];
    if h != last {
      EveryRowIsThere(base, rows, front, side, h);
    }
  }

  lemma {:induction false} FacesAreOf(s: seq<Order>, x: Order)
    requires x in Faces(s)
    ensures exists y :: y in s && x == Face(y)
  {
    if x != Faces(s)[0] {
      assert Faces(s)[1..] == Faces(s[1..]);
      FacesAreOf(s[1..], x);
    }
  }

  lemma ReturnedFace(d: State, m: Symbol, clock: nat -> int, id: Hash) returns (y: Order)
    requires Coherent(d) && NeverBackwards(clock, |Listing(d.rows, m)|) && NotAfter(BookOf(d, m), clock(0))
    requires id in Listing(d.rows, m)
    ensures y in SideOf(BookOf(RehydrateOp(d, m, clock), m), d.rows[id].side) && Face(y) == RevivedOrder(id, d.rows[id], 0)
    ensures y.id == id
  {
    var side := d.rows[id].side;
    var was, s := SideOf(BookOf(d, m), side), SideOf(BookOf(RehydrateOp(d, m, clock), m), side);
    RehydrateRebuilds(d, m, clock, side);
    EveryRowIsThere(Faces(Unlisted(was, Listing(d.rows, m))), d.rows, Listing(d.rows, m), side, id);
    FacesAreOf(s, RevivedOrder(id, d.rows[id], 0));
    y :| y in s && Face(y) == RevivedOrder(id, d.rows[id], 0);
  }

  lemma ListedOrdersReturn(d: State, m: Symbol, clock: nat -> int, id: Hash)
    requires Coherent(d) && NeverBackwards(clock, |Listing(d.rows, m)|) && NotAfter(BookOf(d, m), clock(0))
    requires id in Listing(d.rows, m)
    ensures Holds(BookOf(RehydrateOp(d, m, clock), m), id)
  {
    var y := ReturnedFace(d, m, clock, id);
  }

  lemma OthersDoNotReturn(d: State, m: Symbol, clock: nat -> int, id: Hash)
    requires Coherent(d) && BookOf(d, m) == Book([], []) && id !in Listing(d.rows, m)
    ensures !Holds(BookOf(RehydrateOp(d, m, clock), m), id)
  {
    var d' := RehydrateOp(d, m, clock);
    WholeListing(d, m, clock);
    ReviveAllStaysIn(d, m, Listing(d.rows, m), |Listing(d.rows, m)|, clock, BUY, IdSet(Listing(d.rows, m)));
    ReviveAllStaysIn(d, m, Listing(d.rows, m), |Listing(d.rows, m)|, clock, SELL, IdSet(Listing(d.rows, m)));
    assert AllIn(BookOf(d', m).bids, IdSet(Listing(d.rows, m))) && AllIn(BookOf(d', m).asks, IdSet(Listing(d.rows, m)));
  }

  /** After a restart and a rehydration an order rests exactly when its row is still PLACED with base
      left and fewer than ten thousand such rows of its market were placed before it. It comes back on
      its side, at its price, with its size; an order filled in part before the restart does not. */
  lemma SurvivesRestartIff(d: State, m: Symbol, clock: nat -> int, id: Hash)
    requires Coherent(d) && NeverBackwards(clock, |Listing(d.rows, m)|)
    ensures Holds(BookOf(RehydrateOp(Step(d, Restart), m, clock), m), id) <==>
              id in d.rows && IsPlaced(d.rows[id], m) && |AheadIn(d.rows, PlacedIn(d.rows, m), id)| < 10000
    ensures Holds(BookOf(d, m), id) && Holds(BookOf(RehydrateOp(Step(d, Restart), m, clock), m), id) ==>
              var was, now := Locate(BookOf(d, m), id).value, Locate(BookOf(RehydrateOp(Step(d, Restart), m, clock), m), id).value;
              now.side == was.side && now.priceTicks == was.priceTicks && now.sizeBase == was.sizeBase
    ensures Holds(BookOf(d, m), id) && d.rows[id].status == PARTIALLY_FILLED ==>
              !Holds(BookOf(RehydrateOp(Step(d, Restart), m, clock), m), id)
  {
    var empty := Step(d, Restart);
    ListedIff(d.rows, m, id);
    ReviveAllKeeps(empty, m, Listing(d.rows, m), clock);
    if id in Listing(d.rows, m) {
      ListedOrdersReturn(empty, m, clock, id);
      SameTerms(d, RehydrateOp(empty, m, clock), m, id);
    } else {
      OthersDoNotReturn(empty, m, clock, id);
    }
  }

  lemma SameTerms(d: State, d': State, m: Symbol, id: Hash)
    requires Coherent(d) && Coherent(d') && d'.rows == d.rows
    ensures Holds(BookOf(d, m), id) && Holds(BookOf(d', m), id) ==>
              var was, now := Locate(BookOf(d, m), id).value, Locate(BookOf(d', m), id).value;
              now.side == was.side && now.priceTicks == was.priceTicks && now.sizeBase == was.sizeBase
  {
    BookOfBacked(d, m);
    BookOfBacked(d', m);
  }

  lemma PartFillMarksTheRow(d: State, m: Symbol, id: Hash, exec: int, listed: bool, now: int)
    requires Coherent(d) && Holds(BookOf(d, m), id) && 0 < exec < Locate(BookOf(d, m), id).value.sizeBase
    ensures var d' := ExternalFillOp(d, m, id, exec, listed, now).0;
            id in d'.rows && d'.rows[id].status == PARTIALLY_FILLED
  {
    BookOfBacked(d, m);
    assert Backed(d.rows, m, Locate(BookOf(d, m), id).value);
  }

  /** Any resting order, filled in part, still rests, and no longer after a restart. */
  lemma PartFilledIsLost(d: State, m: Symbol, id: Hash, exec: int, listed: bool, now: int, clock: nat -> int)
    requires Coherent(d) && Holds(BookOf(d, m), id) && 0 < exec < Locate(BookOf(d, m), id).value.sizeBase
    requires NeverBackwards(clock, |Listing(ExternalFillOp(d, m, id, exec, listed, now).0.rows, m)|)
    ensures var filled := ExternalFillOp(d, m, id, exec, listed, now).0;
            && Coherent(filled) && Holds(BookOf(filled, m), id)
            && !Holds(BookOf(RehydrateOp(Step(filled, Restart), m, clock), m), id)
  {
    ExternalFillInBook(d, m, id, exec, listed, now);
    DeskOutcomes.RestInBook(d, m, id, exec, listed, now);
    PartFillMarksTheRow(d, m, id, exec, listed, now);
    SurvivesRestartIff(ExternalFillOp(d, m, id, exec, listed, now).0, m, clock, id);
  }

  lemma OneAskDesk(m: Symbol, o: Order, row: Row)
    requires o.side == SELL && o.sizeBase > 0 && Backed(map[o.id := row], m, o)
    ensures var d := State(map[m := Book([], [o])], map[o.id := row], []);
            Coherent(d) && Holds(BookOf(d, m), o.id)
  {
    assert GoodSide(SELL, [o]) && forall x :: x in [o] ==> x == o;
  }

  /** One ask of 60, the rest of 100. */
  const HALF_SOLD := Order(1, "m", SELL, 7, 60, 0, None, 0)
  const HALF_SOLD_DESK := State(map["M" := Book([], [HALF_SOLD])],
                                map[1 := Row("M", "m", SELL, 7, 100, 60, PARTIALLY_FILLED, 0, None)], [])

  /** It rests, and after a restart the market is empty though the row has 60 left. */
  lemma HalfSoldAskIsLost(clock: nat -> int)
    ensures Coherent(HALF_SOLD_DESK) && Holds(BookOf(HALF_SOLD_DESK, "M"), 1)
    ensures var d' := RehydrateOp(Step(HALF_SOLD_DESK, Restart), "M", clock);
            d'.rows == HALF_SOLD_DESK.rows && BookOf(d', "M") == Book([], [])
  {
    var empty := Step(HALF_SOLD_DESK, Restart);
    OneAskDesk("M", HALF_SOLD, HALF_SOLD_DESK.rows[1]);
    assert PlacedIn(empty.rows, "M") == {};
    assert Listing(empty.rows, "M") == [];
  }

  /** A cancelled order stays off: it rests neither after the cancel nor after a restart and a rehydration. */
  lemma CancelledStaysOff(d: State, m: Symbol, id: Hash, clock: nat -> int)
    requires Coherent(d) && Holds(BookOf(d, m), id)
    requires NeverBackwards(clock, |Listing(CancelOp(d, m, id).0.rows, m)|)
    ensures var d' := CancelOp(d, m, id).0;
            && !Holds(BookOf(d', m), id)
            && !Holds(BookOf(RehydrateOp(Step(d', Restart), m, clock), m), id)
  {
    CancelKeeps(d, m, id);
    DeskOutcomes.CancelMarksRow(d, m, id);
    SurvivesRestartIff(CancelOp(d, m, id).0, m, clock, id);
  }

  lemma ReturnedLevel(d: State, m: Symbol, clock: nat -> int, id: Hash) returns (o: Order)
    requires Coherent(d) && NeverBackwards(clock, |Listing(d.rows, m)|) && NotAfter(BookOf(d, m), clock(0))
    requires id in Listing(d.rows, m)
    ensures Locate(BookOf(RehydrateOp(d, m, clock), m), id) == Some(o) && Face(o) == RevivedOrder(id, d.rows[id], 0)
  {
    var d' := RehydrateOp(d, m, clock);
    ReviveAllKeeps(d, m, Listing(d.rows, m), clock);
    o := ReturnedFace(d, m, clock, id);
    BookOfBacked(d', m);
    LocatesTheOnlyOne(d'.rows, m, BookOf(d', m), o);
  }

  /** What comes back is what was stored: maker, side, price and remaining base of the row, with its raw order
      and that order's expiry. */
  lemma ReturnsAsStored(d: State, m: Symbol, clock: nat -> int, id: Hash)
    requires Coherent(d) && NeverBackwards(clock, |Listing(d.rows, m)|)
    requires id in Listing(d.rows, m)
    ensures var row, back := d.rows[id], Locate(BookOf(RehydrateOp(Step(d, Restart), m, clock), m), id);
            && back.Some?
            && Face(back.value) == Order(id, row.maker, row.side, row.priceTicks, row.remainingBase, 0, row.raw,
                                         if row.raw.Some? then row.raw.value.expiry else 0)
  {
    var o := ReturnedLevel(Step(d, Restart), m, clock, id);
  }

  lemma LocatesTheOnlyOne(rows: map<Hash, Row>, m: Symbol, b: Book, o: Order)
    requires BookBacked(rows, m, b) && (o in b.bids || o in b.asks)
    ensures Locate(b, o.id) == Some(o)
  {
    var hit := Locate(b, o.id).value;
    assert Backed(rows, m, o) && Backed(rows, m, hit);
    if o.side == BUY {
      SameIdSameOrder(b.bids, o, hit);
    } else {
      SameIdSameOrder(b.asks, o, hit);
    }
  }
}
