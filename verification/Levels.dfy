/** One side of a price-time book: order records, the comparator and its stable sort.
    Models apps/api/src/matching/orderbook.service.ts:8-65. */
module Levels {
  import opened Prelude

  datatype Side = BUY | SELL

  function Opposite(s: Side): Side {
    if s == BUY then SELL else BUY
  }

  /** The part of an attached 0x order the book reads. */
  datatype Raw = Raw(makerAmount: nat, takerAmount: nat, takerFee: Option<nat>, expiry: nat)

  /** A resting order. `expirySec == 0` stands for an absent expiry. */
  datatype Order = Order(id: Hash, maker: Address, side: Side, priceTicks: int, sizeBase: int,
                         ts: int, raw: Option<Raw>, expirySec: nat)

  /** Bids are best at the highest price, asks at the lowest; a smaller key is served first. */
  function Key(side: Side, priceTicks: int): int {
    if side == SELL then priceTicks else -priceTicks
  }

  /** `a` need not move behind `b`: better price, or same price and not younger. */
  predicate InOrder(side: Side, a: Order, b: Order) {
    var ka, kb := Key(side, a.priceTicks), Key(side, b.priceTicks);
    ka < kb || (ka == kb && a.ts <= b.ts)
  }

  predicate Sorted(side: Side, s: seq<Order>) {
    s == [] || ((forall x :: x in s[1..] ==> InOrder(side, s[0], x)) && Sorted(side, s[1..]))
  }

  predicate DistinctIds(s: seq<Order>) {
    s == [] || ((forall x :: x in s[1..] ==> x.id != s[0].id) && DistinctIds(s[1..]))
  }

  predicate Populated(side: Side, s: seq<Order>) {
    forall x :: x in s ==> x.side == side && x.sizeBase > 0
  }

  /** What a well-kept side looks like. */
  predicate GoodSide(side: Side, s: seq<Order>) {
    Sorted(side, s) && DistinctIds(s) && Populated(side, s)
  }

  /** Put `o` in front of the first order that must come after it. */
  function Insert(side: Side, s: seq<Order>, o: Order): (r: seq<Order>)
    ensures |r| == |s| + 1
    ensures forall x :: x in r <==> x == o || x in s
  {
    if s == [] then [o]
    else if InOrder(side, s[0], o) then
      var t := Insert(side, s[1..], o);
      assert forall x :: x in s <==> x == s[0] || x in s[1..];
      [s[0]] + t
    else [o] + s
  }

  /** The stable sort: orders that compare equal keep their arrival order. */
  function StableSort(side: Side, s: seq<Order>): seq<Order> {
    if s == [] then [] else Insert(side, StableSort(side, s[..|s| - 1]), s[|s| - 1])
  }

  lemma {:induction false} InsertSorted(side: Side, s: seq<Order>, o: Order)
    requires Sorted(side, s)
    ensures Sorted(side, Insert(side, s, o))
  {
    if s != [] {
      if InOrder(side, s[0], o) {
        InsertSorted(side, s[1..], o);
        assert Insert(side, s, o)[1..] == Insert(side, s[1..], o);
      } else {
        assert ([o] + s)[1..] == s;
        forall x | x in s ensures InOrder(side, o, x) {
          assert x == s[0] || x in s[1..];
        }
      }
    }
  }

  lemma {:induction false} InsertDistinct(side: Side, s: seq<Order>, o: Order)
    requires DistinctIds(s) && forall x :: x in s ==> x.id != o.id
    ensures DistinctIds(Insert(side, s, o))
  {
    if s != [] {
      if InOrder(side, s[0], o) {
        InsertDistinct(side, s[1..], o);
        assert Insert(side, s, o)[1..] == Insert(side, s[1..], o);
      } else {
        assert ([o] + s)[1..] == s;
      }
    }
  }

  /** The last order of a sorted side is inserted at the end. */
  lemma {:induction false} InsertLast(side: Side, s: seq<Order>, o: Order)
    requires Sorted(side, s + [o])
    ensures Insert(side, s, o) == s + [o] && Sorted(side, s)
  {
    if s != [] {
      var t := s + [o];
      assert t[1..] == s[1..] + [o] && o in t[1..];
      InsertLast(side, s[1..], o);
      assert s == [s[0]] + s[1..];
      forall x | x in s[1..] ensures InOrder(side, s[0], x) {
        assert x in t[1..];
      }
    }
  }

  lemma {:induction false} SortOfSorted(side: Side, s: seq<Order>)
    requires Sorted(side, s)
    ensures StableSort(side, s) == s
  {
    if s != [] {
      var front, last := s[..|s| - 1], s[|s| - 1];
      assert s == front + [last];
      InsertLast(side, front, last);
      SortOfSorted(side, front);
    }
  }

  /** Pushing one order on a sorted side and re-sorting is one stable insertion. */
  lemma PushThenSort(side: Side, s: seq<Order>, o: Order)
    requires Sorted(side, s)
    ensures StableSort(side, s + [o]) == Insert(side, s, o)
  {
    var t := s + [o];
    assert t[..|t| - 1] == s;
    SortOfSorted(side, s);
  }

  /** `filter(o => o.id !== id)`. */
  function Without(s: seq<Order>, id: Hash): (r: seq<Order>)
    ensures |r| <= |s|
    ensures forall x :: x in r <==> x in s && x.id != id
    ensures |r| == |s| <==> forall x :: x in s ==> x.id != id
  {
    if s == [] then []
    else
      var t := Without(s[1..], id);
      assert forall x :: x in s <==> x == s[0] || x in s[1..];
      if s[0].id == id then t else [s[0]] + t
  }

  lemma {:induction false} WithoutGood(side: Side, s: seq<Order>, id: Hash)
    ensures Sorted(side, s) ==> Sorted(side, Without(s, id))
    ensures DistinctIds(s) ==> DistinctIds(Without(s, id))
  {
    if s != [] {
      WithoutGood(side, s[1..], id);
      if s[0].id != id {
        assert Without(s, id)[1..] == Without(s[1..], id);
      }
    }
  }

  lemma {:induction false} WithoutAbsent(s: seq<Order>, id: Hash)
    requires forall x :: x in s ==> x.id != id
    ensures Without(s, id) == s
  {
    if s != [] {
      WithoutAbsent(s[1..], id);
      assert s == [s[0]] + s[1..];
    }
  }

  /** `find(o => o.id === id)`. */
  function Find(s: seq<Order>, id: Hash): (r: Option<Order>)
    ensures r.None? <==> forall x :: x in s ==> x.id != id
    ensures r.Some? ==> r.value in s && r.value.id == id
  {
    if s == [] then None else if s[0].id == id then Some(s[0]) else Find(s[1..], id)
  }

  /** Overwrite the record of one order in place. */
  function Replace(s: seq<Order>, id: Hash, o: Order): (r: seq<Order>)
    requires o.id == id
    ensures |r| == |s|
    ensures forall k :: 0 <= k < |s| ==> r[k] == if s[k].id == id then o else s[k]
  {
    seq(|s|, k requires 0 <= k < |s| => if s[k].id == id then o else s[k])
  }
}
