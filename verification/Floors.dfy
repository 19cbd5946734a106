/** Cancel-pair floors: the highest minimum salt seen for each maker and ordered token pair, and
    what it means for salts that carry the second they were made in.
    Models apps/api/src/onchain/cancel-pair-floor.repository.ts, apps/web/src/lib/salt.ts and the
    floor check of apps/api/src/sea/intent-validator.service.ts. */
module Floors {
  import opened Prelude

  datatype Triple = Triple(maker: Address, makerToken: Address, takerToken: Address)

  datatype Floor = Floor(minValidSalt: nat, fromTxHash: Option<TxHash>)

  datatype PairCancelled = PairCancelled(triple: Triple, minValidSalt: nat, txHash: Option<TxHash>)

  type FloorTable = map<Triple, Floor>

  /** Insert, or move to the greater value; the transaction follows only a strict rise. */
  function Upserted(fs: FloorTable, e: PairCancelled): FloorTable {
    if e.triple in fs && e.minValidSalt <= fs[e.triple].minValidSalt then fs
    else fs[e.triple := Floor(e.minValidSalt, e.txHash)]
  }

  class CancelPairFloorRepository {
    var floors: FloorTable

    constructor ()
      ensures floors == map[]
    {
      floors := map[];
    }

    method UpsertFloor(e: PairCancelled)
      modifies this
      ensures floors == Upserted(old(floors), e)
    {
      if e.triple !in floors {
        floors := floors[e.triple := Floor(e.minValidSalt, e.txHash)];
      } else {
        var was := floors[e.triple];
        var greatest := if e.minValidSalt > was.minValidSalt then e.minValidSalt else was.minValidSalt;
        var tx := if e.minValidSalt > was.minValidSalt then e.txHash else was.fromTxHash;
        floors := floors[e.triple := Floor(greatest, tx)];
      }
    }

    method GetFloor(t: Triple) returns (r: Option<nat>)
      ensures r == FloorOf(floors, t)
    {
      r := if t in floors then Some(floors[t].minValidSalt) else None;
    }
  }

  function FloorOf(fs: FloorTable, t: Triple): Option<nat> {
    if t in fs then Some(fs[t].minValidSalt) else None
  }

  /** A stored table after a history of events, oldest first. */
  function After(stored: FloorTable, events: seq<PairCancelled>): FloorTable {
    if events == [] then stored else Upserted(After(stored, events[..|events| - 1]), events[|events| - 1])
  }

  /** The floor of a triple is the greatest of what was stored and its events, with the transaction of
      the one that reached it; a triple with neither has none. */
  lemma {:induction false} FloorIsTheMaximum(stored: FloorTable, events: seq<PairCancelled>, t: Triple)
    ensures t in After(stored, events) <==> t in stored || exists e :: e in events && e.triple == t
    ensures forall e :: e in events && e.triple == t ==> e.minValidSalt <= After(stored, events)[t].minValidSalt
    ensures t in stored ==> stored[t].minValidSalt <= After(stored, events)[t].minValidSalt
    ensures t in After(stored, events) ==>
              var f := After(stored, events)[t];
              (t in stored && f == stored[t]) || PairCancelled(t, f.minValidSalt, f.fromTxHash) in events
  {
    if events != [] {
      var front, last := events[..|events| - 1], events[|events| - 1];
      FloorIsTheMaximum(stored, front, t);
      assert events == front + [last];
      assert forall e :: e in events <==> e in front || e == last;
      assert last == PairCancelled(last.triple, last.minValidSalt, last.txHash);
    }
  }

  /** Reordering and repeating events changes no floor. */
  lemma FloorIgnoresOrderAndDuplicates(stored: FloorTable, a: seq<PairCancelled>, b: seq<PairCancelled>, t: Triple)
    requires forall e :: e in a <==> e in b
    ensures FloorOf(After(stored, a), t) == FloorOf(After(stored, b), t)
  {
    FloorIsTheMaximum(stored, a, t);
    FloorIsTheMaximum(stored, b, t);
  }

  // ---------------------------------------------------------------------------
  // Salts that carry their second
  // ---------------------------------------------------------------------------

  const TWO_96: nat := 0x1_00000000_00000000_00000000
  const SALT_OFFSET: nat := 0x1_00000000_00000000_00000000_00000000

  /** Salt of an order signed in second `sec` with 96 random bits. */
  function OrderSalt(sec: nat, random: nat): nat {
    SALT_OFFSET + sec * TWO_96 + random
  }

  /** The cancel that invalidates everything before second `sec`. */
  function MinValidSaltAt(sec: nat): nat {
    SALT_OFFSET + sec * TWO_96
  }

  function MinValidSaltOlderThan(nowSec: nat, deltaSec: int): nat {
    MinValidSaltAt(Max(0, nowSec - deltaSec))
  }

  /** A salt is below the boundary exactly when its second is. */
  lemma SaltBelowBoundaryIff(sec: nat, random: nat, boundary: nat)
    requires random < TWO_96
    ensures OrderSalt(sec, random) < MinValidSaltAt(boundary) <==> sec < boundary
  {
    if sec < boundary {
      assert (sec + 1) * TWO_96 <= boundary * TWO_96;
    } else {
      assert boundary * TWO_96 <= sec * TWO_96;
    }
  }

  /** Cancelling everything older than `deltaSec` spares exactly the orders of the last `deltaSec`. */
  lemma OlderThanSparesTheRecent(nowSec: nat, deltaSec: int, sec: nat, random: nat)
    requires random < TWO_96
    ensures OrderSalt(sec, random) < MinValidSaltOlderThan(nowSec, deltaSec) <==> sec + deltaSec < nowSec
  {
    SaltBelowBoundaryIff(sec, random, Max(0, nowSec - deltaSec));
  }

  /** The check made when an intent is created and again when it fires. */
  predicate FloorRejects(fs: FloorTable, t: Triple, salt: nat) {
    FloorOf(fs, t).Some? && salt < FloorOf(fs, t).value
  }

  predicate NoneBeyond(stored: FloorTable, events: seq<PairCancelled>, t: Triple, boundary: nat) {
    && (t in stored ==> stored[t].minValidSalt <= MinValidSaltAt(boundary))
    && forall e :: e in events && e.triple == t ==> e.minValidSalt <= MinValidSaltAt(boundary)
  }

  /** Once a cancel at second `boundary` is in the history, every order of its triple salted
      earlier is rejected whatever follows; when nothing stored and no event of the triple went
      further, no order salted then or later is. */
  lemma CancelSplitsTime(stored: FloorTable, events: seq<PairCancelled>, t: Triple, boundary: nat, txHash: Option<TxHash>,
                         sec: nat, random: nat)
    requires PairCancelled(t, MinValidSaltAt(boundary), txHash) in events && random < TWO_96
    ensures sec < boundary ==> FloorRejects(After(stored, events), t, OrderSalt(sec, random))
    ensures NoneBeyond(stored, events, t, boundary) && sec >= boundary ==>
              !FloorRejects(After(stored, events), t, OrderSalt(sec, random))
  {
    FloorIsTheMaximum(stored, events, t);
    SaltBelowBoundaryIff(sec, random, boundary);
  }

  /** A rejection outlives every later event. */
  lemma RejectionIsForever(stored: FloorTable, events: seq<PairCancelled>, later: seq<PairCancelled>, t: Triple, salt: nat)
    requires FloorRejects(After(stored, events), t, salt)
    ensures FloorRejects(After(stored, events + later), t, salt)
  {
    FloorIsTheMaximum(stored, events, t);
    FloorIsTheMaximum(stored, events + later, t);
    assert forall e :: e in events ==> e in events + later;
  }
}
