/** The cancel watcher as it runs.
    Models apps/api/src/onchain/cancel-watcher.service.ts:276-639. */
module CancelWatcher {
  import opened Prelude
  import opened Desk
  import opened Floors
  import opened CancelScan
  import opened OrderBooks
  import FillScan
  import FillWatcher

  class CancelWatcherService {
    const chain: CancelChain
    const ob: OrderBookService
    const floorRepo: CancelPairFloorRepository
    const maxBlocksPerTick: nat
    var lastScanned: int
    var cooldownUntil: int
    var needsCursorInit: bool
    ghost var reach: int
    ghost var events: seq<PairCancelled>

    ghost function Watched(): CancelWatch
      reads this, ob, ob.repo, floorRepo
    {
      CancelWatch(lastScanned, reach, ob.Abs(), floorRepo.floors, events)
    }

    constructor (chain: CancelChain, ob: OrderBookService, floorRepo: CancelPairFloorRepository, maxBlocksPerTick: nat,
                 start: Option<int>)
      ensures this.chain == chain && this.ob == ob && this.floorRepo == floorRepo
      ensures this.maxBlocksPerTick == maxBlocksPerTick && needsCursorInit == start.None?
      ensures lastScanned == reach == (if start.Some? then start.value else 0) && events == []
    {
      this.chain, this.ob, this.floorRepo, this.maxBlocksPerTick := chain, ob, floorRepo, maxBlocksPerTick;
      var at := if start.Some? then start.value else 0;
      lastScanned, reach, events := at, at, [];
      cooldownUntil, needsCursorInit := 0, start.None?;
    }

    /** One tick at `now`; `transient` says whether failures pause the watcher. */
    method Tick(now: int, a: FillScan.Attempt, transient: bool, backoffMs: nat, persisted: Option<int>)
      requires chain.markets == ob.repo.markets
      modifies this, ob`books, ob.repo`orders, floorRepo
      ensures now < old(cooldownUntil) || a.latest.None? ==>
                Watched() == old(Watched()) && needsCursorInit == old(needsCursorInit)
      ensures now < old(cooldownUntil) ==> cooldownUntil == old(cooldownUntil)
      ensures now >= old(cooldownUntil) && a.latest.None? ==>
                cooldownUntil == if transient then now + backoffMs else old(cooldownUntil)
      ensures now >= old(cooldownUntil) && a.latest.Some? ==>
                var at := FillWatcher.InitCursor(persisted, a.latest.value);
                var from := if old(needsCursorInit) then old(Watched()).(lastScanned := at, reach := at) else old(Watched());
                && !needsCursorInit && Watched() == TickOp(chain, from, a, maxBlocksPerTick)
                && cooldownUntil == if transient && Stalls(chain, from, a, maxBlocksPerTick) then now + backoffMs
                                    else old(cooldownUntil)
    {
      if now < cooldownUntil {
        return;
      }
      if a.latest.None? {
        if transient { cooldownUntil := now + backoffMs; }
        return;
      }
      var latest := a.latest.value;
      if needsCursorInit {
        lastScanned := FillWatcher.InitCursor(persisted, latest);
        reach := lastScanned;
        needsCursorInit := false;
      }
      if latest <= lastScanned {
        return;
      }
      var target := Min(latest, lastScanned + maxBlocksPerTick);
      var finished := ScanRange(target, a.fetch);
      if finished {
        lastScanned := target;
      } else if transient {
        cooldownUntil := now + backoffMs;
      }
    }

    /** The block loop; false when a fetch failed. */
    method ScanRange(target: int, fetch: int -> FillScan.Fetch) returns (finished: bool)
      requires chain.markets == ob.repo.markets
      modifies this`reach, this`events, ob`books, ob.repo`orders, floorRepo
      ensures (Watched(), finished) == ScanFrom(chain, old(Watched()), old(lastScanned) + 1, target, fetch)
    {
      var b := lastScanned + 1;
      while b <= target
        invariant ScanFrom(chain, old(Watched()), old(lastScanned) + 1, target, fetch)
               == ScanFrom(chain, Watched(), b, target, fetch)
        decreases target - b + 1
      {
        match fetch(b) {
          case Failed => return false;
          case Malformed =>
          case Block =>
            ScanTransactions(chain.block(b));
            reach := Max(reach, b);
        }
        b := b + 1;
      }
      finished := true;
    }

    /** The transaction loop of one block. */
    method ScanTransactions(txs: seq<CancelTx>)
      requires chain.markets == ob.repo.markets
      modifies this`events, ob`books, ob.repo`orders, floorRepo
      ensures Watched() == ScanTxs(chain, old(Watched()), txs)
    {
      var i := 0;
      while i < |txs|
        invariant 0 <= i <= |txs|
        invariant Watched() == ScanTxs(chain, old(Watched()), txs[..i])
      {
        assert txs[..i + 1][..i] == txs[..i];
        HandleTx(txs[i]);
        i := i + 1;
      }
      assert txs[..i] == txs;
    }

    method HandleTx(tx: CancelTx)
      requires chain.markets == ob.repo.markets
      modifies this`events, ob`books, ob.repo`orders, floorRepo
      ensures Watched() == ScanTx(chain, old(Watched()), tx)
    {
      var market := MarketOf(chain, tx);
      if market.None? {
        return;
      }
      var m := market.value;
      match tx {
        case PairCancel(maker, makerToken, takerToken, minValidSalt, txHash) =>
          var placed := ob.repo.ListPlacedBySymbol(m);
          var toCancel := CollectDoomed(tx, placed);
          RetractEach(m, toCancel);
          var e := PairCancelled(Triple(maker, makerToken, takerToken), minValidSalt, txHash);
          floorRepo.UpsertFloor(e);
          events := events + [e];
        case OrderCancel(_, _, orderHash) =>
          Retract(m, orderHash);
      }
    }

    /** The placed orders of the maker salted below the bound. */
    method CollectDoomed(tx: CancelTx, placed: seq<Hash>) returns (ids: seq<Hash>)
      requires tx.PairCancel? && forall h :: h in placed ==> h in ob.repo.orders
      ensures ids == Doomed(chain, ob.repo.orders, tx, placed)
    {
      ids := [];
      var i := 0;
      while i < |placed|
        invariant 0 <= i <= |placed|
        invariant ids == Doomed(chain, ob.repo.orders, tx, placed[..i])
      {
        assert placed[..i + 1][..i] == placed[..i];
        var h := placed[i];
        if ob.repo.orders[h].maker == tx.maker && h in chain.saltOf && chain.saltOf[h] < tx.minValidSalt {
          ids := ids + [h];
        }
        i := i + 1;
      }
      assert placed[..i] == placed;
    }

    method RetractEach(m: Symbol, ids: seq<Hash>)
      requires m in ob.repo.markets
      modifies ob`books, ob.repo`orders
      ensures ob.Abs() == RetractAll(old(ob.Abs()), m, ids)
    {
      var i := 0;
      while i < |ids|
        invariant 0 <= i <= |ids|
        invariant ob.Abs() == RetractAll(old(ob.Abs()), m, ids[..i])
      {
        assert ids[..i + 1][..i] == ids[..i];
        Retract(m, ids[i]);
        i := i + 1;
      }
      assert ids[..i] == ids;
    }

    /** Off the book if it rests there, and its row cancelled either way. */
    method Retract(m: Symbol, id: Hash)
      requires m in ob.repo.markets
      modifies ob`books, ob.repo`orders
      ensures ob.Abs() == RetractOp(old(ob.Abs()), m, id)
    {
      var res := ob.Cancel(m, id);
      if res != Ok(true) {
        var found := ob.repo.CancelOrder(id);
      }
    }
  }
}
