/** What no interleaving can break. */
module InterleavingSafety {
  import opened Prelude
  import opened Intents
  import opened Sea
  import opened Interleaving
  import P = Protocol
  import Desk

  // ---------------------------------------------------------------------------
  // Rows under single writes
  // ---------------------------------------------------------------------------

  /** Rows that stay sound, evolve, and leave fired rows to their owner. */
  predicate GoodWrite(w: Fine, rows': Rows) {
    && rows'.Keys == w.rows.Keys
    && (forall id :: id in w.rows ==> Evolves(w.rows[id], rows'[id]))
    && (forall id :: id in w.rows && w.rows[id].status == TRIGGERED ==> rows'[id] == w.rows[id])
    && (forall id :: id in w.rows ==> RowOk(w.trades, w.placements, id, rows'[id]))
  }

  /** Writing one row is good if the new row is. */
  lemma OneRowWrite(w: Fine, id: string, x': Intent)
    requires FineInv(w) && id in w.rows && w.rows[id].status != TRIGGERED
    requires Evolves(w.rows[id], x') && RowOk(w.trades, w.placements, id, x')
    ensures GoodWrite(w, w.rows[id := x'])
  {
  }

  lemma NoWrite(w: Fine)
    requires FineInv(w)
    ensures GoodWrite(w, w.rows)
  {
  }

  lemma FinishKeeps(w: Fine, p: nat, rows': Rows, s: FineStep)
    requires FineInv(w) && GoodWrite(w, rows')
    ensures FineInv(Finish(w, p, rows')) && StepFits(w, Finish(w, p, rows'), s)
  {
    var w' := Finish(w, p, rows');
    assert Quiet(w, w');
    forall q | q in w'.jobs ensures JobOk(w'.rows, w'.trades, w'.placements, w'.jobs[q]) {
      JobStaysOk(w, w', w.jobs[q]);
    }
  }

  lemma SpawnKeeps(w: Fine, p: nat, j: Job)
    requires FineInv(w) && !j.Firer? && JobOk(w.rows, w.trades, w.placements, j)
    ensures FineInv(Spawn(w, p, j))
  {
  }

  lemma AdvanceKeeps(w: Fine, p: nat, j: Job)
    requires FineInv(w) && p in w.jobs && JobOk(w.rows, w.trades, w.placements, j)
    requires j.Firer? ==> w.jobs[p].Firer? && w.jobs[p].id == j.id
    ensures FineInv(Advance(w, p, j))
  {
  }

  // ---------------------------------------------------------------------------
  // Markers and watcher
  // ---------------------------------------------------------------------------

  lemma LeaveReadyGood(w: Fine, id: string, to: IntentStatus, tx: TxHash, reason: Option<string>, now: int)
    requires FineInv(w) && (to == EXECUTED || to == EXECUTING || to == FAILED)
    requires to == EXECUTED && id in w.rows ==> Traded(w.trades, tx, w.rows[id].market, w.rows[id].owner)
    ensures GoodWrite(w, LeaveReady(w.rows, id, to, tx, reason, now).0)
  {
    if At(w.rows, id, READY) {
      assert RowOk(w.trades, w.placements, id, w.rows[id]);
      OneRowWrite(w, id, LeaveReady(w.rows, id, to, tx, reason, now).0[id]);
    }
  }

  lemma LeaveExecutingGood(w: Fine, id: string, to: IntentStatus, tx: TxHash, reason: Option<string>, now: int)
    requires FineInv(w) && (to == EXECUTED || to == FAILED)
    requires to == EXECUTED && id in w.rows ==> Traded(w.trades, tx, w.rows[id].market, w.rows[id].owner)
    ensures GoodWrite(w, LeaveExecuting(w.rows, id, to, tx, reason, now).0)
  {
    if At(w.rows, id, EXECUTING) && w.rows[id].linkedTxHash == Some(tx) {
      assert RowOk(w.trades, w.placements, id, w.rows[id]);
      OneRowWrite(w, id, LeaveExecuting(w.rows, id, to, tx, reason, now).0[id]);
    }
  }

  lemma MarkerKeeps(w: Fine, s: FineStep)
    requires FineInv(w) && OfMarker(s)
    ensures FineInv(MarkerStep(w, s)) && StepFits(w, MarkerStep(w, s), s)
  {
    if s.StartMarker? {
      if At(w.rows, s.id, READY) {
        assert RowOk(w.trades, w.placements, s.id, w.rows[s.id]);
        SpawnKeeps(w, s.p, Marker(s.id, w.rows[s.id].market, w.rows[s.id].owner, s.tx, Checked));
      }
    } else if s.p in w.jobs && w.jobs[s.p].Marker? {
      var j := w.jobs[s.p];
      assert JobOk(w.rows, w.trades, w.placements, j);
      if s.MarkerLooks? && j.stage == Checked {
        AdvanceKeeps(w, s.p, j.(stage := if Traded(w.trades, j.tx, j.market, j.owner) then SawTrade else Missed));
      } else if s.MarkerSeesRevert? && j.stage == Missed {
        AdvanceKeeps(w, s.p, j.(stage := SawRevert));
      } else if s.MarkerWrites? && j.stage != Checked {
        MarkerWriteGood(w, j, s.now);
        FinishKeeps(w, s.p, MarkerWrite(w.rows, j, s.now), s);
      }
    }
  }

  lemma MarkerWriteGood(w: Fine, j: Job, now: int)
    requires FineInv(w) && j.Marker? && j.stage != Checked && JobOk(w.rows, w.trades, w.placements, j)
    ensures GoodWrite(w, MarkerWrite(w.rows, j, now))
  {
    match j.stage
    case SawTrade => LeaveReadyGood(w, j.id, EXECUTED, j.tx, None, now);
    case Missed => LeaveReadyGood(w, j.id, EXECUTING, j.tx, None, now);
    case SawRevert => LeaveReadyGood(w, j.id, FAILED, j.tx, Some("tx_reverted_at_marker"), now);
    case Checked =>
  }

  lemma TradeAddedKeeps(w: Fine, t: Desk.Trade)
    requires FineInv(w)
    ensures FineInv(w.(trades := w.trades + [t]))
  {
    var w' := w.(trades := w.trades + [t]);
    forall id | id in w'.rows ensures RowOk(w'.trades, w'.placements, id, w'.rows[id]) {
      var x := w.rows[id];
      assert RowOk(w.trades, w.placements, id, x);
      if x.status == EXECUTED {
        P.TradesOnlyGrow(w.trades, w'.trades, x.linkedTxHash.value, x.market, x.owner);
      }
    }
    assert Quiet(w, w');
    forall q | q in w'.jobs ensures JobOk(w'.rows, w'.trades, w'.placements, w'.jobs[q]) {
      JobStaysOk(w, w', w.jobs[q]);
    }
  }

  lemma WatcherKeeps(w: Fine, s: FineStep)
    requires FineInv(w) && OfWatcher(s)
    ensures FineInv(WatcherStep(w, s)) && StepFits(w, WatcherStep(w, s), s)
  {
    if s.WatcherAdds? {
      var w1 := w.(trades := w.trades + [s.trade]);
      TradeAddedKeeps(w, s.trade);
      assert s.trade in w1.trades;
      if s.trade.txHash.Some? {
        SpawnKeeps(w1, s.p, Closer(s.trade.txHash.value, s.trade.market, s.trade.taker, None));
      }
    } else if s.WatcherReverts? {
      SpawnKeeps(w, s.p, Reverter(s.tx, s.market, s.owner, None));
    } else if s.p in w.jobs && (w.jobs[s.p].Closer? || w.jobs[s.p].Reverter?) {
      var j := w.jobs[s.p];
      assert JobOk(w.rows, w.trades, w.placements, j);
      if s.WatcherFinds? {
        if Found(w.rows, s.hit, j.tx, j.market, j.owner) {
          AdvanceKeeps(w, s.p, j.(hit := s.hit));
        }
      } else {
        WatcherWriteGood(w, j, s.now);
        FinishKeeps(w, s.p, WatcherWrite(w.rows, j, s.now), s);
      }
    }
  }

  lemma WatcherWriteGood(w: Fine, j: Job, now: int)
    requires FineInv(w) && (j.Closer? || j.Reverter?) && JobOk(w.rows, w.trades, w.placements, j)
    ensures GoodWrite(w, WatcherWrite(w.rows, j, now))
  {
    if j.hit.None? {
      NoWrite(w);
    } else if j.Closer? {
      LeaveExecutingGood(w, j.hit.value, EXECUTED, j.tx, None, now);
    } else {
      LeaveExecutingGood(w, j.hit.value, FAILED, j.tx, Some("tx_reverted"), now);
    }
  }

  // ---------------------------------------------------------------------------
  // Guarded writes
  // ---------------------------------------------------------------------------

  lemma EndedRowFits(w: Fine, id: string, x: Intent, x': Intent, to: IntentStatus)
    requires RowOk(w.trades, w.placements, id, x) && x' == x.(status := to, updatedAt := x'.updatedAt, failureReason := x'.failureReason)
    requires (Cancellable(x.status) && (to == CANCELLED || to == EXPIRED)) || (x.status == EXECUTING && to == FAILED)
    ensures Evolves(x, x') && RowOk(w.trades, w.placements, id, x')
  {
  }

  lemma EndGood(w: Fine, id: string, from: IntentStatus, to: IntentStatus, reason: Option<string>, now: int)
    requires FineInv(w) && ((Cancellable(from) && (to == CANCELLED || to == EXPIRED)) || (from == EXECUTING && to == FAILED))
    ensures GoodWrite(w, TransitionStatus(w.rows, id, from, to, reason, now).0)
  {
    if At(w.rows, id, from) {
      var x := w.rows[id];
      var x' := x.(status := to, updatedAt := now, failureReason := if reason.Some? then reason else x.failureReason);
      EndedRowFits(w, id, x, x', to);
      OneRowWrite(w, id, x');
    } else {
      NoWrite(w);
    }
  }

  lemma MonitorWriteGood(w: Fine, id: string, expire: bool, until: int, now: int)
    requires FineInv(w)
    ensures GoodWrite(w, if expire then MarkExpiredFromReady(w.rows, id, "intent_expired_by_ts", now).0
                         else RearmFromReady(w.rows, id, until, now).0)
  {
    if At(w.rows, id, READY) {
      assert RowOk(w.trades, w.placements, id, w.rows[id]);
      OneRowWrite(w, id, if expire then MarkExpiredFromReady(w.rows, id, "intent_expired_by_ts", now).0[id]
                         else RearmFromReady(w.rows, id, until, now).0[id]);
    } else {
      NoWrite(w);
    }
  }

  lemma PrepareWriteGood(w: Fine, id: string, ready: bool, ttlSec: nat, until: int, now: int)
    requires FineInv(w) && id in w.rows && w.rows[id].kind == CMR
    ensures GoodWrite(w, if ready then MarkReady(w.rows, id, ttlSec, now).0 else SetActiveCooldown(w.rows, id, until, now).0)
  {
    if At(w.rows, id, ACTIVE) {
      assert RowOk(w.trades, w.placements, id, w.rows[id]);
      OneRowWrite(w, id, if ready then MarkReady(w.rows, id, ttlSec, now).0[id]
                         else SetActiveCooldown(w.rows, id, until, now).0[id]);
    } else {
      NoWrite(w);
    }
  }

  lemma LockWriteGood(w: Fine, id: string, epoch: int, until: int, now: int)
    requires FineInv(w)
    ensures GoodWrite(w, LockWalletFromReady(w.rows, id, epoch, until, now).0)
  {
    if At(w.rows, id, READY) && w.rows[id].preparedQuoteAt == Some(epoch) {
      assert RowOk(w.trades, w.placements, id, w.rows[id]);
      OneRowWrite(w, id, w.rows[id].(walletLockUntilAt := Some(until), updatedAt := now));
    } else {
      NoWrite(w);
    }
  }

  lemma StartKeeps(w: Fine, s: FineStep)
    requires FineInv(w) && OfStart(s)
    ensures FineInv(StartStep(w, s)) && StepFits(w, StartStep(w, s), s)
  {
    var w' := StartStep(w, s);
    if w' != w {
      SpawnKeeps(w, s.p, w'.jobs[s.p]);
    }
  }

  lemma GuardedWriteGood(w: Fine, j: Job, s: FineStep)
    requires FineInv(w) && OfWrite(s) && JobOk(w.rows, w.trades, w.placements, j)
    requires GuardedWrite(w.rows, j, s).Some?
    ensures GoodWrite(w, GuardedWrite(w.rows, j, s).value)
  {
    match s
    case CancelWrites(_, now) => EndGood(w, j.id, j.from, CANCELLED, Some("user_cancel"), now);
    case MonitorWrites(_, expire, until, now) => MonitorWriteGood(w, j.id, expire, until, now);
    case PrepareWrites(_, ready, ttlSec, until, now) => PrepareWriteGood(w, j.id, ready, ttlSec, until, now);
    case LockWrites(_, until, now) => LockWriteGood(w, j.id, j.epoch, until, now);
    case SweepWrites(_, now) =>
      if j.StaleSweeper? {
        EndGood(w, j.id, EXECUTING, FAILED, Some("stale_pending"), now);
      } else {
        EndGood(w, j.id, j.from, EXPIRED, Some("intent_expired_by_ts"), now);
      }
  }

  lemma WriteKeeps(w: Fine, s: FineStep)
    requires FineInv(w) && OfWrite(s)
    ensures FineInv(WriteStep(w, s)) && StepFits(w, WriteStep(w, s), s)
  {
    if s.p in w.jobs && GuardedWrite(w.rows, w.jobs[s.p], s).Some? {
      GuardedWriteGood(w, w.jobs[s.p], s);
      FinishKeeps(w, s.p, GuardedWrite(w.rows, w.jobs[s.p], s).value, s);
    }
  }

  // ---------------------------------------------------------------------------
  // Firing
  // ---------------------------------------------------------------------------

  /** The latch makes the row TRIGGERED, which no other job was counting on. */
  lemma LatchedRow(w: Fine, id: string, now: int)
    requires FineInv(w) && At(w.rows, id, ACTIVE) && w.rows[id].kind == CL
    ensures FineInv(w.(rows := w.rows[id := w.rows[id].(status := TRIGGERED, updatedAt := now)]))
    ensures forall q :: q in w.jobs && w.jobs[q].Firer? ==> w.jobs[q].id != id
  {
    var x := w.rows[id];
    assert RowOk(w.trades, w.placements, id, x);
    var x' := x.(status := TRIGGERED, updatedAt := now);
    OneRowWrite(w, id, x');
    var w1 := w.(rows := w.rows[id := x']);
    assert Quiet(w, w1);
    forall q | q in w.jobs ensures JobOk(w1.rows, w1.trades, w1.placements, w.jobs[q]) {
      JobStaysOk(w, w1, w.jobs[q]);
    }
    forall q | q in w.jobs && w.jobs[q].Firer? ensures w.jobs[q].id != id {
      assert JobOk(w.rows, w.trades, w.placements, w.jobs[q]);
    }
  }

  lemma SpawnFirer(w: Fine, p: nat, id: string)
    requires FineInv(w) && p !in w.jobs && At(w.rows, id, TRIGGERED) && w.placements[id] == 0
    requires forall q :: q in w.jobs && w.jobs[q].Firer? ==> w.jobs[q].id != id
    ensures FineInv(Spawn(w, p, Firer(id, Latched)))
  {
  }

  lemma LatchShape(w: Fine, p: nat, id: string, now: int)
    requires p !in w.jobs && At(w.rows, id, ACTIVE) && w.rows[id].kind == CL
    ensures FireStep(w, Latch(p, id, now))
         == Spawn(w.(rows := w.rows[id := w.rows[id].(status := TRIGGERED, updatedAt := now)]), p, Firer(id, Latched))
    ensures StepFits(w, FireStep(w, Latch(p, id, now)), Latch(p, id, now))
  {
  }

  /** From there the new job is the only one that may move the row. */
  lemma LatchKeeps(w: Fine, p: nat, id: string, now: int)
    requires FineInv(w) && p !in w.jobs && At(w.rows, id, ACTIVE) && w.rows[id].kind == CL
    ensures FineInv(FireStep(w, Latch(p, id, now))) && StepFits(w, FireStep(w, Latch(p, id, now)), Latch(p, id, now))
  {
    assert RowOk(w.trades, w.placements, id, w.rows[id]);
    LatchedRow(w, id, now);
    SpawnFirer(w.(rows := w.rows[id := w.rows[id].(status := TRIGGERED, updatedAt := now)]), p, id);
    LatchShape(w, p, id, now);
  }

  /** Counting one placement more for a row whose fire call had placed nothing yet. */
  lemma CountedRows(w: Fine, id: string)
    requires FineInv(w) && At(w.rows, id, TRIGGERED) && w.placements[id] == 0
    ensures var placements' := w.placements + multiset{id};
            && placements'[id] == 1 && (forall x :: x != id ==> placements'[x] == w.placements[x])
            && (forall x :: x in w.rows ==> RowOk(w.trades, placements', x, w.rows[x]))
  {
    forall x | x in w.rows ensures RowOk(w.trades, w.placements + multiset{id}, x, w.rows[x]) {
      assert RowOk(w.trades, w.placements, x, w.rows[x]);
    }
  }

  lemma OtherJobsUncounted(w: Fine, p: nat, placements': multiset<string>, q: nat)
    requires FineInv(w) && p in w.jobs && w.jobs[p].Firer? && q in w.jobs && q != p
    requires forall x :: x != w.jobs[p].id ==> placements'[x] == w.placements[x]
    ensures JobOk(w.rows, w.trades, placements', w.jobs[q])
  {
    assert JobOk(w.rows, w.trades, w.placements, w.jobs[q]);
  }

  lemma PlaceKeeps(w: Fine, p: nat, hash: Hash)
    requires FineInv(w) && p in w.jobs && w.jobs[p].Firer? && w.jobs[p].fire == Validated
    ensures FineInv(Advance(w, p, w.jobs[p].(fire := FireStage.Placed(hash)))
                    .(placements := w.placements + multiset{w.jobs[p].id}))
  {
    var id := w.jobs[p].id;
    var w' := Advance(w, p, w.jobs[p].(fire := FireStage.Placed(hash))).(placements := w.placements + multiset{id});
    assert JobOk(w.rows, w.trades, w.placements, w.jobs[p]);
    CountedRows(w, id);
    forall q | q in w'.jobs ensures JobOk(w'.rows, w'.trades, w'.placements, w'.jobs[q]) {
      if q != p {
        OtherJobsUncounted(w, p, w'.placements, q);
      }
    }
  }

  /** The final write of a fire call always finds the row as the latch left it. */
  lemma FireWriteKeeps(w: Fine, p: nat, now: int)
    requires FineInv(w) && p in w.jobs && w.jobs[p].Firer? && (w.jobs[p].fire.Placed? || w.jobs[p].fire.Failing?)
    ensures FireWrite(w.rows, w.jobs[p], now).1
    ensures FineInv(Finish(w, p, FireWrite(w.rows, w.jobs[p], now).0))
  {
    var j := w.jobs[p];
    var rows' := FireWrite(w.rows, j, now).0;
    var w' := Finish(w, p, rows');
    assert JobOk(w.rows, w.trades, w.placements, j) && RowOk(w.trades, w.placements, j.id, w.rows[j.id]);
    forall q | q in w'.jobs ensures JobOk(w'.rows, w'.trades, w'.placements, w'.jobs[q]) {
      assert JobOk(w.rows, w.trades, w.placements, w.jobs[q]);
      if w.jobs[q].Firer? {
        assert w.jobs[q].id != j.id;
      }
    }
    forall x | x in w'.rows ensures RowOk(w'.trades, w'.placements, x, w'.rows[x]) {
      assert RowOk(w.trades, w.placements, x, w.rows[x]);
    }
  }

  lemma FireWriteFits(w: Fine, p: nat, now: int)
    requires p in w.jobs && w.jobs[p].Firer? && (w.jobs[p].fire.Placed? || w.jobs[p].fire.Failing?)
    requires FireWrite(w.rows, w.jobs[p], now).1
    ensures FireStep(w, FireWrites(p, now)) == Finish(w, p, FireWrite(w.rows, w.jobs[p], now).0)
    ensures StepFits(w, FireStep(w, FireWrites(p, now)), FireWrites(p, now))
  {
  }

  lemma FireAdvances(w: Fine, s: FineStep)
    requires FineInv(w) && (s.FireValidates? || s.FirePlaces?)
    ensures FineInv(FireStep(w, s)) && FireStep(w, s).rows == w.rows
  {
    if s.p in w.jobs && w.jobs[s.p].Firer? {
      var j := w.jobs[s.p];
      assert JobOk(w.rows, w.trades, w.placements, j);
      if s.FireValidates? && j.fire == Latched {
        AdvanceKeeps(w, s.p, j.(fire := if s.verdict.Some? then Failing(s.verdict.value) else Validated));
      } else if s.FirePlaces? && j.fire == Validated {
        if s.outcome.Ok? {
          PlaceKeeps(w, s.p, s.outcome.value);
        } else {
          AdvanceKeeps(w, s.p, j.(fire := Failing(s.outcome.code)));
        }
      }
    }
  }

  lemma FireKeeps(w: Fine, s: FineStep)
    requires FineInv(w) && OfFire(s)
    ensures FineInv(FireStep(w, s)) && StepFits(w, FireStep(w, s), s)
  {
    if s.FireValidates? || s.FirePlaces? {
      FireAdvances(w, s);
    } else if s.Latch? {
      if s.p !in w.jobs && At(w.rows, s.id, ACTIVE) && w.rows[s.id].kind == CL {
        LatchKeeps(w, s.p, s.id, s.now);
      }
    } else if s.p in w.jobs && w.jobs[s.p].Firer? && (w.jobs[s.p].fire.Placed? || w.jobs[s.p].fire.Failing?) {
      FireWriteKeeps(w, s.p, s.now);
      FireWriteFits(w, s.p, s.now);
    }
  }

  lemma CreateKeeps(w: Fine, id: string, x: Intent)
    requires FineInv(w) && id !in w.rows && x.status == ACTIVE && x.linkedTxHash.None?
    ensures FineInv(w.(rows := w.rows[id := x]))
  {
    var w' := w.(rows := w.rows[id := x]);
    assert Quiet(w, w');
    forall q | q in w'.jobs ensures JobOk(w'.rows, w'.trades, w'.placements, w'.jobs[q]) {
      JobStaysOk(w, w', w.jobs[q]);
    }
  }

  lemma CrashKeeps(w: Fine, p: nat)
    requires FineInv(w)
    ensures FineInv(w.(jobs := w.jobs - {p}))
  {
  }

  /** Every step, whatever came before it, keeps the invariant. */
  lemma ActKeepsInv(w: Fine, s: FineStep)
    requires FineInv(w)
    ensures FineInv(Act(w, s)) && StepFits(w, Act(w, s), s)
  {
    if OfMarker(s) {
      MarkerKeeps(w, s);
    } else if OfWatcher(s) {
      WatcherKeeps(w, s);
    } else if OfFire(s) {
      FireKeeps(w, s);
    } else if OfStart(s) {
      StartKeeps(w, s);
    } else if OfWrite(s) {
      WriteKeeps(w, s);
    } else if s.Create? {
      if s.id !in w.rows {
        CreateKeeps(w, s.id, NewIntent(s.owner, s.market, s.kind, s.expiresAt, s.now));
      }
    } else {
      CrashKeeps(w, s.p);
    }
  }

  lemma {:induction false} ActsKeepInv(steps: seq<FineStep>)
    ensures FineInv(Acts(Idle(), steps))
  {
    if steps != [] {
      ActsKeepInv(steps[..|steps| - 1]);
      ActKeepsInv(Acts(Idle(), steps[..|steps| - 1]), steps[|steps| - 1]);
    }
  }

  // ---------------------------------------------------------------------------
  // Guarantees
  // ---------------------------------------------------------------------------

  /** Under every interleaving: a market intent is executed only with its owner's own trade under
      its own transaction; limit and market intents never take each other's paths; an intent is
      placed at most once; no fire call ever loses its row. */
  lemma InterleavingsAreSafe(steps: seq<FineStep>, id: string)
    ensures !Acts(Idle(), steps).lost
    ensures Acts(Idle(), steps).placements[id] <= 1
    ensures id in Acts(Idle(), steps).rows ==>
              var x := Acts(Idle(), steps).rows[id];
              && (x.status == EXECUTED ==> x.linkedTxHash.Some?
                                           && Traded(Acts(Idle(), steps).trades, x.linkedTxHash.value, x.market, x.owner))
              && (x.kind == CL ==> x.status !in {READY, EXECUTING, EXECUTED})
              && (x.kind == CMR ==> x.status !in {TRIGGERED, PLACED} && Acts(Idle(), steps).placements[id] == 0)
  {
    ActsKeepInv(steps);
    var w := Acts(Idle(), steps);
    if id in w.rows {
      assert RowOk(w.trades, w.placements, id, w.rows[id]);
    }
  }

  /** From the latch on, a fired row is moved only by the call that latched it, and any other call
      that latches afterwards latches another row. */
  lemma FiredRowHasOneOwner(steps: seq<FineStep>, p: nat, s: FineStep)
    requires var w := Acts(Idle(), steps);
             p in w.jobs && w.jobs[p].Firer? && !(s.FireWrites? && s.p == p)
    ensures var w := Acts(Idle(), steps);
            && At(w.rows, w.jobs[p].id, TRIGGERED)
            && w.jobs[p].id in Act(w, s).rows && Act(w, s).rows[w.jobs[p].id] == w.rows[w.jobs[p].id]
            && forall q :: q in w.jobs && q != p && w.jobs[q].Firer? ==> w.jobs[q].id != w.jobs[p].id
  {
    ActsKeepInv(steps);
    var w := Acts(Idle(), steps);
    assert JobOk(w.rows, w.trades, w.placements, w.jobs[p]);
    ActKeepsInv(w, s);
    if s.FireWrites? && s.p in w.jobs && w.jobs[s.p].Firer? {
      assert w.jobs[s.p].id != w.jobs[p].id;
    }
  }

  /** Ended is ended: no later step changes the status of a finished intent, nor the transaction of
      an intent that names one. */
  lemma {:induction false} EndsAreFinal(steps: seq<FineStep>, more: seq<FineStep>, id: string)
    requires id in Acts(Idle(), steps).rows
    ensures id in Acts(Idle(), steps + more).rows
    ensures Terminal(Acts(Idle(), steps).rows[id].status) ==> Acts(Idle(), steps + more).rows[id] == Acts(Idle(), steps).rows[id]
    ensures Acts(Idle(), steps).rows[id].linkedTxHash.Some? ==>
              Acts(Idle(), steps + more).rows[id].linkedTxHash == Acts(Idle(), steps).rows[id].linkedTxHash
  {
    if more == [] {
      assert steps + more == steps;
    } else {
      var front, last := more[..|more| - 1], more[|more| - 1];
      assert (steps + more)[..|steps + more| - 1] == steps + front && (steps + more)[|steps + more| - 1] == last;
      EndsAreFinal(steps, front, id);
      ActsKeepInv(steps + front);
      ActKeepsInv(Acts(Idle(), steps + front), last);
    }
  }

  /** The trade is on record, the intent still waits for it, and nobody is left to tell it. */
  predicate Stranded(w: Fine, id: string, tx: TxHash) {
    && At(w.rows, id, EXECUTING) && w.rows[id].linkedTxHash == Some(tx)
    && Traded(w.trades, tx, w.rows[id].market, w.rows[id].owner)
    && forall p :: p in w.jobs ==> !(w.jobs[p].Marker? || w.jobs[p].Closer?)
  }

  /** The marker has looked and found nothing. */
  lemma MarkerLooksTooEarly(w: Fine, id: string, tx: TxHash)
    requires At(w.rows, id, READY) && w.jobs == map[] && !Traded(w.trades, tx, w.rows[id].market, w.rows[id].owner)
    ensures Act(Act(w, StartMarker(0, id, tx)), MarkerLooks(0))
         == w.(jobs := map[0 := Marker(id, w.rows[id].market, w.rows[id].owner, tx, Missed)])
  {
    var w1 := Act(w, StartMarker(0, id, tx));
    assert w1.jobs == map[0 := Marker(id, w.rows[id].market, w.rows[id].owner, tx, Checked)];
    assert Act(w1, MarkerLooks(0)).jobs == map[0 := Marker(id, w.rows[id].market, w.rows[id].owner, tx, Missed)];
  }

  /** Then the trade comes in, and the watcher finds nobody waiting. */
  lemma WatcherLooksTooEarly(w: Fine, j: Job, t: Desk.Trade, tx: TxHash)
    requires w.jobs == map[0 := j] && t.txHash == Some(tx)
    requires forall other :: other in w.rows ==> !Awaits(w.rows, other, tx, t.market, t.taker)
    ensures Act(Act(w, WatcherAdds(1, t)), WatcherFinds(1, None))
         == w.(trades := w.trades + [t], jobs := map[0 := j, 1 := Closer(tx, t.market, t.taker, None)])
  {
    var w1 := Act(w, WatcherAdds(1, t));
    assert w1.jobs == map[0 := j, 1 := Closer(tx, t.market, t.taker, None)];
    assert Act(w1, WatcherFinds(1, None)).jobs == w1.jobs;
  }

  /** Then both write what they saw. */
  lemma BothWriteTooLate(w: Fine, id: string, t: Desk.Trade, tx: TxHash, now: int)
    requires At(w.rows, id, READY) && t.market == w.rows[id].market && t.taker == w.rows[id].owner
    requires w.jobs == map[0 := Marker(id, t.market, t.taker, tx, Missed), 1 := Closer(tx, t.market, t.taker, None)]
    requires t in w.trades && t.txHash == Some(tx)
    ensures Stranded(Act(Act(w, MarkerWrites(0, now)), WatcherWrites(1, now)), id, tx)
  {
    var w1 := Act(w, MarkerWrites(0, now));
    assert w1.jobs == map[1 := Closer(tx, t.market, t.taker, None)];
    assert At(w1.rows, id, EXECUTING) && w1.trades == w.trades;
    var w2 := Act(w1, WatcherWrites(1, now));
    assert w2.jobs == map[] && w2.rows == w1.rows;
    assert Desk.Concerns(t, tx, t.market, t.taker);
  }

  /** One call at a time, the marker and the watcher can miss each other: the marker looks before
      the trade is added, the watcher looks before the marker has written. */
  lemma MarkerAndWatcherCanMiss(w: Fine, id: string, t: Desk.Trade, tx: TxHash, now: int)
    requires At(w.rows, id, READY) && w.jobs == map[]
    requires t.txHash == Some(tx) && t.market == w.rows[id].market && t.taker == w.rows[id].owner
    requires !Traded(w.trades, tx, t.market, t.taker)
    requires forall other :: other in w.rows ==> !Awaits(w.rows, other, tx, t.market, t.taker)
    ensures var looked := Act(Act(w, StartMarker(0, id, tx)), MarkerLooks(0));
            var added := Act(Act(looked, WatcherAdds(1, t)), WatcherFinds(1, None));
            Stranded(Act(Act(added, MarkerWrites(0, now)), WatcherWrites(1, now)), id, tx)
  {
    MarkerLooksTooEarly(w, id, tx);
    MissedFromThere(Act(Act(w, StartMarker(0, id, tx)), MarkerLooks(0)), id, t, tx, now);
  }

  lemma MissedFromThere(w: Fine, id: string, t: Desk.Trade, tx: TxHash, now: int)
    requires At(w.rows, id, READY) && w.jobs == map[0 := Marker(id, t.market, t.taker, tx, Missed)]
    requires t.txHash == Some(tx) && t.market == w.rows[id].market && t.taker == w.rows[id].owner
    requires forall other :: other in w.rows ==> !Awaits(w.rows, other, tx, t.market, t.taker)
    ensures Stranded(Act(Act(Act(Act(w, WatcherAdds(1, t)), WatcherFinds(1, None)), MarkerWrites(0, now)), WatcherWrites(1, now)),
                     id, tx)
  {
    WatcherLooksTooEarly(w, w.jobs[0], t, tx);
    BothWriteTooLate(Act(Act(w, WatcherAdds(1, t)), WatcherFinds(1, None)), id, t, tx, now);
  }
}
