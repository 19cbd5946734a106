/** The protocol one database call at a time against the protocol one call at a time: a call that runs alone,
    nothing in between, does to rows and trades exactly what the whole operation does.
    Models apps/api/src/sea/intent.service.ts, intent-monitor.service.ts, cmr-prepare.service.ts,
    intent-fire.service.ts, the two sweepers and apps/api/src/onchain/fill-watcher.service.ts:533-647. */
module SerialCalls {
  import opened Prelude
  import opened Intents
  import opened Tokens
  import opened Sea
  import opened Interleaving
  import Desk

  lemma OneMore(w: Fine, steps: seq<FineStep>, s: FineStep)
    ensures Acts(w, steps + [s]) == Act(Acts(w, steps), s)
  {
    assert (steps + [s])[..|steps + [s]| - 1] == steps;
  }

  lemma TwoSteps(w: Fine, a: FineStep, b: FineStep)
    ensures Acts(w, [a, b]) == Act(Act(w, a), b)
  {
    OneMore(w, [], a);
    OneMore(w, [a], b);
    assert [] + [a] == [a] && [a] + [b] == [a, b];
  }

  lemma ThreeSteps(w: Fine, a: FineStep, b: FineStep, c: FineStep)
    ensures Acts(w, [a, b, c]) == Act(Act(Act(w, a), b), c)
  {
    TwoSteps(w, a, b);
    OneMore(w, [a, b], c);
    assert [a, b] + [c] == [a, b, c];
  }

  lemma FourSteps(w: Fine, a: FineStep, b: FineStep, c: FineStep, d: FineStep)
    ensures Acts(w, [a, b, c, d]) == Act(Act(Act(Act(w, a), b), c), d)
  {
    ThreeSteps(w, a, b, c);
    OneMore(w, [a, b, c], d);
    assert [a, b, c] + [d] == [a, b, c, d];
  }

  /** A job that came and went leaves the jobs as they were. */
  lemma CameAndWent(jobs: map<nat, Job>, p: nat, j: Job)
    requires p !in jobs
    ensures jobs[p := j] - {p} == jobs
  {
  }

  /** The world with this one job more. */
  function Running(w: Fine, p: nat, j: Job): Fine {
    w.(jobs := w.jobs[p := j])
  }

  lemma Dispatch(w: Fine, s: FineStep)
    ensures OfStart(s) ==> Act(w, s) == StartStep(w, s)
    ensures OfWrite(s) ==> Act(w, s) == WriteStep(w, s)
  {
  }

  lemma WritesAndGoes(w: Fine, p: nat, b: FineStep, j: Job, rows': Rows)
    requires p !in w.jobs && OfWrite(b) && b.p == p && GuardedWrite(w.rows, j, b) == Some(rows')
    ensures WriteStep(Running(w, p, j), b) == w.(rows := rows')
  {
    CameAndWent(w.jobs, p, j);
  }

  /** A job that reads once and writes once. */
  lemma ReadAndWrite(w: Fine, p: nat, a: FineStep, b: FineStep, j: Job, rows': Rows)
    requires p !in w.jobs && OfStart(a) && OfWrite(b) && b.p == p
    requires StartStep(w, a) == Running(w, p, j) && GuardedWrite(w.rows, j, b) == Some(rows')
    ensures Acts(w, [a, b]) == w.(rows := rows')
  {
    TwoSteps(w, a, b);
    Dispatch(w, a);
    Dispatch(Running(w, p, j), b);
    WritesAndGoes(w, p, b, j, rows');
  }

  lemma CancelAlone(env: Env, w: Fine, log: Log, p: nat, id: string, now: int, signature: string)
    requires p !in w.jobs && Sea.CancelOp(env, Ledger(w.rows, log), now, id, signature).1.Ok?
    ensures Acts(w, [StartCancel(p, id), CancelWrites(p, now)])
         == w.(rows := Sea.CancelOp(env, Ledger(w.rows, log), now, id, signature).0.rows)
  {
    ReadAndWrite(w, p, StartCancel(p, id), CancelWrites(p, now), Canceller(id, w.rows[id].status),
                 Sea.CancelOp(env, Ledger(w.rows, log), now, id, signature).0.rows);
  }

  lemma LockAlone(env: Env, w: Fine, log: Log, p: nat, id: string, now: int, b: LockBody)
    requires p !in w.jobs && LockWalletOp(env, Ledger(w.rows, log), now, id, b).1.Ok? && !LockLive(w.rows[id], now)
    ensures env.parse(b.until).Some?
    ensures Acts(w, [StartLock(p, id), LockWrites(p, env.parse(b.until).value, now)])
         == w.(rows := LockWalletOp(env, Ledger(w.rows, log), now, id, b).0.rows)
  {
    ReadAndWrite(w, p, StartLock(p, id), LockWrites(p, env.parse(b.until).value, now),
                 Locker(id, w.rows[id].preparedQuoteAt.value), LockWalletOp(env, Ledger(w.rows, log), now, id, b).0.rows);
  }

  /** A lock that was checked in one epoch is never stored in another. */
  lemma LockKeepsToItsEpoch(w: Fine, p: nat, until: int, now: int)
    requires p in w.jobs && w.jobs[p].Locker? && w.jobs[p].id in w.rows
    requires w.rows[w.jobs[p].id].status != READY || w.rows[w.jobs[p].id].preparedQuoteAt != Some(w.jobs[p].epoch)
    ensures Act(w, LockWrites(p, until, now)).rows == w.rows
  {
  }

  /** What the monitor decides to write on a READY row. */
  lemma MonitorAlone(w: Fine, log: Log, p: nat, id: string, now: int, rearmSec: nat)
    requires p !in w.jobs && At(w.rows, id, READY)
    requires MonitorReadyOp(Ledger(w.rows, log), now, rearmSec, id).rows != w.rows
    ensures Acts(w, [StartMonitor(p, id), MonitorWrites(p, now > w.rows[id].expiresAt, now + rearmSec * 1000, now)])
         == w.(rows := MonitorReadyOp(Ledger(w.rows, log), now, rearmSec, id).rows)
  {
    ReadAndWrite(w, p, StartMonitor(p, id), MonitorWrites(p, now > w.rows[id].expiresAt, now + rearmSec * 1000, now),
                 Monitor(id), MonitorReadyOp(Ledger(w.rows, log), now, rearmSec, id).rows);
  }

  lemma PrepareAlone(w: Fine, log: Log, p: nat, id: string, now: int, verdict: Verdict, ttlSec: nat, debounceSec: nat)
    requires p !in w.jobs && id in w.rows && Due(w.rows[id], now) && verdict != Untriggered
    ensures Acts(w, [StartPrepare(p, id), PrepareWrites(p, verdict == Fillable, ttlSec, now + debounceSec * 1000, now)])
         == w.(rows := PrepareOp(Ledger(w.rows, log), now, verdict, ttlSec, debounceSec, id).rows)
  {
    ReadAndWrite(w, p, StartPrepare(p, id), PrepareWrites(p, verdict == Fillable, ttlSec, now + debounceSec * 1000, now),
                 Preparer(id), PrepareOp(Ledger(w.rows, log), now, verdict, ttlSec, debounceSec, id).rows);
  }

  lemma SweptOne(rows: Rows, id: string, to: IntentStatus, reason: string, now: int)
    requires id in rows
    ensures Swept(rows, {id}, to, reason, now) == TransitionStatus(rows, id, rows[id].status, to, Some(reason), now).0
  {
  }

  lemma StaleSweepAlone(w: Fine, log: Log, p: nat, id: string, now: int)
    requires p !in w.jobs && At(w.rows, id, EXECUTING)
    ensures Acts(w, [StartSweep(p, id), SweepWrites(p, now)]) == w.(rows := SweepStaleOp(Ledger(w.rows, log), now, {id}).rows)
  {
    SweptOne(w.rows, id, FAILED, "stale_pending", now);
    ReadAndWrite(w, p, StartSweep(p, id), SweepWrites(p, now), StaleSweeper(id), SweepStaleOp(Ledger(w.rows, log), now, {id}).rows);
  }

  lemma DueSweepAlone(w: Fine, log: Log, p: nat, id: string, now: int)
    requires p !in w.jobs && id in w.rows && w.rows[id].status in {DRAFT, ACTIVE}
    ensures Acts(w, [StartSweep(p, id), SweepWrites(p, now)]) == w.(rows := SweepDueOp(Ledger(w.rows, log), now, {id}).rows)
  {
    SweptOne(w.rows, id, EXPIRED, "intent_expired_by_ts", now);
    ReadAndWrite(w, p, StartSweep(p, id), SweepWrites(p, now), DueSweeper(id, w.rows[id].status),
                 SweepDueOp(Ledger(w.rows, log), now, {id}).rows);
  }

  /** The steps of a marker: check, look the trade up, perhaps see a revert, write. */
  function MarkerSteps(w: Fine, p: nat, id: string, tx: TxHash, reverted: bool, now: int): seq<FineStep>
    requires id in w.rows
  {
    if reverted && !Traded(w.trades, tx, w.rows[id].market, w.rows[id].owner) then
      [StartMarker(p, id, tx), MarkerLooks(p), MarkerSeesRevert(p), MarkerWrites(p, now)]
    else [StartMarker(p, id, tx), MarkerLooks(p), MarkerWrites(p, now)]
  }

  lemma Readvance(jobs: map<nat, Job>, p: nat, j: Job, j': Job)
    ensures jobs[p := j][p := j'] == jobs[p := j']
  {
  }

  lemma Looked(w: Fine, p: nat, id: string, tx: TxHash)
    requires p !in w.jobs && At(w.rows, id, READY)
    ensures var x := w.rows[id];
            Act(Act(w, StartMarker(p, id, tx)), MarkerLooks(p))
            == Running(w, p, Marker(id, x.market, x.owner, tx, if Traded(w.trades, tx, x.market, x.owner) then SawTrade else Missed))
  {
    var x := w.rows[id];
    var stage := if Traded(w.trades, tx, x.market, x.owner) then SawTrade else Missed;
    Readvance(w.jobs, p, Marker(id, x.market, x.owner, tx, Checked), Marker(id, x.market, x.owner, tx, stage));
  }

  lemma SawIt(w: Fine, p: nat, id: string, market: Symbol, owner: Address, tx: TxHash)
    ensures Act(Running(w, p, Marker(id, market, owner, tx, Missed)), MarkerSeesRevert(p))
         == Running(w, p, Marker(id, market, owner, tx, SawRevert))
  {
    Readvance(w.jobs, p, Marker(id, market, owner, tx, Missed), Marker(id, market, owner, tx, SawRevert));
  }

  lemma Wrote(w: Fine, p: nat, id: string, market: Symbol, owner: Address, tx: TxHash, stage: MarkStage, now: int)
    requires p !in w.jobs && stage != Checked
    ensures Act(Running(w, p, Marker(id, market, owner, tx, stage)), MarkerWrites(p, now))
         == w.(rows := MarkerWrite(w.rows, Marker(id, market, owner, tx, stage), now))
  {
    CameAndWent(w.jobs, p, Marker(id, market, owner, tx, stage));
  }

  lemma MarkerAlone(w: Fine, log: Log, p: nat, id: string, tx: TxHash, reverted: bool, now: int)
    requires p !in w.jobs && At(w.rows, id, READY)
    ensures Acts(w, MarkerSteps(w, p, id, tx, reverted, now))
         == w.(rows := MarkAccepted(Ledger(w.rows, log), w.trades, now, id, tx, reverted).rows)
  {
    var x := w.rows[id];
    Looked(w, p, id, tx);
    if reverted && !Traded(w.trades, tx, x.market, x.owner) {
      FourSteps(w, StartMarker(p, id, tx), MarkerLooks(p), MarkerSeesRevert(p), MarkerWrites(p, now));
      SawIt(w, p, id, x.market, x.owner, tx);
      Wrote(w, p, id, x.market, x.owner, tx, SawRevert, now);
    } else {
      ThreeSteps(w, StartMarker(p, id, tx), MarkerLooks(p), MarkerWrites(p, now));
      Wrote(w, p, id, x.market, x.owner, tx, if Traded(w.trades, tx, x.market, x.owner) then SawTrade else Missed, now);
    }
  }

  /** Looking up and writing, for a job that closes or reverts. */
  lemma FindsAndWrites(w: Fine, p: nat, j: Job, j': Job, hit: Option<string>, now: int)
    requires p !in w.jobs && (j.Closer? || j.Reverter?) && Found(w.rows, hit, j.tx, j.market, j.owner)
    requires j' == if j.Closer? then Closer(j.tx, j.market, j.owner, hit) else Reverter(j.tx, j.market, j.owner, hit)
    ensures Act(Act(Running(w, p, j), WatcherFinds(p, hit)), WatcherWrites(p, now)) == w.(rows := WatcherWrite(w.rows, j', now))
  {
    Readvance(w.jobs, p, j, j');
    assert Act(Running(w, p, j), WatcherFinds(p, hit)) == Running(w, p, j');
    CameAndWent(w.jobs, p, j');
  }

  lemma FillAlone(w: Fine, log: Log, p: nat, t: Desk.Trade, tx: TxHash, hit: Option<string>, now: int)
    requires p !in w.jobs && t.txHash == Some(tx) && Found(w.rows, hit, tx, t.market, t.taker)
    ensures Acts(w, [WatcherAdds(p, t), WatcherFinds(p, hit), WatcherWrites(p, now)])
         == w.(trades := w.trades + [t], rows := CloseOp(Ledger(w.rows, log), now, tx, hit).rows)
  {
    ThreeSteps(w, WatcherAdds(p, t), WatcherFinds(p, hit), WatcherWrites(p, now));
    FindsAndWrites(w.(trades := w.trades + [t]), p, Closer(tx, t.market, t.taker, None), Closer(tx, t.market, t.taker, hit), hit, now);
  }

  lemma RevertAlone(w: Fine, log: Log, p: nat, tx: TxHash, market: Symbol, owner: Address, hit: Option<string>, now: int)
    requires p !in w.jobs && Found(w.rows, hit, tx, market, owner)
    ensures Acts(w, [WatcherReverts(p, tx, market, owner), WatcherFinds(p, hit), WatcherWrites(p, now)])
         == w.(rows := RevertOp(Ledger(w.rows, log), now, tx, hit).rows)
  {
    ThreeSteps(w, WatcherReverts(p, tx, market, owner), WatcherFinds(p, hit), WatcherWrites(p, now));
    FindsAndWrites(w, p, Reverter(tx, market, owner, None), Reverter(tx, market, owner, hit), hit, now);
  }

  /** The steps of a fire call after its latch. */
  lemma Latches(w: Fine, log: Log, p: nat, id: string, now: int)
    requires p !in w.jobs && LatchOp(Ledger(w.rows, log), now, id).1
    ensures Act(w, Latch(p, id, now)) == Running(w.(rows := LatchOp(Ledger(w.rows, log), now, id).0.rows), p, Firer(id, Latched))
  {
  }

  lemma Validates(w: Fine, p: nat, id: string, verdict: Option<string>)
    ensures Act(Running(w, p, Firer(id, Latched)), FireValidates(p, verdict))
         == Running(w, p, Firer(id, if verdict.Some? then Failing(verdict.value) else Validated))
  {
    Readvance(w.jobs, p, Firer(id, Latched), Firer(id, if verdict.Some? then Failing(verdict.value) else Validated));
  }

  lemma Places(w: Fine, p: nat, id: string, hash: Hash)
    ensures Act(Running(w, p, Firer(id, Validated)), FirePlaces(p, Ok(hash)))
         == Running(w.(placements := w.placements + multiset{id}), p, Firer(id, FireStage.Placed(hash)))
  {
    Readvance(w.jobs, p, Firer(id, Validated), Firer(id, FireStage.Placed(hash)));
  }

  lemma Concludes(w: Fine, p: nat, id: string, fire: FireStage, now: int)
    requires p !in w.jobs && At(w.rows, id, TRIGGERED) && (fire.Placed? || fire.Failing?)
    ensures Act(Running(w, p, Firer(id, fire)), FireWrites(p, now)) == w.(rows := FireWrite(w.rows, Firer(id, fire), now).0)
  {
    CameAndWent(w.jobs, p, Firer(id, fire));
  }

  /** A fire call that validates and places. */
  lemma FireAlone(w: Fine, log: Log, p: nat, id: string, hash: Hash, now: int)
    requires p !in w.jobs && LatchOp(Ledger(w.rows, log), now, id).1
    ensures Acts(w, [Latch(p, id, now), FireValidates(p, None), FirePlaces(p, Ok(hash)), FireWrites(p, now)])
         == w.(rows := PlacedOp(LatchOp(Ledger(w.rows, log), now, id).0, now, id, hash).rows,
               placements := w.placements + multiset{id})
  {
    var w1 := w.(rows := LatchOp(Ledger(w.rows, log), now, id).0.rows);
    FourSteps(w, Latch(p, id, now), FireValidates(p, None), FirePlaces(p, Ok(hash)), FireWrites(p, now));
    Latches(w, log, p, id, now);
    Validates(w1, p, id, None);
    Places(w1, p, id, hash);
    Concludes(w1.(placements := w.placements + multiset{id}), p, id, FireStage.Placed(hash), now);
  }

  /** One that validation refuses. */
  lemma FireRefusedAlone(w: Fine, log: Log, p: nat, id: string, reason: string, now: int)
    requires p !in w.jobs && LatchOp(Ledger(w.rows, log), now, id).1
    ensures Acts(w, [Latch(p, id, now), FireValidates(p, Some(reason)), FireWrites(p, now)])
         == w.(rows := FireFailedOp(LatchOp(Ledger(w.rows, log), now, id).0, now, id, reason).rows)
  {
    var w1 := w.(rows := LatchOp(Ledger(w.rows, log), now, id).0.rows);
    ThreeSteps(w, Latch(p, id, now), FireValidates(p, Some(reason)), FireWrites(p, now));
    Latches(w, log, p, id, now);
    Validates(w1, p, id, Some(reason));
    Concludes(w1, p, id, Failing(reason), now);
  }
}
