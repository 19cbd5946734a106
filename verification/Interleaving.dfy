/** The same protocol one database call at a time: every request, tick and watched transaction is a
    job that reads, then looks something up, then writes, and any other job may run in between.
    Models apps/api/src/sea/intent.service.ts, intent.repository.ts, intent-monitor.service.ts,
    intent-fire.service.ts and apps/api/src/onchain/fill-watcher.service.ts:533-647. */
module Interleaving {
  import opened Prelude
  import opened Intents
  import opened Sea
  import P = Protocol
  import Desk

  datatype MarkStage = Checked | SawTrade | Missed | SawRevert

  datatype FireStage = Latched | Validated | Placed(hash: Hash) | Failing(reason: string)

  /** What a call in flight remembers. */
  datatype Job =
    | Marker(id: string, market: Symbol, owner: Address, tx: TxHash, stage: MarkStage)
    | Closer(tx: TxHash, market: Symbol, owner: Address, hit: Option<string>)
    | Reverter(tx: TxHash, market: Symbol, owner: Address, hit: Option<string>)
    | Canceller(id: string, from: IntentStatus)
    | Monitor(id: string)
    | Preparer(id: string)
    | Locker(id: string, epoch: int)
    | StaleSweeper(id: string)
    | DueSweeper(id: string, from: IntentStatus)
    | Firer(id: string, fire: FireStage)

  /** `placements` counts successful placements per intent; `lost` remembers whether a fire call
      ever found its row moved. */
  datatype Fine = Fine(rows: Rows, trades: Trades, jobs: map<nat, Job>, placements: multiset<string>, lost: bool)

  /** `p` names a job. Start steps read a row and check its status; the last step of a job writes.
      Clock readings are arbitrary. A step that does not apply changes nothing. */
  datatype FineStep =
    | Create(id: string, owner: Address, market: Symbol, kind: Kind, expiresAt: int, now: int)
    | StartMarker(p: nat, id: string, tx: TxHash)
    | MarkerLooks(p: nat)
    | MarkerSeesRevert(p: nat)
    | MarkerWrites(p: nat, now: int)
    | WatcherAdds(p: nat, trade: Desk.Trade)
    | WatcherReverts(p: nat, tx: TxHash, market: Symbol, owner: Address)
    | WatcherFinds(p: nat, hit: Option<string>)
    | WatcherWrites(p: nat, now: int)
    | StartCancel(p: nat, id: string)
    | CancelWrites(p: nat, now: int)
    | StartMonitor(p: nat, id: string)
    | MonitorWrites(p: nat, expire: bool, until: int, now: int)
    | StartPrepare(p: nat, id: string)
    | PrepareWrites(p: nat, ready: bool, ttlSec: nat, until: int, now: int)
    | StartLock(p: nat, id: string)
    | LockWrites(p: nat, until: int, now: int)
    | StartSweep(p: nat, id: string)
    | SweepWrites(p: nat, now: int)
    | Latch(p: nat, id: string, now: int)
    | FireValidates(p: nat, verdict: Option<string>)
    | FirePlaces(p: nat, outcome: Outcome<Hash>)
    | FireWrites(p: nat, now: int)
    | Crash(p: nat)

  function Spawn(w: Fine, p: nat, j: Job): Fine {
    if p in w.jobs then w else w.(jobs := w.jobs[p := j])
  }

  function Advance(w: Fine, p: nat, j: Job): Fine {
    w.(jobs := w.jobs[p := j])
  }

  function Finish(w: Fine, p: nat, rows: Rows): Fine {
    w.(rows := rows, jobs := w.jobs - {p})
  }

  function MarkerWrite(rows: Rows, j: Job, now: int): Rows
    requires j.Marker?
  {
    match j.stage
    case Checked => rows
    case SawTrade => LeaveReady(rows, j.id, EXECUTED, j.tx, None, now).0
    case Missed => LeaveReady(rows, j.id, EXECUTING, j.tx, None, now).0
    case SawRevert => LeaveReady(rows, j.id, FAILED, j.tx, Some("tx_reverted_at_marker"), now).0
  }

  function WatcherWrite(rows: Rows, j: Job, now: int): Rows
    requires j.Closer? || j.Reverter?
  {
    if j.hit.None? then rows
    else if j.Closer? then LeaveExecuting(rows, j.hit.value, EXECUTED, j.tx, None, now).0
    else LeaveExecuting(rows, j.hit.value, FAILED, j.tx, Some("tx_reverted"), now).0
  }

  /** The write that ends a fire call, and whether the row was still its own. */
  function FireWrite(rows: Rows, j: Job, now: int): (Rows, bool)
    requires j.Firer? && (j.fire.Placed? || j.fire.Failing?)
  {
    if j.fire.Placed? then MarkPlaced(rows, j.id, j.fire.hash, now)
    else TransitionStatus(rows, j.id, TRIGGERED, FAILED, Some(j.fire.reason), now)
  }

  predicate OfMarker(s: FineStep) {
    s.StartMarker? || s.MarkerLooks? || s.MarkerSeesRevert? || s.MarkerWrites?
  }

  predicate OfWatcher(s: FineStep) {
    s.WatcherAdds? || s.WatcherReverts? || s.WatcherFinds? || s.WatcherWrites?
  }

  predicate OfFire(s: FineStep) {
    s.Latch? || s.FireValidates? || s.FirePlaces? || s.FireWrites?
  }

  predicate OfStart(s: FineStep) {
    s.StartCancel? || s.StartMonitor? || s.StartPrepare? || s.StartLock? || s.StartSweep?
  }

  predicate OfWrite(s: FineStep) {
    s.CancelWrites? || s.MonitorWrites? || s.PrepareWrites? || s.LockWrites? || s.SweepWrites?
  }

  function MarkerStep(w: Fine, s: FineStep): Fine
    requires OfMarker(s)
  {
    if s.StartMarker? then
      if At(w.rows, s.id, READY) then
        Spawn(w, s.p, Marker(s.id, w.rows[s.id].market, w.rows[s.id].owner, s.tx, Checked))
      else w
    else if s.p !in w.jobs || !w.jobs[s.p].Marker? then w
    else
      var j := w.jobs[s.p];
      if s.MarkerLooks? then
        if j.stage == Checked then
          Advance(w, s.p, j.(stage := if Traded(w.trades, j.tx, j.market, j.owner) then SawTrade else Missed))
        else w
      else if s.MarkerSeesRevert? then
        if j.stage == Missed then Advance(w, s.p, j.(stage := SawRevert)) else w
      else if j.stage == Checked then w
      else Finish(w, s.p, MarkerWrite(w.rows, j, s.now))
  }

  function WatcherStep(w: Fine, s: FineStep): Fine
    requires OfWatcher(s)
  {
    if s.WatcherAdds? then
      var w1 := w.(trades := w.trades + [s.trade]);
      if s.trade.txHash.Some? then
        Spawn(w1, s.p, Closer(s.trade.txHash.value, s.trade.market, s.trade.taker, None))
      else w1
    else if s.WatcherReverts? then Spawn(w, s.p, Reverter(s.tx, s.market, s.owner, None))
    else if s.p !in w.jobs || !(w.jobs[s.p].Closer? || w.jobs[s.p].Reverter?) then w
    else
      var j := w.jobs[s.p];
      if s.WatcherFinds? then
        if Found(w.rows, s.hit, j.tx, j.market, j.owner) then Advance(w, s.p, j.(hit := s.hit)) else w
      else Finish(w, s.p, WatcherWrite(w.rows, j, s.now))
  }

  /** Requests and ticks that read a status before they write under its guard. */
  function StartStep(w: Fine, s: FineStep): Fine
    requires OfStart(s)
  {
    if s.id !in w.rows then w
    else
      var x := w.rows[s.id];
      if s.StartCancel? then if Cancellable(x.status) then Spawn(w, s.p, Canceller(s.id, x.status)) else w
      else if s.StartMonitor? then if x.status == READY then Spawn(w, s.p, Monitor(s.id)) else w
      else if s.StartPrepare? then if x.status == ACTIVE && x.kind == CMR then Spawn(w, s.p, Preparer(s.id)) else w
      else if s.StartLock? then
        if x.status == READY && x.preparedQuoteAt.Some? then Spawn(w, s.p, Locker(s.id, x.preparedQuoteAt.value)) else w
      else if x.status == EXECUTING then Spawn(w, s.p, StaleSweeper(s.id))
      else if x.status == DRAFT || x.status == ACTIVE then Spawn(w, s.p, DueSweeper(s.id, x.status))
      else w
  }

  /** The rows after the write that ends such a job; none when the step is not that job's. */
  function GuardedWrite(rows: Rows, j: Job, s: FineStep): Option<Rows>
    requires OfWrite(s)
  {
    match s
    case CancelWrites(_, now) =>
      if j.Canceller? then Some(TransitionStatus(rows, j.id, j.from, CANCELLED, Some("user_cancel"), now).0) else None
    case MonitorWrites(_, expire, until, now) =>
      if !j.Monitor? then None
      else if expire then Some(MarkExpiredFromReady(rows, j.id, "intent_expired_by_ts", now).0)
      else Some(RearmFromReady(rows, j.id, until, now).0)
    case PrepareWrites(_, ready, ttlSec, until, now) =>
      if !j.Preparer? then None
      else if ready then Some(MarkReady(rows, j.id, ttlSec, now).0)
      else Some(SetActiveCooldown(rows, j.id, until, now).0)
    case LockWrites(_, until, now) =>
      if j.Locker? then Some(LockWalletFromReady(rows, j.id, j.epoch, until, now).0) else None
    case SweepWrites(_, now) =>
      if j.StaleSweeper? then Some(TransitionStatus(rows, j.id, EXECUTING, FAILED, Some("stale_pending"), now).0)
      else if j.DueSweeper? then Some(TransitionStatus(rows, j.id, j.from, EXPIRED, Some("intent_expired_by_ts"), now).0)
      else None
  }

  function WriteStep(w: Fine, s: FineStep): Fine
    requires OfWrite(s)
  {
    if s.p !in w.jobs then w
    else
      match GuardedWrite(w.rows, w.jobs[s.p], s)
      case None => w
      case Some(rows) => Finish(w, s.p, rows)
  }

  function FireStep(w: Fine, s: FineStep): Fine
    requires OfFire(s)
  {
    if s.Latch? then
      if s.p !in w.jobs && At(w.rows, s.id, ACTIVE) && w.rows[s.id].kind == CL then
        Spawn(w.(rows := TransitionStatus(w.rows, s.id, ACTIVE, TRIGGERED, None, s.now).0), s.p, Firer(s.id, Latched))
      else w
    else if s.p !in w.jobs || !w.jobs[s.p].Firer? then w
    else
      var j := w.jobs[s.p];
      if s.FireValidates? then
        if j.fire != Latched then w
        else Advance(w, s.p, j.(fire := if s.verdict.Some? then Failing(s.verdict.value) else Validated))
      else if s.FirePlaces? then
        if j.fire != Validated then w
        else if s.outcome.Ok? then
          Advance(w, s.p, j.(fire := FireStage.Placed(s.outcome.value))).(placements := w.placements + multiset{j.id})
        else Advance(w, s.p, j.(fire := Failing(s.outcome.code)))
      else if j.fire.Placed? || j.fire.Failing? then
        var (rows, ok) := FireWrite(w.rows, j, s.now);
        Finish(w, s.p, rows).(lost := w.lost || !ok)
      else w
  }

  function Act(w: Fine, s: FineStep): Fine {
    if OfMarker(s) then MarkerStep(w, s)
    else if OfWatcher(s) then WatcherStep(w, s)
    else if OfFire(s) then FireStep(w, s)
    else if OfStart(s) then StartStep(w, s)
    else if OfWrite(s) then WriteStep(w, s)
    else
      match s
      case Create(id, owner, market, kind, expiresAt, now) =>
        if id in w.rows then w else w.(rows := w.rows[id := NewIntent(owner, market, kind, expiresAt, now)])
      case Crash(p) => w.(jobs := w.jobs - {p})
  }

  function Idle(): Fine {
    Fine(map[], [], map[], multiset{}, false)
  }

  /** Any sequence of steps, in any order. */
  function Acts(w: Fine, steps: seq<FineStep>): Fine {
    if steps == [] then w else Act(Acts(w, steps[..|steps| - 1]), steps[|steps| - 1])
  }

  // ---------------------------------------------------------------------------
  // The invariant
  // ---------------------------------------------------------------------------

  predicate RowOk(trades: Trades, placements: multiset<string>, id: string, x: Intent) {
    && P.KindFits(x) && P.TxFits(trades, x)
    && placements[id] <= 1
    && (x.status == ACTIVE || x.kind == CMR ==> placements[id] == 0)
  }

  predicate JobOk(rows: Rows, trades: Trades, placements: multiset<string>, j: Job) {
    match j
    case Marker(id, market, owner, tx, stage) =>
      && id in rows && rows[id].kind == CMR && rows[id].market == market && rows[id].owner == owner
      && (stage == SawTrade ==> Traded(trades, tx, market, owner))
    case Closer(tx, market, owner, hit) =>
      && Traded(trades, tx, market, owner)
      && (hit.Some? ==> hit.value in rows && rows[hit.value].market == market && rows[hit.value].owner == owner)
    case Canceller(id, from) => Cancellable(from)
    case Preparer(id) => id in rows && rows[id].kind == CMR
    case DueSweeper(id, from) => from == DRAFT || from == ACTIVE
    case Firer(id, fire) =>
      At(rows, id, TRIGGERED) && placements[id] == if fire.Placed? then 1 else 0
    case _ => true
  }

  predicate OneFirerPerRow(jobs: map<nat, Job>) {
    forall p, q :: p in jobs && q in jobs && p != q && jobs[p].Firer? && jobs[q].Firer? ==> jobs[p].id != jobs[q].id
  }

  predicate FineInv(w: Fine) {
    match w
    case Fine(rows, trades, jobs, placements, lost) =>
      && !lost
      && (forall id :: id in rows ==> RowOk(trades, placements, id, rows[id]))
      && (forall id :: id in placements ==> id in rows)
      && (forall p :: p in jobs ==> JobOk(rows, trades, placements, jobs[p]))
      && OneFirerPerRow(jobs)
  }

  /** What any single write may do to a row. */
  predicate Evolves(x: Intent, x': Intent) {
    && x'.market == x.market && x'.owner == x.owner && x'.kind == x.kind
    && (Terminal(x.status) ==> x' == x)
    && (x.linkedTxHash.Some? ==> x'.linkedTxHash == x.linkedTxHash)
  }

  /** A step that neither fires nor touches fired rows. */
  predicate Quiet(w: Fine, w': Fine) {
    && w.trades <= w'.trades && w'.placements == w.placements && w'.lost == w.lost
    && w.rows.Keys <= w'.rows.Keys
    && (forall id :: id in w.rows ==> Evolves(w.rows[id], w'.rows[id]))
    && (forall id :: id in w.rows && w.rows[id].status == TRIGGERED ==> w'.rows[id] == w.rows[id])
  }

  lemma JobStaysOk(w: Fine, w': Fine, j: Job)
    requires Quiet(w, w') && JobOk(w.rows, w.trades, w.placements, j)
    ensures JobOk(w'.rows, w'.trades, w'.placements, j)
  {
    if j.Marker? && j.stage == SawTrade {
      P.TradesOnlyGrow(w.trades, w'.trades, j.tx, j.market, j.owner);
    }
    if j.Closer? {
      P.TradesOnlyGrow(w.trades, w'.trades, j.tx, j.market, j.owner);
    }
  }

  /** How one step may change the rows: finished rows and recorded transactions stay, and a fired
      row moves only when its own fire call writes. */
  predicate StepFits(w: Fine, w': Fine, s: FineStep) {
    && w.rows.Keys <= w'.rows.Keys
    && (forall id :: id in w.rows ==> Evolves(w.rows[id], w'.rows[id]))
    && (forall id :: id in w.rows && w.rows[id].status == TRIGGERED && w'.rows[id] != w.rows[id] ==>
          s.FireWrites? && s.p in w.jobs && w.jobs[s.p].Firer? && w.jobs[s.p].id == id)
  }
}
