/** The intent protocol as a timed machine: each service call, monitor decision, sweep and watched
    transaction is one step, its clock reading and its update together.
    Models apps/api/src/sea/ (service, monitor, prepare, fire, sweepers) and the intent part of
    apps/api/src/onchain/fill-watcher.service.ts. */
module Protocol {
  import opened Prelude
  import opened Intents
  import opened Tokens
  import opened Sea
  import Desk

  /** A token handed out by a wallet lock, with the signed request it answered. */
  datatype Mint = Mint(id: string, owner: Address, lockUntil: int, epoch: int, until: string, signature: string)

  /** `minted` and `epochs` are history: every token issued, and every time each intent became READY. */
  datatype World = World(now: int, sea: Ledger, trades: Trades, minted: set<Mint>, epochs: map<string, seq<int>>)

  datatype Step =
    | Tick(ms: nat)
    | Create(id: string, owner: Address, market: Symbol, kind: Kind, expiresAt: int)
    | Prepare(id: string, verdict: Verdict, ttlSec: nat, debounceSec: nat)
    | MonitorReady(id: string, rearmSec: nat)
    | Cancel(id: string, signature: string)
    | LockWallet(id: string, body: LockBody)
    | MarkExecuting(id: string, tx: TxHash, token: string, reverted: bool)
    | WatchFill(trade: Desk.Trade, hit: Option<string>)
    | WatchRevert(tx: TxHash, market: Symbol, owner: Address, hit: Option<string>)
    | SweepStale(ids: set<string>, thresholdMs: nat)
    | SweepDue(ids: set<string>)
    | Latch(id: string)
    | FirePlaced(id: string, hash: Hash)
    | FireFailed(id: string, reason: string)

  function EpochsOf(w: World, id: string): seq<int> {
    if id in w.epochs then w.epochs[id] else []
  }

  /** What has to hold for a step to be one the system can take. Ids are new and, like addresses,
      bar-free; a lookup answers truthfully; a fire call that finishes is the one that latched. */
  predicate Enabled(w: World, s: Step) {
    match s
    case Create(id, owner, _, _, expiresAt) =>
      id !in w.sea.rows && id !in w.sea.log && id !in w.epochs && BarFree(id) && BarFree(owner) &&
      expiresAt > w.now + 60000
    case WatchFill(t, hit) =>
      if t.txHash.Some? then Found(w.sea.rows, hit, t.txHash.value, t.market, t.taker) else hit.None?
    case WatchRevert(tx, market, owner, hit) => Found(w.sea.rows, hit, tx, market, owner)
    case SweepStale(ids, thresholdMs) => ids <= StaleIds(w.sea.rows, w.now - thresholdMs)
    case SweepDue(ids) => ids <= OverdueIds(w.sea.rows, w.now)
    case FirePlaced(id, _) => At(w.sea.rows, id, TRIGGERED)
    case FireFailed(id, _) => At(w.sea.rows, id, TRIGGERED)
    case _ => true
  }

  /** The tokens handed out by a lock request: one when it stores a new lock, none otherwise. */
  function MintedBy(env: Env, w: World, id: string, b: LockBody): set<Mint> {
    if LockWalletOp(env, w.sea, w.now, id, b).1.Ok? && id in w.sea.rows && !LockLive(w.sea.rows[id], w.now)
       && w.sea.rows[id].preparedQuoteAt.Some? && env.parse(b.until).Some? then
      var x := w.sea.rows[id];
      {Mint(id, x.owner, env.parse(b.until).value, x.preparedQuoteAt.value, b.until, b.signature)}
    else {}
  }

  function TickStep(w: World, ms: nat): World {
    w.(now := w.now + ms)
  }

  function CreateStep(w: World, id: string, owner: Address, market: Symbol, kind: Kind, expiresAt: int): World {
    w.(sea := CreateOp(w.sea, w.now, id, NewIntent(owner, market, kind, expiresAt, w.now)))
  }

  /** Becoming READY opens an epoch. */
  function PrepareStep(w: World, id: string, verdict: Verdict, ttlSec: nat, debounceSec: nat): World {
    var sea := PrepareOp(w.sea, w.now, verdict, ttlSec, debounceSec, id);
    w.(sea := sea,
       epochs := if At(sea.rows, id, READY) && !At(w.sea.rows, id, READY) then w.epochs[id := EpochsOf(w, id) + [w.now]]
                 else w.epochs)
  }

  function MonitorStep(w: World, id: string, rearmSec: nat): World {
    w.(sea := MonitorReadyOp(w.sea, w.now, rearmSec, id))
  }

  function CancelStep(env: Env, w: World, id: string, signature: string): World {
    w.(sea := CancelOp(env, w.sea, w.now, id, signature).0)
  }

  function LockStep(env: Env, w: World, id: string, b: LockBody): World {
    w.(sea := LockWalletOp(env, w.sea, w.now, id, b).0, minted := w.minted + MintedBy(env, w, id, b))
  }

  function MarkStep(env: Env, w: World, id: string, tx: TxHash, token: string, reverted: bool): World {
    w.(sea := MarkExecutingOp(env, w.sea, w.trades, w.now, id, tx, token, reverted).0)
  }

  function FillStep(w: World, t: Desk.Trade, hit: Option<string>): World {
    w.(trades := w.trades + [t], sea := if t.txHash.Some? then CloseOp(w.sea, w.now, t.txHash.value, hit) else w.sea)
  }

  function RevertStep(w: World, tx: TxHash, hit: Option<string>): World {
    w.(sea := RevertOp(w.sea, w.now, tx, hit))
  }

  function SweepStaleStep(w: World, ids: set<string>): World {
    w.(sea := SweepStaleOp(w.sea, w.now, ids))
  }

  function SweepDueStep(w: World, ids: set<string>): World {
    w.(sea := SweepDueOp(w.sea, w.now, ids))
  }

  function LatchStep(w: World, id: string): World {
    w.(sea := LatchOp(w.sea, w.now, id).0)
  }

  function FirePlacedStep(w: World, id: string, hash: Hash): World {
    w.(sea := PlacedOp(w.sea, w.now, id, hash))
  }

  function FireFailedStep(w: World, id: string, reason: string): World {
    w.(sea := FireFailedOp(w.sea, w.now, id, reason))
  }

  function Next(env: Env, w: World, s: Step): World {
    match s
    case Tick(ms) => TickStep(w, ms)
    case Create(id, owner, market, kind, expiresAt) => CreateStep(w, id, owner, market, kind, expiresAt)
    case Prepare(id, verdict, ttlSec, debounceSec) => PrepareStep(w, id, verdict, ttlSec, debounceSec)
    case MonitorReady(id, rearmSec) => MonitorStep(w, id, rearmSec)
    case Cancel(id, signature) => CancelStep(env, w, id, signature)
    case LockWallet(id, b) => LockStep(env, w, id, b)
    case MarkExecuting(id, tx, token, reverted) => MarkStep(env, w, id, tx, token, reverted)
    case WatchFill(t, hit) => FillStep(w, t, hit)
    case WatchRevert(tx, _, _, hit) => RevertStep(w, tx, hit)
    case SweepStale(ids, _) => SweepStaleStep(w, ids)
    case SweepDue(ids) => SweepDueStep(w, ids)
    case Latch(id) => LatchStep(w, id)
    case FirePlaced(id, hash) => FirePlacedStep(w, id, hash)
    case FireFailed(id, reason) => FireFailedStep(w, id, reason)
  }

  function Start(now: int): World {
    World(now, Ledger(map[], map[]), [], {}, map[])
  }

  function Run(env: Env, w: World, steps: seq<Step>): World {
    if steps == [] then w else Next(env, Run(env, w, steps[..|steps| - 1]), steps[|steps| - 1])
  }

  predicate Legal(env: Env, w: World, steps: seq<Step>) {
    steps == [] ||
    (Legal(env, w, steps[..|steps| - 1]) && Enabled(Run(env, w, steps[..|steps| - 1]), steps[|steps| - 1]))
  }

  ghost predicate Reachable(env: Env, w: World) {
    exists now, steps :: now > 0 && Legal(env, Start(now), steps) && w == Run(env, Start(now), steps)
  }

  // ---------------------------------------------------------------------------
  // The invariant, row by row
  // ---------------------------------------------------------------------------

  /** Strictly increasing, from above zero. */
  predicate Increasing(s: seq<int>) {
    s == [] ||
    (s[|s| - 1] > (if |s| == 1 then 0 else s[|s| - 2]) && Increasing(s[..|s| - 1]))
  }

  lemma {:induction false} LastIsGreatest(s: seq<int>, e: int)
    requires Increasing(s) && e in s
    ensures 0 < e <= s[|s| - 1]
    ensures e in s[..|s| - 1] ==> e < s[|s| - 1]
  {
    if |s| > 1 {
      if e in s[..|s| - 1] {
        LastIsGreatest(s[..|s| - 1], e);
      } else {
        LastIsGreatest(s[..|s| - 1], s[|s| - 2]);
      }
    }
  }

  /** A market intent is never fired, a limit intent never waits for a wallet. */
  predicate KindFits(x: Intent) {
    if x.kind == CL then x.status != READY && x.status != EXECUTING && x.status != EXECUTED
    else x.status != TRIGGERED && x.status != PLACED
  }

  predicate TxFits(trades: Trades, x: Intent) {
    && (x.linkedTxHash.Some? ==> PastReady(x.status))
    && (x.status == EXECUTING ==> x.linkedTxHash.Some?)
    && (x.status == EXECUTED ==> x.linkedTxHash.Some? && Traded(trades, x.linkedTxHash.value, x.market, x.owner))
  }

  /** READY rows are in their latest epoch; ACTIVE rows have left every epoch behind. */
  predicate EpochFits(now: int, epochs: seq<int>, x: Intent) {
    && Increasing(epochs)
    && (epochs != [] ==> epochs[|epochs| - 1] <= now)
    && (x.status == READY ==> epochs != [] && x.preparedQuoteAt == Some(epochs[|epochs| - 1]))
    && (x.status == ACTIVE && epochs != [] ==> epochs[|epochs| - 1] < now)
  }

  predicate MintedFor(minted: set<Mint>, id: string, owner: Address, lock: int, epoch: int) {
    exists m :: m in minted && m.id == id && m.owner == owner && m.lockUntil == lock && m.epoch == epoch
  }

  /** A stored lock never outlasts the intent; in READY it was taken in the current epoch unless its
      grace was already over when the epoch began. */
  predicate LockFits(now: int, minted: set<Mint>, id: string, x: Intent) {
    x.walletLockUntilAt.Some? ==>
      var l := x.walletLockUntilAt.value;
      && l <= x.expiresAt
      && (x.status == ACTIVE ==> l + MARK_GRACE_MS <= now)
      && (x.status == READY && x.preparedQuoteAt.Some? ==>
            l + MARK_GRACE_MS <= x.preparedQuoteAt.value || MintedFor(minted, id, x.owner, l, x.preparedQuoteAt.value))
  }

  function StatusAfter(e: Event): IntentStatus {
    match e
    case Created => DRAFT
    case Activated => ACTIVE
    case Ready => READY
    case Executing => EXECUTING
    case Placed => PLACED
    case Executed => EXECUTED
    case Cancelled => CANCELLED
    case Expired => EXPIRED
    case Failed => FAILED
    case Progress => ACTIVE
  }

  /** The status a reader of the log arrives at. */
  function Replay(events: seq<Event>): IntentStatus
    requires events != []
  {
    StatusAfter(events[|events| - 1])
  }

  /** The latch leaves no event, so a fired row still reads as active. */
  predicate LogFits(events: seq<Event>, x: Intent) {
    events != [] && Replay(events) == if x.status == TRIGGERED then ACTIVE else x.status
  }

  predicate RowFits(w: World, id: string, x: Intent) {
    && BarFree(id) && BarFree(x.owner)
    && KindFits(x)
    && TxFits(w.trades, x)
    && EpochFits(w.now, EpochsOf(w, id), x)
    && LockFits(w.now, w.minted, id, x)
    && LogFits(History(w.sea.log, id), x)
  }

  /** One row rewritten and its events appended. */
  function Updated(w: World, id: string, x: Intent, events: seq<Event>): World {
    w.(sea := Ledger(w.sea.rows[id := x], Append(w.sea.log, id, events)))
  }

  /** Every token was issued to the intent's owner, in one of its epochs, on the owner's signature
      over exactly that epoch's nonce and that lock end. */
  predicate MintFits(env: Env, w: World, m: Mint) {
    && m.id in w.sea.rows && w.sea.rows[m.id].owner == m.owner
    && m.epoch in EpochsOf(w, m.id)
    && m.lockUntil <= w.sea.rows[m.id].expiresAt
    && env.parse(m.until) == Some(m.lockUntil)
    && SignedBy(env, WalletLockMessage(env, m.id, m.owner, IssueLockNonce(env, m.id, m.owner, m.epoch), m.until),
                m.signature, m.owner)
  }

  predicate Inv(env: Env, w: World) {
    match w
    case World(now, sea, _, minted, epochs) =>
      && now > 0
      && sea.log.Keys == sea.rows.Keys && epochs.Keys <= sea.rows.Keys
      && (forall id :: id in sea.rows ==> RowFits(w, id, sea.rows[id]))
      && (forall m :: m in minted ==> MintFits(env, w, m))
  }

  /** Nothing a step may do to the surroundings of a row it leaves alone disturbs that row. */
  predicate Advanced(w: World, w': World, touched: set<string>) {
    && w.now <= w'.now && w.trades <= w'.trades && w.minted <= w'.minted
    && w'.sea.log.Keys == w'.sea.rows.Keys && w'.epochs.Keys <= w'.sea.rows.Keys
    && w.sea.rows.Keys <= w'.sea.rows.Keys && w'.sea.rows.Keys <= w.sea.rows.Keys + touched
    && (forall id :: id in w.sea.rows ==> w'.sea.rows[id].owner == w.sea.rows[id].owner
                                          && w'.sea.rows[id].expiresAt == w.sea.rows[id].expiresAt
                                          && EpochsOf(w, id) <= EpochsOf(w', id))
    && (forall id :: id in w.sea.rows && id !in touched ==>
          w'.sea.rows[id] == w.sea.rows[id] && History(w'.sea.log, id) == History(w.sea.log, id)
          && EpochsOf(w', id) == EpochsOf(w, id))
  }

  lemma TradesOnlyGrow(trades: Trades, trades': Trades, tx: TxHash, market: Symbol, owner: Address)
    requires trades <= trades' && Traded(trades, tx, market, owner)
    ensures Traded(trades', tx, market, owner)
  {
    var t :| t in trades && Desk.Concerns(t, tx, market, owner);
    assert t in trades';
  }

  lemma Untouched(w: World, w': World, touched: set<string>, id: string)
    requires Advanced(w, w', touched) && id in w.sea.rows && id !in touched && RowFits(w, id, w.sea.rows[id])
    ensures RowFits(w', id, w'.sea.rows[id])
  {
    var x := w.sea.rows[id];
    if x.status == EXECUTED {
      TradesOnlyGrow(w.trades, w'.trades, x.linkedTxHash.value, x.market, x.owner);
    }
  }

  lemma KeepInv(env: Env, w: World, w': World, touched: set<string>)
    requires Inv(env, w) && Advanced(w, w', touched)
    requires forall id :: id in touched && id in w'.sea.rows ==> RowFits(w', id, w'.sea.rows[id])
    requires forall m :: m in w'.minted && m !in w.minted ==> MintFits(env, w', m)
    ensures Inv(env, w')
  {
    forall id | id in w'.sea.rows ensures RowFits(w', id, w'.sea.rows[id]) {
      if id !in touched {
        Untouched(w, w', touched, id);
      }
    }
    forall m | m in w'.minted ensures MintFits(env, w', m) {
      if m in w.minted {
        assert MintFits(env, w, m);
        assert EpochsOf(w, m.id) <= EpochsOf(w', m.id);
      }
    }
  }

  lemma UpdateAdvances(w: World, id: string, x: Intent, events: seq<Event>)
    requires id in w.sea.rows && w.sea.log.Keys == w.sea.rows.Keys && w.epochs.Keys <= w.sea.rows.Keys
    requires x.owner == w.sea.rows[id].owner && x.expiresAt == w.sea.rows[id].expiresAt
    ensures Advanced(w, Updated(w, id, x, events), {id})
  {
  }

  lemma UpdateKeepsInv(env: Env, w: World, id: string, x: Intent, events: seq<Event>)
    requires Inv(env, w) && id in w.sea.rows
    requires x.owner == w.sea.rows[id].owner && x.expiresAt == w.sea.rows[id].expiresAt
    requires KindFits(x) && TxFits(w.trades, x) && EpochFits(w.now, EpochsOf(w, id), x)
    requires LockFits(w.now, w.minted, id, x) && LogFits(History(w.sea.log, id) + events, x)
    ensures Inv(env, Updated(w, id, x, events))
  {
    UpdateAdvances(w, id, x, events);
    UpdatedRowFits(env, w, id, x, events);
    KeepInv(env, w, Updated(w, id, x, events), {id});
  }

  lemma UpdatedRowFits(env: Env, w: World, id: string, x: Intent, events: seq<Event>)
    requires BarFree(id) && BarFree(x.owner)
    requires KindFits(x) && TxFits(w.trades, x) && EpochFits(w.now, EpochsOf(w, id), x)
    requires LockFits(w.now, w.minted, id, x) && LogFits(History(w.sea.log, id) + events, x)
    ensures RowFits(Updated(w, id, x, events), id, x)
  {
    assert History(Updated(w, id, x, events).sea.log, id) == History(w.sea.log, id) + events;
  }

  lemma AppendNothing(w: World, id: string, x: Intent)
    requires id in w.sea.log
    ensures Updated(w, id, x, []) == w.(sea := w.sea.(rows := w.sea.rows[id := x]))
  {
    assert History(w.sea.log, id) + [] == History(w.sea.log, id);
    assert Append(w.sea.log, id, []) == w.sea.log;
  }
}
