/** What each service call does to the intents and their event log, clock reading given.
    Models apps/api/src/sea/intent.service.ts, intent-monitor.service.ts, cmr-prepare.service.ts,
    intent-fire.service.ts, the two sweepers and the intent part of
    apps/api/src/onchain/fill-watcher.service.ts. */
module Sea {
  import opened Prelude
  import opened Intents
  import opened Tokens
  import Desk

  type Trades = seq<Desk.Trade>

  datatype Event = Created | Activated | Ready | Executing | Placed | Executed | Cancelled | Expired | Failed | Progress

  type Log = map<string, seq<Event>>

  /** Intent rows beside the append-only event log. */
  datatype Ledger = Ledger(rows: Rows, log: Log)

  const MARK_GRACE_MS: int := 45000
  const LOCK_SKEW_SEC: int := 10

  function History(log: Log, id: string): seq<Event> {
    if id in log then log[id] else []
  }

  function Append(log: Log, id: string, events: seq<Event>): Log {
    log[id := History(log, id) + events]
  }

  /** Append only when the guarded update went through. */
  function Noted(w: Ledger, id: string, update: (Rows, bool), events: seq<Event>): Ledger {
    if update.1 then Ledger(update.0, Append(w.log, id, events)) else w.(rows := update.0)
  }

  function NotedAll(w: Ledger, rows: Rows, ids: set<string>, e: Event): Ledger {
    Ledger(rows, map id | id in w.log.Keys + ids :: if id in ids then History(w.log, id) + [e] else w.log[id])
  }

  /** A fill by this owner in this market under this transaction is on record. */
  predicate Traded(trades: Trades, tx: TxHash, market: Symbol, owner: Address) {
    exists t :: t in trades && Desk.Concerns(t, tx, market, owner)
  }

  function ReadTtlSec(ttlSec: Option<int>): int {
    if ttlSec.Some? && ttlSec.value > 0 then Min(300, Max(5, ttlSec.value)) else 60
  }

  predicate TtlOver(x: Intent, now: int)
    requires x.preparedQuoteAt.Some?
  {
    now > x.preparedQuoteAt.value + ReadTtlSec(x.ttlSec) * 1000
  }

  // ---------------------------------------------------------------------------
  // Creation and cancellation
  // ---------------------------------------------------------------------------

  function CreateOp(w: Ledger, now: int, id: string, x: Intent): Ledger {
    Ledger(w.rows[id := x], Append(w.log, id, [Created, Activated]))
  }

  predicate SignedBy(env: Env, message: string, signature: string, owner: Address) {
    env.devSkip || env.recover(message, signature) == Some(owner)
  }

  predicate Cancellable(s: IntentStatus) {
    s == DRAFT || s == ACTIVE || s == READY
  }

  function CancelOp(env: Env, w: Ledger, now: int, id: string, signature: string): (Ledger, Outcome<Intent>) {
    if id !in w.rows then (w, Fail("intent_not_found"))
    else if !SignedBy(env, CancelMessage(env, id, w.rows[id].owner), signature, w.rows[id].owner) then
      (w, Fail("cancel_auth_failed"))
    else if !Cancellable(w.rows[id].status) then (w, Fail("cannot_cancel_status"))
    else
      var update := TransitionStatus(w.rows, id, w.rows[id].status, CANCELLED, Some("user_cancel"), now);
      (Noted(w, id, update, [Cancelled]), Ok(update.0[id]))
  }

  // ---------------------------------------------------------------------------
  // Wallet lock
  // ---------------------------------------------------------------------------

  datatype LockBody = LockBody(lockNonce: string, until: string, signature: string)

  datatype LockReply = LockReply(until: string, token: string)

  /** The lock end that fresh-quote proposes. */
  function LockProposal(env: Env, now: int, x: Intent): int {
    Min(now + env.lockSecs * 1000, x.expiresAt)
  }

  predicate LockInBounds(env: Env, now: int, x: Intent, until: int) {
    now < until <= x.expiresAt && until <= now + (env.lockSecs + LOCK_SKEW_SEC) * 1000
  }

  /** The checks before the lock itself is looked at. */
  function LockRefusal(env: Env, now: int, id: string, x: Intent, b: LockBody): Option<string> {
    if x.status != READY || x.kind != CMR then Some("cannot_lock_status")
    else if now >= x.expiresAt then Some("intent_expired")
    else if x.preparedQuoteAt.None? then Some("not_ready_no_snapshot")
    else if TtlOver(x, now) then Some("ready_ttl_expired")
    else if !VerifyLockNonce(env, b.lockNonce, id, x.owner, x.preparedQuoteAt.value) then Some("lock_nonce_mismatch")
    else if env.parse(b.until).None? || !LockInBounds(env, now, x, env.parse(b.until).value) then
      Some("wallet_lock_until_mismatch")
    else None
  }

  predicate LockLive(x: Intent, now: int) {
    x.walletLockUntilAt.Some? && x.walletLockUntilAt.value > now
  }

  function LockWalletOp(env: Env, w: Ledger, now: int, id: string, b: LockBody): (Ledger, Outcome<LockReply>) {
    if id !in w.rows then (w, Fail("intent_not_found"))
    else
      var x := w.rows[id];
      var refusal := LockRefusal(env, now, id, x, b);
      if refusal.Some? then (w, Fail(refusal.value))
      else if LockLive(x, now) then
        var stored := x.walletLockUntilAt.value;
        if b.until != env.iso(stored) then (w, Fail("wallet_lock_until_mismatch"))
        else (w, Ok(LockReply(env.iso(stored), IssueExecutionToken(env, id, x.owner, stored, b.lockNonce))))
      else if !SignedBy(env, WalletLockMessage(env, id, x.owner, b.lockNonce, b.until), b.signature, x.owner) then
        (w, Fail("wallet_lock_auth_failed"))
      else
        var until := env.parse(b.until).value;
        (w.(rows := LockWalletFromReady(w.rows, id, x.preparedQuoteAt.value, until, now).0),
         Ok(LockReply(env.iso(until), IssueExecutionToken(env, id, x.owner, until, b.lockNonce))))
  }

  // ---------------------------------------------------------------------------
  // Executing marker
  // ---------------------------------------------------------------------------

  predicate PastReady(s: IntentStatus) {
    s == EXECUTING || s == EXECUTED || s == FAILED
  }

  /** Why a READY row refuses a marker. */
  function MarkRefusal(env: Env, now: int, id: string, x: Intent, token: string): Option<string> {
    if x.walletLockUntilAt.None? || x.preparedQuoteAt.None? then Some("wallet_lock_expired")
    else if now > x.walletLockUntilAt.value + MARK_GRACE_MS then Some("wallet_lock_expired")
    else if !VerifyExecutionToken(env, token, id, x.owner, x.walletLockUntilAt.value,
                                  IssueLockNonce(env, id, x.owner, x.preparedQuoteAt.value)) then
      Some("invalid_execution_token")
    else None
  }

  /** The three ways an accepted marker can go: the fill is already on record, the receipt already
      shows a revert, or neither yet. */
  function MarkAccepted(w: Ledger, trades: Trades, now: int, id: string, tx: TxHash, reverted: bool): Ledger
    requires id in w.rows
  {
    if Traded(trades, tx, w.rows[id].market, w.rows[id].owner) then
      Noted(w, id, LeaveReady(w.rows, id, EXECUTED, tx, None, now), [Executing, Executed])
    else if reverted then
      Noted(w, id, LeaveReady(w.rows, id, FAILED, tx, Some("tx_reverted_at_marker"), now), [Failed])
    else Noted(w, id, LeaveReady(w.rows, id, EXECUTING, tx, None, now), [Executing])
  }

  function MarkExecutingOp(env: Env, w: Ledger, trades: Trades, now: int, id: string, tx: TxHash, token: string, reverted: bool)
    : (Ledger, Outcome<Intent>)
  {
    if id !in w.rows then (w, Fail("intent_not_found"))
    else
      var x := w.rows[id];
      if PastReady(x.status) then
        (w, if x.linkedTxHash == Some(tx) then Ok(x) else Fail("executing_tx_hash_conflict"))
      else if x.status != READY then (w, Fail("cannot_mark_executing_status"))
      else
        match MarkRefusal(env, now, id, x, token)
        case Some(code) => (w, Fail(code))
        case None =>
          var w' := MarkAccepted(w, trades, now, id, tx, reverted);
          (w', Ok(w'.rows[id]))
  }

  // ---------------------------------------------------------------------------
  // Monitor, preparation, firing
  // ---------------------------------------------------------------------------

  predicate LockShields(x: Intent, now: int) {
    x.walletLockUntilAt.Some? && x.walletLockUntilAt.value + MARK_GRACE_MS > now
  }

  /** One READY row of the monitor's tick. */
  function MonitorReadyOp(w: Ledger, now: int, rearmSec: nat, id: string): Ledger {
    if !At(w.rows, id, READY) || w.rows[id].kind != CMR then w
    else
      var x := w.rows[id];
      if now > x.expiresAt then
        Noted(w, id, MarkExpiredFromReady(w.rows, id, "intent_expired_by_ts", now), [Expired])
      else if LockShields(x, now) then w
      else if x.preparedQuoteAt.None? || x.preparedQuoteAt.value == 0 || TtlOver(x, now) then
        Noted(w, id, RearmFromReady(w.rows, id, now + rearmSec * 1000, now), [Progress])
      else w
  }

  /** What the readiness evaluation found. */
  datatype Verdict = Untriggered | Short | Fillable

  predicate Due(x: Intent, now: int) {
    x.kind == CMR && x.status == ACTIVE && x.expiresAt > now &&
    (x.cooldownUntilAt.None? || x.cooldownUntilAt.value <= now)
  }

  function PrepareOp(w: Ledger, now: int, verdict: Verdict, ttlSec: nat, debounceSec: nat, id: string): Ledger {
    if id !in w.rows || !Due(w.rows[id], now) then w
    else
      match verdict
      case Untriggered => w
      case Short => Noted(w, id, SetActiveCooldown(w.rows, id, now + debounceSec * 1000, now), [Progress])
      case Fillable => Noted(w, id, MarkReady(w.rows, id, ttlSec, now), [Ready])
  }

  /** The latch that makes one fire call the owner of a conditional limit; no event is appended. */
  function LatchOp(w: Ledger, now: int, id: string): (Ledger, bool) {
    if id in w.rows && w.rows[id].kind == CL && w.rows[id].expiresAt > now then
      var update := TransitionStatus(w.rows, id, ACTIVE, TRIGGERED, None, now);
      (w.(rows := update.0), update.1)
    else (w, false)
  }

  /** Lost updates are recorded all the same. */
  function PlacedOp(w: Ledger, now: int, id: string, hash: Hash): Ledger {
    Ledger(MarkPlaced(w.rows, id, hash, now).0, Append(w.log, id, [Placed]))
  }

  function FireFailedOp(w: Ledger, now: int, id: string, reason: string): Ledger {
    Ledger(TransitionStatus(w.rows, id, TRIGGERED, FAILED, Some(reason), now).0, Append(w.log, id, [Failed]))
  }

  // ---------------------------------------------------------------------------
  // Watcher and sweepers
  // ---------------------------------------------------------------------------

  /** `hit` answers the lookup of a row waiting on the transaction. */
  predicate Found(rows: Rows, hit: Option<string>, tx: TxHash, market: Symbol, owner: Address) {
    match hit
    case Some(id) => Awaits(rows, id, tx, market, owner)
    case None => forall id :: id in rows ==> !Awaits(rows, id, tx, market, owner)
  }

  function CloseOp(w: Ledger, now: int, tx: TxHash, hit: Option<string>): Ledger {
    match hit
    case Some(id) => Noted(w, id, LeaveExecuting(w.rows, id, EXECUTED, tx, None, now), [Executed])
    case None => w
  }

  function RevertOp(w: Ledger, now: int, tx: TxHash, hit: Option<string>): Ledger {
    match hit
    case Some(id) => Noted(w, id, LeaveExecuting(w.rows, id, FAILED, tx, Some("tx_reverted"), now), [Failed])
    case None => w
  }

  function SweepStaleOp(w: Ledger, now: int, ids: set<string>): Ledger {
    NotedAll(w, Swept(w.rows, ids, FAILED, "stale_pending", now), ids, Failed)
  }

  function SweepDueOp(w: Ledger, now: int, ids: set<string>): Ledger {
    NotedAll(w, Swept(w.rows, ids, EXPIRED, "intent_expired_by_ts", now), ids, Expired)
  }
}
