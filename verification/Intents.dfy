/** Intent rows and every guarded update on them. Each update names the status it starts from, so
    of two racing writers at most one succeeds.
    Models apps/api/src/sea/intent.repository.ts. */
module Intents {
  import opened Prelude

  /** Conditional limit, or conditional market that waits for the user. */
  datatype Kind = CL | CMR

  datatype IntentStatus = DRAFT | ACTIVE | TRIGGERED | READY | EXECUTING
                        | PLACED | EXECUTED | CANCELLED | EXPIRED | REJECTED | FAILED

  /** Times are in milliseconds. `ttlSec` is what the prepared snapshot carries. */
  datatype Intent = Intent(owner: Address, market: Symbol, kind: Kind, status: IntentStatus, expiresAt: int,
                           ttlSec: Option<int>, preparedQuoteAt: Option<int>, cooldownUntilAt: Option<int>,
                           walletLockUntilAt: Option<int>, linkedTxHash: Option<TxHash>,
                           linkedOrderHash: Option<Hash>, failureReason: Option<string>, updatedAt: int)

  type Rows = map<string, Intent>

  predicate Terminal(s: IntentStatus) {
    s == PLACED || s == EXECUTED || s == CANCELLED || s == EXPIRED || s == REJECTED || s == FAILED
  }

  predicate At(rows: Rows, id: string, s: IntentStatus) {
    id in rows && rows[id].status == s
  }

  function NewIntent(owner: Address, market: Symbol, kind: Kind, expiresAt: int, now: int): Intent {
    Intent(owner, market, kind, ACTIVE, expiresAt, None, None, None, None, None, None, None, now)
  }

  // ---------------------------------------------------------------------------
  // Guarded updates: the new rows and whether one was updated
  // ---------------------------------------------------------------------------

  function LockWalletFromReady(rows: Rows, id: string, preparedQuoteAt: int, until: int, now: int): (Rows, bool) {
    if At(rows, id, READY) && rows[id].preparedQuoteAt == Some(preparedQuoteAt) then
      (rows[id := rows[id].(walletLockUntilAt := Some(until), updatedAt := now)], true)
    else (rows, false)
  }

  /** READY to EXECUTED, FAILED or EXECUTING, recording the transaction. */
  function LeaveReady(rows: Rows, id: string, to: IntentStatus, tx: TxHash, reason: Option<string>, now: int): (Rows, bool) {
    if At(rows, id, READY) then
      (rows[id := rows[id].(status := to, linkedTxHash := Some(tx), updatedAt := now,
                            failureReason := if reason.Some? then reason else rows[id].failureReason)], true)
    else (rows, false)
  }

  /** EXECUTING to EXECUTED or FAILED, for the transaction it is waiting on. */
  function LeaveExecuting(rows: Rows, id: string, to: IntentStatus, tx: TxHash, reason: Option<string>, now: int): (Rows, bool) {
    if At(rows, id, EXECUTING) && rows[id].linkedTxHash == Some(tx) then
      (rows[id := rows[id].(status := to, updatedAt := now,
                            failureReason := if reason.Some? then reason else rows[id].failureReason)], true)
    else (rows, false)
  }

  function MarkReady(rows: Rows, id: string, ttlSec: int, at: int): (Rows, bool) {
    if At(rows, id, ACTIVE) then
      (rows[id := rows[id].(status := READY, ttlSec := Some(ttlSec), preparedQuoteAt := Some(at), updatedAt := at)], true)
    else (rows, false)
  }

  /** The lock end is left as it was. */
  function RearmFromReady(rows: Rows, id: string, cooldownUntil: int, now: int): (Rows, bool) {
    if At(rows, id, READY) then
      (rows[id := rows[id].(status := ACTIVE, ttlSec := None, preparedQuoteAt := None,
                            cooldownUntilAt := Some(cooldownUntil), updatedAt := now)], true)
    else (rows, false)
  }

  function MarkExpiredFromReady(rows: Rows, id: string, reason: string, now: int): (Rows, bool) {
    if At(rows, id, READY) then
      (rows[id := rows[id].(status := EXPIRED, ttlSec := None, preparedQuoteAt := None,
                            failureReason := Some(reason), updatedAt := now)], true)
    else (rows, false)
  }

  function SetActiveCooldown(rows: Rows, id: string, until: int, now: int): (Rows, bool) {
    if At(rows, id, ACTIVE) then
      (rows[id := rows[id].(cooldownUntilAt := Some(until), updatedAt := now)], true)
    else (rows, false)
  }

  function MarkPlaced(rows: Rows, id: string, hash: Hash, now: int): (Rows, bool) {
    if At(rows, id, TRIGGERED) then
      (rows[id := rows[id].(status := PLACED, linkedOrderHash := Some(hash), updatedAt := now)], true)
    else (rows, false)
  }

  function TransitionStatus(rows: Rows, id: string, from: IntentStatus, to: IntentStatus, reason: Option<string>, now: int)
    : (Rows, bool)
  {
    if At(rows, id, from) then
      (rows[id := rows[id].(status := to, updatedAt := now,
                            failureReason := if reason.Some? then reason else rows[id].failureReason)], true)
    else (rows, false)
  }

  // ---------------------------------------------------------------------------
  // Sweeps
  // ---------------------------------------------------------------------------

  predicate Stale(x: Intent, cutoff: int) {
    x.status == EXECUTING && x.updatedAt < cutoff
  }

  predicate Overdue(x: Intent, now: int) {
    (x.status == DRAFT || x.status == ACTIVE) && x.expiresAt < now
  }

  function StaleIds(rows: Rows, cutoff: int): set<string> {
    set id | id in rows && Stale(rows[id], cutoff)
  }

  function OverdueIds(rows: Rows, now: int): set<string> {
    set id | id in rows && Overdue(rows[id], now)
  }

  /** The named rows moved to `to` for `reason`, nothing else touched. */
  function Swept(rows: Rows, ids: set<string>, to: IntentStatus, reason: string, now: int): Rows {
    map id | id in rows ::
      if id in ids then rows[id].(status := to, failureReason := Some(reason), updatedAt := now) else rows[id]
  }

  function Elements(s: seq<string>): set<string> {
    set x | x in s
  }

  /** Ascending order of a nullable column, absent values last. */
  predicate NotLater(a: Option<int>, b: Option<int>) {
    b.None? || (a.Some? && a.value <= b.value)
  }

  /** No later row stands before an earlier one, and none left out comes before one taken. */
  predicate Ascending(keys: map<string, Option<int>>, ids: seq<string>)
    requires Elements(ids) <= keys.Keys
  {
    && (forall i, j :: 0 <= i < j < |ids| ==> ids[i] in Elements(ids) && ids[j] in Elements(ids)
                                              && NotLater(keys[ids[i]], keys[ids[j]]))
    && (forall x, y :: x in Elements(ids) && y in keys.Keys - Elements(ids) ==> NotLater(keys[x], keys[y]))
  }

  /** The first `limit` of the keyed rows in ascending order, or all of them if there are fewer; rows
      with equal keys in any order. */
  predicate FirstInOrder(keys: map<string, Option<int>>, limit: nat, ids: seq<string>) {
    Elements(ids) <= keys.Keys && |ids| == |Elements(ids)| == Min(limit, |keys|) && Ascending(keys, ids)
  }

  function StaleSince(rows: Rows, now: int, thresholdMs: int): map<string, Option<int>> {
    map id | id in StaleIds(rows, now - thresholdMs) :: Some(rows[id].updatedAt)
  }

  function OverdueSince(rows: Rows, now: int): map<string, Option<int>> {
    map id | id in OverdueIds(rows, now) :: Some(rows[id].expiresAt)
  }

  /** What a sweep promises: it moves the first `limit` of the due rows in the order of their times,
      reports exactly those in that order, and touches nothing else. */
  predicate SweepDone(was: Rows, rows: Rows, due: map<string, Option<int>>, limit: nat, ids: seq<string>, to: IntentStatus,
                      reason: string, now: int)
  {
    FirstInOrder(due, limit, ids) && rows == Swept(was, Elements(ids), to, reason, now)
  }

  predicate Awaits(rows: Rows, id: string, tx: TxHash, market: Symbol, owner: Address) {
    At(rows, id, EXECUTING) && rows[id].linkedTxHash == Some(tx) && rows[id].market == market && rows[id].owner == owner
  }
}
