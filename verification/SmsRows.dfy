/**
 One row of sms_logs, and the effect of each SQL statement that writes such rows. The functions are
 the statements' meaning; the class in SmsStore.dfy carries them out in place and the step machine
 in Pipeline.dfy interleaves them.
 */
module SmsRows {
  import opened Options
  import opened Ledger

  type ClientId = nat
  type MessageId = nat   // a row's position: rows are inserted and never deleted

  datatype Status = Queued | Sending | Accepted | Delivered | Failed | Rejected | Undelivered

  /** Normalized delivery-receipt statuses; all but Unknown are final. */
  datatype Dlr = DlrDelivered | DlrUndelivered | DlrRejected | DlrUnknown

  datatype Row = Row(
    client: ClientId,
    charge: int,                  // total_charged
    status: Status,
    receivedAt: int,
    claimedAt: Option<int>,
    attempts: nat,
    nextAttemptAt: Option<int>,
    expiresAt: Option<int>,
    dlrRequested: bool,
    dlrStatus: Option<Dlr>,
    dlrReceivedAt: Option<int>,
    carrier: Option<nat>)

  datatype Db = Db(rows: seq<Row>, accounts: map<ClientId, Account>)

  /** All the database holds: messages, client accounts and carrier accounts. */
  datatype Shared = Shared(db: Db, carriers: map<nat, CarrierAccount>)

  predicate InQueue(s: Status) { s == Queued || s == Sending }

  predicate IsFinal(d: Dlr) { d != DlrUnknown }

  predicate HasFinal(r: Row) { r.dlrStatus.Some? && IsFinal(r.dlrStatus.value) }

  // ---- the row each statement leaves behind ----

  function QueuedRow(c: ClientId, charge: int, dlr: bool, ttl: int, now: int): Row {
    Row(c, charge, Queued, now, None, 0, Some(now), Some(now + ttl), dlr, None, None, None)
  }

  function SendingRow(c: ClientId, charge: int, dlr: bool, ttl: int, now: int): Row {
    Row(c, charge, Sending, now, Some(now), 0, None, Some(now + ttl), dlr, None, None, None)
  }

  predicate IsDue(r: Row, now: int) {
    r.status == Queued && (r.nextAttemptAt.None? || r.nextAttemptAt.value <= now)
  }

  predicate IsExpired(r: Row, now: int) { r.expiresAt.Some? && r.expiresAt.value <= now }

  function ClaimRow(r: Row, now: int): Row {
    r.(status := Sending, claimedAt := Some(now), attempts := r.attempts + 1)
  }

  function RequeueRow(r: Row, next: int): Row {
    if r.status == Sending then r.(status := Queued, nextAttemptAt := Some(next), claimedAt := None) else r
  }

  predicate IsStuck(r: Row, olderThan: int) {
    r.status == Sending && (r.claimedAt.None? || r.claimedAt.value < olderThan)
  }

  function ReapRow(r: Row, now: int, olderThan: int): Row {
    if IsStuck(r, olderThan) then r.(status := Queued, nextAttemptAt := Some(now), claimedAt := None) else r
  }

  // MarkSMSUndelivered, MarkSMSFailed and MarkSMSAccepted carry no status guard.
  function UndeliverRow(r: Row): Row { r.(status := Undelivered, claimedAt := None) }

  function FailRow(r: Row): Row { r.(status := Failed) }

  function AcceptRow(r: Row, carrier: nat): Row { r.(status := Accepted, carrier := Some(carrier)) }

  function ForceAcceptRow(r: Row, carrier: nat): Row {
    if r.status == Sending then r.(status := Accepted, carrier := Some(carrier), claimedAt := None) else r
  }

  function ReceiptRow(r: Row, d: Dlr, now: int): Row {
    if HasFinal(r) then r
    else r.(dlrStatus := Some(d), dlrReceivedAt := Some(now),
            status := match d
                      case DlrDelivered => Delivered
                      case DlrUndelivered => Failed
                      case DlrRejected => Rejected
                      case DlrUnknown => r.status)
  }

  /** What a receipt that is applied leaves: its status and time, and the row's status by what it reports. */
  predicate Receipted(was: seq<Row>, now: seq<Row>, m: MessageId, d: Dlr, at: int) {
    && m < |was| == |now|
      && now == was[m := was[m].(dlrStatus := Some(d), dlrReceivedAt := Some(at), status := now[m].status)]
    && (d == DlrDelivered ==> now[m].status == Delivered)
    && (d == DlrUndelivered ==> now[m].status == Failed)
    && (d == DlrRejected ==> now[m].status == Rejected)
    && (d == DlrUnknown ==> now[m].status == was[m].status)
  }

  /** Accepted, a receipt asked for, and received before this time: the sweep's candidates. */
  predicate AgeCandidate(r: Row, olderThan: int) {
    r.status == Accepted && r.dlrRequested && r.receivedAt < olderThan
  }

  predicate AgeOutApplies(r: Row) { r.status == Accepted }

  function AgeOutRow(r: Row, now: int): Row {
    if !AgeOutApplies(r) then r
    else r.(status := Failed, dlrStatus := Some(DlrUndelivered),
            dlrReceivedAt := if r.dlrReceivedAt.Some? then r.dlrReceivedAt else Some(now))
  }

  // ---- whole-table statements ----

  /** UPDATE ... WHERE message_id = m: no row matches an unknown id. */
  function UpdateAt(rows: seq<Row>, m: MessageId, f: Row -> Row): (r: seq<Row>)
    ensures |r| == |rows|
  {
    if m < |rows| then rows[m := f(rows[m])] else rows
  }

  function ClaimRows(rows: seq<Row>, ids: seq<MessageId>, now: int): (r: seq<Row>)
    ensures |r| == |rows|
  {
    seq(|rows|, i requires 0 <= i < |rows| => if i in ids then ClaimRow(rows[i], now) else rows[i])
  }

  function ReapRows(rows: seq<Row>, now: int, olderThan: int): (r: seq<Row>)
    ensures |r| == |rows|
  {
    seq(|rows|, i requires 0 <= i < |rows| => ReapRow(rows[i], now, olderThan))
  }

  // ---- transactions; None means a statement raised and everything rolled back ----

  function ReserveTx(db: Db, c: ClientId, charge: int, row: Row): (r: Option<Db>) {
    if c in db.accounts && Debit(db.accounts[c], charge).Some? then
      Some(Db(db.rows + [row], db.accounts[c := Debit(db.accounts[c], charge).value]))
    else None
  }

  function CreditTx(db: Db, c: ClientId, amount: int): (r: Option<Db>) {
    if c in db.accounts && Credit(db.accounts[c], amount).Some? then
      Some(db.(accounts := db.accounts[c := Credit(db.accounts[c], amount).value]))
    else None
  }

  /** Mark undelivered and refund, as finalizeUndelivered and the boot recovery both do. */
  function UndeliverTx(db: Db, m: MessageId, c: ClientId, amount: int): (r: Option<Db>) {
    CreditTx(db.(rows := UpdateAt(db.rows, m, (x: Row) => UndeliverRow(x))), c, amount)
  }

  /** Mark failed and, when the setting says so, refund: the synchronous failure exit. */
  function FailTx(db: Db, m: MessageId, c: ClientId, amount: int, refund: bool): (r: Option<Db>) {
    var failed := db.(rows := UpdateAt(db.rows, m, (x: Row) => FailRow(x)));
    if refund then CreditTx(failed, c, amount) else Some(failed)
  }
}
