/**
 The prepaid send pipeline as a step machine. Every SQL statement or transaction is one atomic step
 on the shared database; what a worker, a synchronous request or the boot recovery has claimed but
 not finished is separate memory that a crash wipes. Steps of different holders interleave freely,
 and every transaction carries a flag saying whether it commits or aborts.
 */
module Pipeline {
  import opened Ledger
  import opened SmsRows

  datatype Config = Config(
    queueMode: bool,                 // SEND_QUEUE_ENABLED, fixed for a run
    ttl: int,                        // SEND_MESSAGE_TTL_S
    backoffBase: int,                // SEND_RETRY_BACKOFF_S
    backoffCap: int,                 // sixty seconds
    stuck: int,                      // SEND_STUCK_S
    opening: map<ClientId, int>,     // client balances before the run
    carriers: map<nat, int>)         // and the carriers' balances

  /** What a claimed row looks like to its holder (QueuedSMS), with the instant of the claim. */
  datatype Claim = Claim(id: MessageId, client: ClientId, charge: int, attempts: nat, expired: bool, claimedAt: int)

  datatype Kind = QueueWorker | SyncRequest | BootRecovery

  /** Ready: about to handle the head; Lost: every carrier failed; Won: a carrier accepted;
      Forcing: a carrier accepted and the billing transaction aborted. */
  datatype Phase = Ready | Lost | Won | Forcing

  /** Rows of one batch are handled one after another: only the head is ever in progress. */
  datatype Holder = Holder(kind: Kind, batch: seq<Claim>, phase: Phase)

  datatype EventKind = Reserved | ClaimedFresh | Dispatched | CarrierAccepted | Billed | Refunded | Payment

  datatype Event = Event(kind: EventKind, id: MessageId, client: ClientId, amount: int)

  datatype System = System(
    db: Db,
    carriers: map<nat, CarrierAccount>,
    holders: map<nat, Holder>,
    now: int,
    booting: bool,                   // the boot recovery has not listed its rows yet
    hist: seq<Event>)

  datatype Step =
    | Tick(elapsed: nat)
    | Pay(c: ClientId, amount: int)
    | Enqueue(c: ClientId, charge: int, dlr: bool)
    | SyncReserve(w: nat, c: ClientId, charge: int, dlr: bool)
    | TakeBatch(w: nat, ids: seq<MessageId>)
    | Dispatch(w: nat, accepted: bool)
    | Undeliver(w: nat, commit: bool)
    | Requeue(w: nat, readAt: int, ok: bool)
    | SyncFail(w: nat, refund: bool, commit: bool)
    | Bill(w: nat, carrier: nat, cost: int, segments: nat, commit: bool)
    | Force(w: nat, carrier: nat, ok: bool)
    | StopWorker(w: nat)
    | Crash
    | Reap
    | ListStuck(w: nat)
    | Receipt(m: MessageId, d: Dlr)
    | AgeOut(m: MessageId)

  // retryBackoff: base * attempts, at least base, at most the cap.
  function RetryBackoff(cfg: Config, attempts: nat): int {
    var d := cfg.backoffBase * attempts;
    var floored := if d < cfg.backoffBase then cfg.backoffBase else d;
    if floored > cfg.backoffCap then cfg.backoffCap else floored
  }

  function ClaimOf(r: Row, m: MessageId, now: int): Claim {
    Claim(m, r.client, r.charge, r.attempts + 1, IsExpired(r, now), now)
  }

  predicate Distinct(ids: seq<MessageId>) {
    forall i, j :: 0 <= i < j < |ids| ==> ids[i] != ids[j]
  }

  function ClaimsFor(rows: seq<Row>, ids: seq<MessageId>, now: int): (cs: seq<Claim>)
    requires forall i :: 0 <= i < |ids| ==> ids[i] < |rows|
    ensures |cs| == |ids|
  {
    seq(|ids|, i requires 0 <= i < |ids| => ClaimOf(rows[ids[i]], ids[i], now))
  }

  function FreshEvents(rows: seq<Row>, ids: seq<MessageId>, now: int): seq<Event>
    requires forall i :: 0 <= i < |ids| ==> ids[i] < |rows|
  {
    if ids == [] then []
    else
      var n := |ids| - 1;
      var front := FreshEvents(rows, ids[..n], now);
      if IsExpired(rows[ids[n]], now) then front else front + [Event(ClaimedFresh, ids[n], rows[ids[n]].client, 0)]
  }

  /** Ids of the rows still 'sending', in table order: the boot recovery's worklist. */
  function SendingIds(rows: seq<Row>): (ids: seq<MessageId>)
    ensures forall i :: 0 <= i < |ids| ==> ids[i] < |rows| && rows[ids[i]].status == Sending
    ensures Distinct(ids)
    ensures forall m :: 0 <= m < |rows| && rows[m].status == Sending ==> m in ids
  {
    if rows == [] then []
    else
      var n := |rows| - 1;
      var front := SendingIds(rows[..n]);
      if rows[n].status == Sending then front + [n] else front
  }

  /** The list statement only reads, so the claim carries the row as it stands. */
  function RecoveryClaims(rows: seq<Row>, ids: seq<MessageId>, now: int): (cs: seq<Claim>)
    requires forall i :: 0 <= i < |ids| ==> ids[i] < |rows|
    ensures |cs| == |ids|
  {
    seq(|ids|, i requires 0 <= i < |ids| =>
      Claim(ids[i], rows[ids[i]].client, rows[ids[i]].charge, rows[ids[i]].attempts, false, now))
  }

  function RecoveryHolder(s: System): Holder {
    Holder(BootRecovery, RecoveryClaims(s.db.rows, SendingIds(s.db.rows), s.now), Ready)
  }

  function Stored(s: System): Shared { Shared(s.db, s.carriers) }

  predicate Working(s: System, w: nat) { w in s.holders && s.holders[w].batch != [] }

  function Head(s: System, w: nat): Claim
    requires Working(s, w)
  {
    s.holders[w].batch[0]
  }

  predicate At(s: System, w: nat, p: Phase) { Working(s, w) && s.holders[w].phase == p }

  function Turn(s: System, w: nat, p: Phase): System
    requires w in s.holders
  {
    s.(holders := s.holders[w := s.holders[w].(phase := p)])
  }

  /** The holder is done with its head, whatever came of it. */
  function Next(s: System, w: nat): System
    requires Working(s, w)
  {
    s.(holders := s.holders[w := s.holders[w].(batch := s.holders[w].batch[1..], phase := Ready)])
  }

  /** The carrier is charged and the head's row accepted, in one transaction. */
  function BillHead(s: System, w: nat, carrier: nat, cost: int, segments: nat): System
    requires Working(s, w) && carrier in s.carriers && ChargeCarrier(s.carriers[carrier], cost, segments).Some?
  {
    s.(db := s.db.(rows := UpdateAt(s.db.rows, Head(s, w).id, (x: Row) => AcceptRow(x, carrier))),
       carriers := s.carriers[carrier := ChargeCarrier(s.carriers[carrier], cost, segments).value])
  }

  function Record(s: System, e: Event): System { s.(hist := s.hist + [e]) }

  function Note(kind: EventKind, q: Claim, amount: int): Event { Event(kind, q.id, q.client, amount) }

  /** No holder of this number, or one that has finished its batch. */
  predicate Free(s: System, w: nat) { !Working(s, w) }

  predicate Enabled(cfg: Config, s: System, step: Step) {
    match step
    case Tick(_) => true
    case Pay(c, amount) => CreditTx(s.db, c, amount).Some?
    case Enqueue(c, charge, dlr) =>
      cfg.queueMode && ReserveTx(s.db, c, charge, QueuedRow(c, charge, dlr, cfg.ttl, s.now)).Some?
    case SyncReserve(w, c, charge, dlr) =>
      !cfg.queueMode && Free(s, w) && ReserveTx(s.db, c, charge, SendingRow(c, charge, dlr, cfg.ttl, s.now)).Some?
    case TakeBatch(w, ids) =>
      && cfg.queueMode && Free(s, w) && Distinct(ids)
      && forall i :: 0 <= i < |ids| ==> ids[i] < |s.db.rows| && IsDue(s.db.rows[ids[i]], s.now)
    case Dispatch(w, _) => At(s, w, Ready) && s.holders[w].kind != BootRecovery && !Head(s, w).expired
    case Undeliver(w, commit) =>
      && At(s, w, Ready) && s.holders[w].kind != SyncRequest
      && (commit ==> UndeliverTx(s.db, Head(s, w).id, Head(s, w).client, Head(s, w).charge).Some?)
    case Requeue(w, readAt, _) =>
      At(s, w, Lost) && s.holders[w].kind == QueueWorker && Head(s, w).claimedAt <= readAt <= s.now
    case SyncFail(w, refund, commit) =>
      && At(s, w, Lost) && s.holders[w].kind == SyncRequest
      && (commit ==> FailTx(s.db, Head(s, w).id, Head(s, w).client, Head(s, w).charge, refund).Some?)
    case Bill(w, carrier, cost, segments, commit) =>
      && At(s, w, Won)
      && (commit ==> carrier in s.carriers && ChargeCarrier(s.carriers[carrier], cost, segments).Some?)
    case Force(w, _, _) => At(s, w, Forcing)
    case StopWorker(w) => At(s, w, Ready) && s.holders[w].kind == QueueWorker
    case Crash => true
    case Reap => cfg.queueMode
    case ListStuck(w) => !cfg.queueMode && s.booting && Free(s, w)
    case Receipt(_, _) => true
    case AgeOut(m) => m < |s.db.rows| && s.db.rows[m].dlrRequested   // the sweep lists no other
  }

  function Apply(cfg: Config, s: System, step: Step): System
    requires Enabled(cfg, s, step)
  {
    match step
    case Tick(elapsed) => s.(now := s.now + elapsed)
    case Pay(c, amount) =>
      Record(s.(db := CreditTx(s.db, c, amount).value), Event(Payment, 0, c, amount))
    case Enqueue(c, charge, dlr) =>
      Record(s.(db := ReserveTx(s.db, c, charge, QueuedRow(c, charge, dlr, cfg.ttl, s.now)).value),
             Event(Reserved, |s.db.rows|, c, charge))
    case SyncReserve(w, c, charge, dlr) =>
      var row := SendingRow(c, charge, dlr, cfg.ttl, s.now);
      var q := Claim(|s.db.rows|, c, charge, 0, false, s.now);
      Record(s.(db := ReserveTx(s.db, c, charge, row).value,
                holders := s.holders[w := Holder(SyncRequest, [q], Ready)]),
             Event(Reserved, |s.db.rows|, c, charge))
    case TakeBatch(w, ids) =>
      s.(db := s.db.(rows := ClaimRows(s.db.rows, ids, s.now)),
         holders := s.holders[w := Holder(QueueWorker, ClaimsFor(s.db.rows, ids, s.now), Ready)],
         hist := s.hist + FreshEvents(s.db.rows, ids, s.now))
    case Dispatch(w, accepted) =>
      var q := Head(s, w);
      var sent := Record(s, Note(Dispatched, q, 0));
      if accepted then Turn(Record(sent, Note(CarrierAccepted, q, 0)), w, Won) else Turn(sent, w, Lost)
    case Undeliver(w, commit) =>
      var q := Head(s, w);
      if !commit then Next(s, w)
      else Record(Next(s.(db := UndeliverTx(s.db, q.id, q.client, q.charge).value), w), Note(Refunded, q, q.charge))
    case Requeue(w, readAt, ok) =>
      var q := Head(s, w);
      if !ok then Next(s, w)
      else
        var next := readAt + RetryBackoff(cfg, q.attempts);
        Next(s.(db := s.db.(rows := UpdateAt(s.db.rows, q.id, (x: Row) => RequeueRow(x, next)))), w)
    case SyncFail(w, refund, commit) =>
      var q := Head(s, w);
      if !commit then Next(s, w)
      else
        var t := Next(s.(db := FailTx(s.db, q.id, q.client, q.charge, refund).value), w);
        if refund then Record(t, Note(Refunded, q, q.charge)) else t
    case Bill(w, carrier, cost, segments, commit) =>
      if commit then Record(Next(BillHead(s, w, carrier, cost, segments), w), Note(Billed, Head(s, w), cost))
      else Turn(s, w, Forcing)
    case Force(w, carrier, ok) =>
      var q := Head(s, w);
      if !ok then Next(s, w)
      else Next(s.(db := s.db.(rows := UpdateAt(s.db.rows, q.id, (x: Row) => ForceAcceptRow(x, carrier)))), w)
    case StopWorker(w) => s.(holders := s.holders[w := s.holders[w].(batch := [])])
    case Crash => s.(holders := map[], booting := true)
    case Reap => s.(db := s.db.(rows := ReapRows(s.db.rows, s.now, s.now - cfg.stuck)))
    case ListStuck(w) =>
      s.(booting := false,
         holders := s.holders[w := RecoveryHolder(s)])
    case Receipt(m, d) => s.(db := s.db.(rows := UpdateAt(s.db.rows, m, (x: Row) => ReceiptRow(x, d, s.now))))
    case AgeOut(m) => s.(db := s.db.(rows := UpdateAt(s.db.rows, m, (x: Row) => AgeOutRow(x, s.now))))
  }

  /** The steps that pay a charge back. */
  predicate RefundsHead(step: Step) {
    (step.Undeliver? && step.commit) || (step.SyncFail? && step.commit && step.refund)
  }

  // ---- runs ----

  /** states[k + 1] comes from states[k] by steps[k]. */
  datatype Run = Run(states: seq<System>, steps: seq<Step>)

  ghost predicate Init(cfg: Config, s: System) {
    && s.db.rows == [] && s.holders == map[] && s.hist == [] && s.booting
    && s.db.accounts.Keys == cfg.opening.Keys
    && (forall c :: c in cfg.opening ==> cfg.opening[c] >= 0 && s.db.accounts[c] == Account(cfg.opening[c], []))
    && s.carriers.Keys == cfg.carriers.Keys
    && forall c :: c in cfg.carriers ==> s.carriers[c] == CarrierAccount(cfg.carriers[c], [], 0, 0, 0)
  }

  ghost predicate IsRun(cfg: Config, r: Run) {
    && |r.states| == |r.steps| + 1
    && Init(cfg, r.states[0])
    && forall k :: 0 <= k < |r.steps| ==>
         Enabled(cfg, r.states[k], r.steps[k]) && r.states[k + 1] == Apply(cfg, r.states[k], r.steps[k])
  }

  // ---- named hypotheses ----

  /** Every claimed row is finished before `stuck` has elapsed since its claim. */
  ghost predicate LeaseAt(cfg: Config, s: System) {
    forall w, i :: w in s.holders && 0 <= i < |s.holders[w].batch| && s.holders[w].kind == QueueWorker ==>
      s.now <= s.holders[w].batch[i].claimedAt + cfg.stuck
  }

  /** The boot recovery lists its rows while no send is in flight. */
  ghost predicate QuietAt(s: System, step: Step) {
    step.ListStuck? ==> forall w :: w in s.holders ==> s.holders[w].batch == []
  }

  /** After a carrier accepts there is no crash before the exit write, and the exit write succeeds. */
  ghost predicate FinalWriteAt(s: System, step: Step) {
    && (step.Force? ==> step.ok)
    && (step.Crash? ==> forall w :: Working(s, w) ==> s.holders[w].phase == Ready || s.holders[w].phase == Lost)
  }

  ghost predicate Leased(cfg: Config, r: Run) {
    forall k :: 0 <= k < |r.states| ==> LeaseAt(cfg, r.states[k])
  }

  ghost predicate QuietBoot(r: Run) {
    |r.steps| < |r.states| && forall k :: 0 <= k < |r.steps| ==> QuietAt(r.states[k], r.steps[k])
  }

  ghost predicate FinalWrites(r: Run) {
    |r.steps| < |r.states| && forall k :: 0 <= k < |r.steps| ==> FinalWriteAt(r.states[k], r.steps[k])
  }

  // ---- observations on the history ----

  function Count(h: seq<Event>, kind: EventKind, m: MessageId): nat {
    if h == [] then 0
    else Count(h[..|h| - 1], kind, m) + if h[|h| - 1].kind == kind && h[|h| - 1].id == m then 1 else 0
  }

  function Sum(h: seq<Event>, kind: EventKind, c: ClientId): int {
    if h == [] then 0
    else Sum(h[..|h| - 1], kind, c) + if h[|h| - 1].kind == kind && h[|h| - 1].client == c then h[|h| - 1].amount else 0
  }

  lemma CountAppend(h: seq<Event>, e: Event, kind: EventKind, m: MessageId)
    ensures Count(h + [e], kind, m) == Count(h, kind, m) + if e.kind == kind && e.id == m then 1 else 0
  {
    assert (h + [e])[..|h|] == h;
  }

  lemma SumAppend(h: seq<Event>, e: Event, kind: EventKind, c: ClientId)
    ensures Sum(h + [e], kind, c) == Sum(h, kind, c) + if e.kind == kind && e.client == c then e.amount else 0
  {
    assert (h + [e])[..|h|] == h;
  }
}
