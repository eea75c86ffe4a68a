/**
 Claim exclusivity and refund at most once, over whole runs with crashes, under the lease (queue
 mode) and a quiet boot (synchronous mode).
 */
module Exclusivity {
  import opened Options
  import opened SmsRows
  import opened Pipeline

  predicate HeldAt(s: System, w: nat, i: nat) { w in s.holders && i < |s.holders[w].batch| }

  function ClaimAt(s: System, w: nat, i: nat): Claim
    requires HeldAt(s, w, i)
  {
    s.holders[w].batch[i]
  }

  /** No row is held twice, neither by two holders nor twice by one. */
  ghost predicate Exclusive(s: System) {
    forall w, i, v, j :: HeldAt(s, w, i) && HeldAt(s, v, j) && ClaimAt(s, w, i).id == ClaimAt(s, v, j).id
      ==> w == v && i == j
  }

  /** A held row is out of the queue's reach, still owed to its client, and is as its holder claimed it. */
  ghost predicate ClaimOk(cfg: Config, s: System, q: Claim) {
    && q.id < |s.db.rows|
    && var r := s.db.rows[q.id];
      && r.client == q.client && r.charge == q.charge && r.attempts == q.attempts
      && r.status != Queued
      && (cfg.queueMode && r.status == Sending ==> r.claimedAt == Some(q.claimedAt))
      && Count(s.hist, Refunded, q.id) == 0
  }

  ghost predicate ClaimsOk(cfg: Config, s: System) {
    forall w, i :: HeldAt(s, w, i) ==>
      ClaimOk(cfg, s, ClaimAt(s, w, i)) && (cfg.queueMode <==> s.holders[w].kind == QueueWorker)
  }

  ghost predicate RefundOk(s: System, m: MessageId) {
    if m < |s.db.rows| then
      Count(s.hist, Refunded, m) <= 1 && (Count(s.hist, Refunded, m) == 1 ==> !InQueue(s.db.rows[m].status))
    else Count(s.hist, Refunded, m) == 0
  }

  ghost predicate Safe(cfg: Config, s: System) {
    Exclusive(s) && ClaimsOk(cfg, s) && forall m: MessageId :: RefundOk(s, m)
  }

  /** The reaper meets no held row that is stuck, and the boot recovery sees no held row that is 'sending'. */
  ghost predicate SparesHeld(cfg: Config, s: System, step: Step) {
    forall w, i :: HeldAt(s, w, i) && ClaimAt(s, w, i).id < |s.db.rows| ==>
      var r := s.db.rows[ClaimAt(s, w, i).id];
      && (step.Reap? ==> !IsStuck(r, s.now - cfg.stuck))
      && (step.ListStuck? ==> r.status != Sending)
  }

  // ---- counting what a step adds to the history ----

  function Emits(cfg: Config, s: System, step: Step, kind: EventKind, m: MessageId): nat
    requires Enabled(cfg, s, step)
  {
    match kind
    case Reserved => if (step.Enqueue? || step.SyncReserve?) && m == |s.db.rows| then 1 else 0
    case Payment => if step.Pay? && m == 0 then 1 else 0
    case Refunded => if RefundsHead(step) && Head(s, step.w).id == m then 1 else 0
    case Dispatched => if step.Dispatch? && Head(s, step.w).id == m then 1 else 0
    case CarrierAccepted => if step.Dispatch? && step.accepted && Head(s, step.w).id == m then 1 else 0
    case Billed => if step.Bill? && step.commit && Head(s, step.w).id == m then 1 else 0
    case ClaimedFresh => if step.TakeBatch? && m in step.ids && !IsExpired(s.db.rows[m], s.now) then 1 else 0
  }

  lemma {:induction false} CountFresh(h: seq<Event>, rows: seq<Row>, ids: seq<MessageId>, now: int,
                                      kind: EventKind, m: MessageId)
    requires forall i :: 0 <= i < |ids| ==> ids[i] < |rows|
    requires Distinct(ids)
    ensures Count(h + FreshEvents(rows, ids, now), kind, m)
         == Count(h, kind, m) + if kind == ClaimedFresh && m in ids && !IsExpired(rows[m], now) then 1 else 0
  {
    if ids == [] {
      assert h + [] == h;
    } else {
      var n := |ids| - 1;
      var front := FreshEvents(rows, ids[..n], now);
      CountFresh(h, rows, ids[..n], now, kind, m);
      MemberOfLonger(ids, m);
      if !IsExpired(rows[ids[n]], now) {
        var e := Event(ClaimedFresh, ids[n], rows[ids[n]].client, 0);
        CountAppend(h + front, e, kind, m);
        assert h + (front + [e]) == (h + front) + [e];
      }
    }
  }

  lemma MemberOfLonger(ids: seq<MessageId>, m: MessageId)
    requires ids != [] && Distinct(ids)
    ensures m in ids <==> m in ids[..|ids| - 1] || m == ids[|ids| - 1]
    ensures ids[|ids| - 1] !in ids[..|ids| - 1]
  {
    assert ids == ids[..|ids| - 1] + [ids[|ids| - 1]];
  }

  /** The one event a step records, when it is neither a dispatch nor a batch claim. */
  function StepEvent(cfg: Config, s: System, step: Step): (e: Option<Event>)
    requires Enabled(cfg, s, step)
  {
    match step
    case Pay(c, amount) => Some(Event(Payment, 0, c, amount))
    case Enqueue(c, charge, _) => Some(Event(Reserved, |s.db.rows|, c, charge))
    case SyncReserve(_, c, charge, _) => Some(Event(Reserved, |s.db.rows|, c, charge))
    case Undeliver(w, commit) => if commit then Some(Note(Refunded, Head(s, w), Head(s, w).charge)) else None
    case SyncFail(w, refund, commit) =>
      if commit && refund then Some(Note(Refunded, Head(s, w), Head(s, w).charge)) else None
    case Bill(w, _, cost, _, commit) => if commit then Some(Note(Billed, Head(s, w), cost)) else None
    case _ => None
  }

  lemma StepHist(cfg: Config, s: System, step: Step)
    requires Enabled(cfg, s, step) && !step.TakeBatch? && !step.Dispatch?
    ensures Apply(cfg, s, step).hist
         == if StepEvent(cfg, s, step).Some? then s.hist + [StepEvent(cfg, s, step).value] else s.hist
  {
  }

  predicate Matches(e: Option<Event>, kind: EventKind, m: MessageId) {
    e.Some? && e.value.kind == kind && e.value.id == m
  }

  lemma EmitsTheEvent(cfg: Config, s: System, step: Step, kind: EventKind, m: MessageId)
    requires Enabled(cfg, s, step) && !step.TakeBatch? && !step.Dispatch?
    ensures Emits(cfg, s, step, kind, m) == if Matches(StepEvent(cfg, s, step), kind, m) then 1 else 0
  {
  }

  lemma DispatchCount(cfg: Config, s: System, w: nat, accepted: bool, kind: EventKind, m: MessageId)
    requires Enabled(cfg, s, Dispatch(w, accepted))
    ensures Count(Apply(cfg, s, Dispatch(w, accepted)).hist, kind, m)
         == Count(s.hist, kind, m) + Emits(cfg, s, Dispatch(w, accepted), kind, m)
  {
    var sent, won := Note(Dispatched, Head(s, w), 0), Note(CarrierAccepted, Head(s, w), 0);
    CountAppend(s.hist, sent, kind, m);
    CountAppend(s.hist + [sent], won, kind, m);
    assert Apply(cfg, s, Dispatch(w, accepted)).hist
        == if accepted then (s.hist + [sent]) + [won] else s.hist + [sent];
  }

  lemma StepCount(cfg: Config, s: System, step: Step, kind: EventKind, m: MessageId)
    requires Enabled(cfg, s, step)
    ensures Count(Apply(cfg, s, step).hist, kind, m) == Count(s.hist, kind, m) + Emits(cfg, s, step, kind, m)
  {
    if step.TakeBatch? {
      CountFresh(s.hist, s.db.rows, step.ids, s.now, kind, m);
    } else if step.Dispatch? {
      DispatchCount(cfg, s, step.w, step.accepted, kind, m);
    } else {
      StepHist(cfg, s, step);
      EmitsTheEvent(cfg, s, step, kind, m);
      var e := StepEvent(cfg, s, step);
      if e.Some? { CountAppend(s.hist, e.value, kind, m); }
    }
  }

  // ---- what a step does to one row ----

  /** The rows a step may touch through a holder: its head's. */
  predicate TouchesHead(step: Step) {
    step.Undeliver? || step.Requeue? || step.SyncFail? || step.Bill? || step.Force?
  }

  /** What an exit step makes of its head's row. */
  function ExitRow(cfg: Config, s: System, step: Step, r: Row): Row
    requires TouchesHead(step) ==> Working(s, step.w)
  {
    match step
    case Undeliver(_, commit) => if commit then UndeliverRow(r) else r
    case Requeue(w, readAt, ok) => if ok then RequeueRow(r, readAt + RetryBackoff(cfg, Head(s, w).attempts)) else r
    case SyncFail(_, _, commit) => if commit then FailRow(r) else r
    case Bill(_, carrier, _, _, commit) => if commit then AcceptRow(r, carrier) else r
    case Force(_, carrier, ok) => if ok then ForceAcceptRow(r, carrier) else r
    case _ => r
  }

  lemma HeadRow(cfg: Config, s: System, step: Step, m: MessageId)
    requires Enabled(cfg, s, step) && TouchesHead(step) && m < |s.db.rows|
    ensures var t := Apply(cfg, s, step);
      && t.now == s.now && |t.db.rows| == |s.db.rows|
      && t.db.rows[m] == if Head(s, step.w).id == m then ExitRow(cfg, s, step, s.db.rows[m]) else s.db.rows[m]
  {
  }

  /** The row after a step that is no exit, as the statement behind it leaves it. */
  function OtherRow(cfg: Config, s: System, step: Step, m: MessageId): Row
    requires m < |s.db.rows|
  {
    var r := s.db.rows[m];
    match step
    case TakeBatch(_, ids) => if m in ids then ClaimRow(r, s.now) else r
    case Reap => ReapRow(r, s.now, s.now - cfg.stuck)
    case Receipt(n, d) => if n == m then ReceiptRow(r, d, s.now) else r
    case AgeOut(n) => if n == m then AgeOutRow(r, s.now) else r
    case _ => r
  }

  lemma OtherStepRow(cfg: Config, s: System, step: Step, m: MessageId)
    requires Enabled(cfg, s, step) && !TouchesHead(step) && m < |s.db.rows|
    ensures var t := Apply(cfg, s, step); |s.db.rows| <= |t.db.rows| && t.db.rows[m] == OtherRow(cfg, s, step, m)
  {
  }

  lemma StepRow(cfg: Config, s: System, step: Step, m: MessageId)
    requires Enabled(cfg, s, step) && m < |s.db.rows|
    ensures var t := Apply(cfg, s, step);
      && |s.db.rows| <= |t.db.rows|
      && var a, b := s.db.rows[m], t.db.rows[m];
        && b.client == a.client && b.charge == a.charge && b.receivedAt == a.receivedAt && b.expiresAt == a.expiresAt
        && b.dlrRequested == a.dlrRequested
        && (b == a
            || (TouchesHead(step) && Head(s, step.w).id == m && b == ExitRow(cfg, s, step, a))
            || (step.TakeBatch? && m in step.ids && b == ClaimRow(a, s.now))
            || (step.Reap? && b == ReapRow(a, s.now, s.now - cfg.stuck))
            || (step.Receipt? && step.m == m && b == ReceiptRow(a, step.d, s.now))
            || (step.AgeOut? && step.m == m && b == AgeOutRow(a, s.now)))
  {
    if TouchesHead(step) { HeadRow(cfg, s, step, m); } else { OtherStepRow(cfg, s, step, m); }
  }

  /** The status of message m after a step, by the step and the status before alone. */
  function StatusAfter(cfg: Config, s: System, step: Step, m: MessageId): Status
    requires m < |s.db.rows| && (TouchesHead(step) ==> Working(s, step.w))
  {
    var r := s.db.rows[m];
    var own := TouchesHead(step) && Head(s, step.w).id == m;
    if own && step.Undeliver? && step.commit then Undelivered
    else if own && step.SyncFail? && step.commit then Failed
    else if own && step.Bill? && step.commit then Accepted
    else if own && step.Force? && step.ok && r.status == Sending then Accepted
    else if own && step.Requeue? && step.ok && r.status == Sending then Queued
    else if step.TakeBatch? && m in step.ids then Sending
    else if step.Reap? && r.status == Sending && (r.claimedAt.None? || r.claimedAt.value < s.now - cfg.stuck) then
      Queued
    else if step == AgeOut(m) && r.status == Accepted then Failed
    else if step == Receipt(m, DlrDelivered) && !HasFinal(r) then Delivered
    else if step == Receipt(m, DlrUndelivered) && !HasFinal(r) then Failed
    else if step == Receipt(m, DlrRejected) && !HasFinal(r) then Rejected
    else r.status
  }

  /**
   The life of a message: how every step moves its status. Its carrier is set by the write that accepts
   it and by nothing else, and its next due time by what returns it to the queue.
   */
  lemma StepStatus(cfg: Config, s: System, step: Step, m: MessageId)
    requires Enabled(cfg, s, step) && m < |s.db.rows|
    ensures m < |Apply(cfg, s, step).db.rows|
    ensures var a, b := s.db.rows[m], Apply(cfg, s, step).db.rows[m];
      && b.status == StatusAfter(cfg, s, step, m)
      && (b.carrier != a.carrier ==>
            b.status == Accepted && (step.Bill? || step.Force?) && b.carrier == Some(step.carrier))
      && (b.nextAttemptAt != a.nextAttemptAt ==> b.status == Queued && (step.Requeue? || step.Reap?))
  {
    if TouchesHead(step) { HeadRow(cfg, s, step, m); } else { OtherStepRow(cfg, s, step, m); }
  }

  // ---- holders ----

  /** Every batch of t is one of s's batches, perhaps without its head, or empty. */
  ghost predicate Shrinks(s: System, t: System) {
    forall w :: w in t.holders ==>
      && w in s.holders && t.holders[w].kind == s.holders[w].kind
      && (t.holders[w].batch == s.holders[w].batch || t.holders[w].batch == []
          || (s.holders[w].batch != [] && t.holders[w].batch == s.holders[w].batch[1..]))
  }

  predicate AddsHolder(step: Step) { step.TakeBatch? || step.SyncReserve? || step.ListStuck? }

  lemma StepShrinks(cfg: Config, s: System, step: Step)
    requires Enabled(cfg, s, step) && !AddsHolder(step)
    ensures Shrinks(s, Apply(cfg, s, step))
  {
  }

  /** Where a claim held after shrinking was held before. */
  function Origin(s: System, t: System, w: nat, i: nat): nat
    requires HeldAt(t, w, i) && w in s.holders
  {
    if t.holders[w].batch == s.holders[w].batch then i else i + 1
  }

  lemma ShrinkOrigin(s: System, t: System, w: nat, i: nat)
    requires Shrinks(s, t) && HeldAt(t, w, i)
    ensures HeldAt(s, w, Origin(s, t, w, i)) && ClaimAt(t, w, i) == ClaimAt(s, w, Origin(s, t, w, i))
  {
  }

  lemma StepExclusive(cfg: Config, s: System, step: Step)
    requires Safe(cfg, s) && Enabled(cfg, s, step) && SparesHeld(cfg, s, step)
    ensures Exclusive(Apply(cfg, s, step))
  {
    var t := Apply(cfg, s, step);
    forall w, i, v, j | HeldAt(t, w, i) && HeldAt(t, v, j) && ClaimAt(t, w, i).id == ClaimAt(t, v, j).id
      ensures w == v && i == j
    {
      if !AddsHolder(step) {
        StepShrinks(cfg, s, step);
        ShrinkOrigin(s, t, w, i);
        ShrinkOrigin(s, t, v, j);
        assert HeldAt(s, w, Origin(s, t, w, i)) && HeldAt(s, v, Origin(s, t, v, j));
      } else {
        // A new batch takes queued or new rows, or rows in sending that nobody holds.
        if w != step.w { assert HeldAt(s, w, i) && ClaimOk(cfg, s, ClaimAt(s, w, i)); }
        if v != step.w { assert HeldAt(s, v, j) && ClaimOk(cfg, s, ClaimAt(s, v, j)); }
      }
    }
  }

  lemma StepKeepsOldClaim(cfg: Config, s: System, step: Step, w: nat, i: nat)
    requires Safe(cfg, s) && Enabled(cfg, s, step) && SparesHeld(cfg, s, step) && HeldAt(s, w, i)
    requires TouchesHead(step) ==> step.w != w || i != 0
    ensures ClaimOk(cfg, Apply(cfg, s, step), ClaimAt(s, w, i))
  {
    var q := ClaimAt(s, w, i);
    assert ClaimOk(cfg, s, q);
    StepRow(cfg, s, step, q.id);
    StepCount(cfg, s, step, Refunded, q.id);
    if TouchesHead(step) {
      assert HeldAt(s, step.w, 0) && Head(s, step.w) == ClaimAt(s, step.w, 0);
    }
  }

  lemma TakenClaim(cfg: Config, s: System, v: nat, ids: seq<MessageId>, i: nat)
    requires Enabled(cfg, s, TakeBatch(v, ids)) && i < |ids| && RefundOk(s, ids[i])
    ensures var t := Apply(cfg, s, TakeBatch(v, ids)); HeldAt(t, v, i) && ClaimOk(cfg, t, ClaimAt(t, v, i))
  {
    CountFresh(s.hist, s.db.rows, ids, s.now, Refunded, ids[i]);
  }

  lemma ReservedClaim(cfg: Config, s: System, v: nat, c: ClientId, charge: int, dlr: bool)
    requires RefundOk(s, |s.db.rows|) && Enabled(cfg, s, SyncReserve(v, c, charge, dlr))
    ensures var t := Apply(cfg, s, SyncReserve(v, c, charge, dlr)); HeldAt(t, v, 0) && ClaimOk(cfg, t, ClaimAt(t, v, 0))
  {
    CountAppend(s.hist, Event(Reserved, |s.db.rows|, c, charge), Refunded, |s.db.rows|);
  }

  lemma ListedClaim(cfg: Config, s: System, v: nat, i: nat)
    requires Safe(cfg, s) && Enabled(cfg, s, ListStuck(v)) && HeldAt(Apply(cfg, s, ListStuck(v)), v, i)
    ensures var t := Apply(cfg, s, ListStuck(v)); ClaimOk(cfg, t, ClaimAt(t, v, i))
  {
    assert RefundOk(s, SendingIds(s.db.rows)[i]);
  }

  lemma StepNewClaim(cfg: Config, s: System, step: Step, i: nat)
    requires Safe(cfg, s) && Enabled(cfg, s, step) && AddsHolder(step) && HeldAt(Apply(cfg, s, step), step.w, i)
    ensures var t := Apply(cfg, s, step);
      ClaimOk(cfg, t, ClaimAt(t, step.w, i)) && (cfg.queueMode <==> t.holders[step.w].kind == QueueWorker)
  {
    match step {
      case TakeBatch(v, ids) =>
        assert RefundOk(s, ids[i]);
        TakenClaim(cfg, s, v, ids, i);
      case SyncReserve(v, c, charge, dlr) =>
        assert RefundOk(s, |s.db.rows|);
        ReservedClaim(cfg, s, v, c, charge, dlr);
      case ListStuck(v) => ListedClaim(cfg, s, v, i);
    }
  }

  lemma StepKeptClaim(cfg: Config, s: System, step: Step, t: System, w: nat, i: nat)
    requires Safe(cfg, s) && Enabled(cfg, s, step) && SparesHeld(cfg, s, step) && !AddsHolder(step)
    requires t == Apply(cfg, s, step) && HeldAt(t, w, i)
    ensures ClaimOk(cfg, t, ClaimAt(t, w, i)) && (cfg.queueMode <==> t.holders[w].kind == QueueWorker)
  {
    StepShrinks(cfg, s, step);
    ShrinkOrigin(s, t, w, i);
    var o := Origin(s, t, w, i);
    if TouchesHead(step) && step.w == w && o == 0 {
      // Only an aborted billing keeps its head, and it writes nothing.
      assert step.Bill? && !step.commit;
      assert ClaimOk(cfg, s, ClaimAt(s, w, o));
    } else {
      StepKeepsOldClaim(cfg, s, step, w, o);
    }
  }

  lemma StepClaimsOk(cfg: Config, s: System, step: Step)
    requires Safe(cfg, s) && Enabled(cfg, s, step) && SparesHeld(cfg, s, step)
    ensures ClaimsOk(cfg, Apply(cfg, s, step))
  {
    var t := Apply(cfg, s, step);
    forall w, i | HeldAt(t, w, i)
      ensures ClaimOk(cfg, t, ClaimAt(t, w, i)) && (cfg.queueMode <==> t.holders[w].kind == QueueWorker)
    {
      if !AddsHolder(step) {
        StepKeptClaim(cfg, s, step, t, w, i);
      } else if w == step.w {
        StepNewClaim(cfg, s, step, i);
      } else {
        assert HeldAt(s, w, i);
        StepKeepsOldClaim(cfg, s, step, w, i);
      }
    }
  }

  /** A refund takes the row out of the queue in the same transaction. */
  lemma RefundLeavesQueue(cfg: Config, s: System, step: Step)
    requires Enabled(cfg, s, step) && RefundsHead(step) && Head(s, step.w).id < |s.db.rows|
    ensures var t := Apply(cfg, s, step); !InQueue(t.db.rows[Head(s, step.w).id].status)
  {
  }

  /** No step puts a row back into the queue. */
  lemma StepNeverRequeues(cfg: Config, s: System, step: Step, m: MessageId)
    requires Enabled(cfg, s, step) && m < |s.db.rows| && !InQueue(s.db.rows[m].status)
    ensures m < |Apply(cfg, s, step).db.rows| && !InQueue(Apply(cfg, s, step).db.rows[m].status)
  {
  }

  lemma StepRefundOk(cfg: Config, s: System, step: Step, m: MessageId)
    requires Safe(cfg, s) && Enabled(cfg, s, step)
    ensures RefundOk(Apply(cfg, s, step), m)
  {
    assert RefundOk(s, m);
    StepCount(cfg, s, step, Refunded, m);
    if RefundsHead(step) {
      assert HeldAt(s, step.w, 0) && ClaimOk(cfg, s, ClaimAt(s, step.w, 0));
      RefundLeavesQueue(cfg, s, step);
    }
    if m < |s.db.rows| {
      StepRow(cfg, s, step, m);
      if !InQueue(s.db.rows[m].status) { StepNeverRequeues(cfg, s, step, m); }
    }
  }

  /** What safety says about the row an exit step is about to write. */
  lemma HeadIsOk(cfg: Config, s: System, step: Step)
    requires Safe(cfg, s) && Enabled(cfg, s, step)
    ensures TouchesHead(step) ==> HeldAt(s, step.w, 0) && ClaimOk(cfg, s, ClaimAt(s, step.w, 0))
  {
    if TouchesHead(step) {
      assert HeldAt(s, step.w, 0);
    }
  }

  lemma StepSafe(cfg: Config, s: System, step: Step)
    requires Safe(cfg, s) && Enabled(cfg, s, step) && SparesHeld(cfg, s, step)
    ensures Safe(cfg, Apply(cfg, s, step))
  {
    StepExclusive(cfg, s, step);
    StepClaimsOk(cfg, s, step);
    forall m: MessageId ensures RefundOk(Apply(cfg, s, step), m) {
      StepRefundOk(cfg, s, step, m);
    }
  }

  /** In a safe state the lease and a quiet boot spare every held row. */
  lemma LeaseSpares(cfg: Config, s: System, step: Step)
    requires Safe(cfg, s) && Enabled(cfg, s, step) && LeaseAt(cfg, s) && QuietAt(s, step)
    ensures SparesHeld(cfg, s, step)
  {
    forall w: nat, i: nat | HeldAt(s, w, i) && ClaimAt(s, w, i).id < |s.db.rows|
      ensures var r := s.db.rows[ClaimAt(s, w, i).id];
        (step.Reap? ==> !IsStuck(r, s.now - cfg.stuck)) && (step.ListStuck? ==> r.status != Sending)
    {
      assert ClaimOk(cfg, s, ClaimAt(s, w, i));
      if step.Reap? { assert s.now <= s.holders[w].batch[i].claimedAt + cfg.stuck; }
    }
  }

  ghost predicate Sparing(cfg: Config, r: Run, n: nat) {
    n <= |r.steps| < |r.states| && forall k :: 0 <= k < n ==> SparesHeld(cfg, r.states[k], r.steps[k])
  }

  lemma {:induction false} SparingIsSafe(cfg: Config, r: Run, k: nat)
    requires IsRun(cfg, r) && Sparing(cfg, r, k)
    ensures Safe(cfg, r.states[k])
  {
    if k > 0 {
      SparingIsSafe(cfg, r, k - 1);
      StepSafe(cfg, r.states[k - 1], r.steps[k - 1]);
    }
  }

  lemma {:induction false} LeasedIsSparing(cfg: Config, r: Run, k: nat)
    requires IsRun(cfg, r) && Leased(cfg, r) && QuietBoot(r) && k <= |r.steps|
    ensures Sparing(cfg, r, k)
  {
    if k > 0 {
      LeasedIsSparing(cfg, r, k - 1);
      SparingIsSafe(cfg, r, k - 1);
      LeaseSpares(cfg, r.states[k - 1], r.steps[k - 1]);
    }
  }

  lemma RunSafe(cfg: Config, r: Run, k: nat)
    requires IsRun(cfg, r) && Leased(cfg, r) && QuietBoot(r) && k < |r.states|
    ensures Safe(cfg, r.states[k])
  {
    LeasedIsSparing(cfg, r, k);
    SparingIsSafe(cfg, r, k);
  }

  /** Under the lease a row is held at most once, a held row is not in the queue, and no charge is refunded twice. */
  lemma HeldOnceRefundedOnce(cfg: Config, r: Run, k: nat)
    requires IsRun(cfg, r) && Leased(cfg, r) && QuietBoot(r) && k < |r.states|
    ensures var s := r.states[k];
      && Exclusive(s)
      && (forall w, i :: HeldAt(s, w, i) ==>
            ClaimAt(s, w, i).id < |s.db.rows| && s.db.rows[ClaimAt(s, w, i).id].status != Queued)
      && (forall m: MessageId :: Count(s.hist, Refunded, m) <= 1)
      && (forall m: MessageId :: Count(s.hist, Refunded, m) == 1 ==> m < |s.db.rows| && !InQueue(s.db.rows[m].status))
  {
    RunSafe(cfg, r, k);
    var s := r.states[k];
    forall m: MessageId ensures Count(s.hist, Refunded, m) <= 1
      && (Count(s.hist, Refunded, m) == 1 ==> m < |s.db.rows| && !InQueue(s.db.rows[m].status))
    {
      assert RefundOk(s, m);
    }
    forall w, i | HeldAt(s, w, i)
      ensures ClaimAt(s, w, i).id < |s.db.rows| && s.db.rows[ClaimAt(s, w, i).id].status != Queued
    {
      assert ClaimOk(cfg, s, ClaimAt(s, w, i));
    }
  }

  // ---- the two hypotheses are exact ----

  /** A safe state stays safe under the reaper exactly when no held row is stuck: that is all the lease is for. */
  lemma ReaperIsSafeExactly(cfg: Config, s: System)
    requires Safe(cfg, s) && cfg.queueMode
    ensures Safe(cfg, Apply(cfg, s, Reap)) <==>
      forall w, i :: HeldAt(s, w, i) ==> !IsStuck(s.db.rows[HeldRow(cfg, s, w, i)], s.now - cfg.stuck)
  {
    var t := Apply(cfg, s, Reap);
    forall w, i | HeldAt(s, w, i)
      ensures ClaimOk(cfg, t, ClaimAt(t, w, i)) <==> !IsStuck(s.db.rows[HeldRow(cfg, s, w, i)], s.now - cfg.stuck)
    {
      assert ClaimOk(cfg, s, ClaimAt(s, w, i));
    }
    assert forall w, i :: HeldAt(t, w, i) <==> HeldAt(s, w, i);
    assert Exclusive(t);
    forall m: MessageId ensures RefundOk(t, m) { StepRefundOk(cfg, s, Reap, m); }
  }

  function HeldRow(cfg: Config, s: System, w: nat, i: nat): (m: MessageId)
    requires ClaimsOk(cfg, s) && HeldAt(s, w, i)
    ensures m < |s.db.rows|
  {
    assert ClaimOk(cfg, s, ClaimAt(s, w, i));
    ClaimAt(s, w, i).id
  }

  /** The recovery's worklist takes nobody's row exactly when no held row is 'sending' when it is read. */
  lemma RecoveryIsExclusiveExactly(cfg: Config, s: System, v: nat)
    requires Safe(cfg, s) && Enabled(cfg, s, ListStuck(v))
    ensures Exclusive(Apply(cfg, s, ListStuck(v))) <==>
      forall w, i :: HeldAt(s, w, i) ==> s.db.rows[HeldRow(cfg, s, w, i)].status != Sending
  {
    var t := Apply(cfg, s, ListStuck(v));
    var ids := SendingIds(s.db.rows);
    if w, i :| HeldAt(s, w, i) && s.db.rows[HeldRow(cfg, s, w, i)].status == Sending {
      var m := HeldRow(cfg, s, w, i);
      var j :| 0 <= j < |ids| && ids[j] == m;
      assert HeldAt(t, v, j) && ClaimAt(t, v, j).id == m;
      assert HeldAt(t, w, i) && ClaimAt(t, w, i).id == m && w != v;
    } else {
      forall w, i, u, j | HeldAt(t, w, i) && HeldAt(t, u, j) && ClaimAt(t, w, i).id == ClaimAt(t, u, j).id
        ensures w == u && i == j
      {
        if w != v { assert HeldAt(s, w, i) && HeldRow(cfg, s, w, i) == ClaimAt(t, w, i).id; }
        if u != v { assert HeldAt(s, u, j) && HeldRow(cfg, s, u, j) == ClaimAt(t, u, j).id; }
      }
    }
  }

  /** A step from a safe state to a safe state spares every held row. */
  lemma SafeStepSpares(cfg: Config, s: System, step: Step)
    requires Safe(cfg, s) && Enabled(cfg, s, step) && Safe(cfg, Apply(cfg, s, step))
    ensures SparesHeld(cfg, s, step)
  {
    if step.Reap? {
      ReaperIsSafeExactly(cfg, s);
    } else if step.ListStuck? {
      RecoveryIsExclusiveExactly(cfg, s, step.w);
    }
    forall w, i | HeldAt(s, w, i) && ClaimAt(s, w, i).id < |s.db.rows|
      ensures var r := s.db.rows[ClaimAt(s, w, i).id];
        (step.Reap? ==> !IsStuck(r, s.now - cfg.stuck)) && (step.ListStuck? ==> r.status != Sending)
    {
      assert HeldRow(cfg, s, w, i) == ClaimAt(s, w, i).id;
    }
  }

  /**
   Over whole runs: every state is safe exactly when the reaper never meets a held stuck row and the
   boot recovery never sees a held row in sending.
   */
  lemma SafeRunsExactly(cfg: Config, r: Run)
    requires IsRun(cfg, r)
    ensures (forall k :: 0 <= k < |r.states| ==> Safe(cfg, r.states[k])) <==> Sparing(cfg, r, |r.steps|)
  {
    if Sparing(cfg, r, |r.steps|) {
      forall k | 0 <= k < |r.states| ensures Safe(cfg, r.states[k]) { SparingIsSafe(cfg, r, k); }
    } else if forall k :: 0 <= k < |r.states| ==> Safe(cfg, r.states[k]) {
      forall k | 0 <= k < |r.steps| ensures SparesHeld(cfg, r.states[k], r.steps[k]) {
        assert Safe(cfg, r.states[k]) && Safe(cfg, r.states[k + 1]);
        SafeStepSpares(cfg, r.states[k], r.steps[k]);
      }
    }
  }
}
