/**
 Each hypothesis on runs is needed: a short run that breaks only that one and the property with it.
 */
module Counterexamples {
  import opened Options
  import opened Ledger
  import opened SmsRows
  import opened Pipeline
  import Projection

  function Last(r: Run): System
    requires r.states != []
  {
    r.states[|r.states| - 1]
  }

  /** A run that has respected every hypothesis but the ones named by a flag. */
  ghost predicate Keeps(cfg: Config, r: Run, leased: bool, quiet: bool, written: bool) {
    IsRun(cfg, r) && (leased ==> Leased(cfg, r)) && (quiet ==> QuietBoot(r)) && (written ==> FinalWrites(r))
  }

  ghost predicate NoReceipts(r: Run) { forall k :: 0 <= k < |r.steps| ==> !r.steps[k].Receipt? }

  ghost predicate Reached(cfg: Config, r: Run, s: System, leased: bool, quiet: bool, written: bool) {
    Keeps(cfg, r, leased, quiet, written) && NoReceipts(r) && r.states != [] && Last(r) == s
  }

  /** Equality spelt out per component, so that sequences and maps are compared by content. */
  ghost predicate Same(a: System, b: System) {
    && a.db.rows == b.db.rows && a.db.accounts == b.db.accounts && a.carriers == b.carriers && a.holders == b.holders
    && a.now == b.now && a.booting == b.booting && a.hist == b.hist
  }

  ghost predicate Reachable(cfg: Config, s: System, leased: bool, quiet: bool, written: bool) {
    exists r :: Reached(cfg, r, s, leased, quiet, written)
  }

  lemma Boot(cfg: Config, s: System, leased: bool, quiet: bool, written: bool)
    requires Init(cfg, s)
    ensures Reachable(cfg, s, leased, quiet, written)
  {
    assert Reached(cfg, Run([s], []), s, leased, quiet, written);
  }

  function Longer(r: Run, step: Step, t: System): Run { Run(r.states + [t], r.steps + [step]) }

  lemma Extend(cfg: Config, r: Run, step: Step, t: System, leased: bool, quiet: bool, written: bool)
    requires Keeps(cfg, r, leased, quiet, written) && r.states != []
    requires Enabled(cfg, Last(r), step) && Same(t, Apply(cfg, Last(r), step))
    requires (leased ==> LeaseAt(cfg, t)) && (quiet ==> QuietAt(Last(r), step))
    requires written ==> FinalWriteAt(Last(r), step)
    ensures Keeps(cfg, Longer(r, step, t), leased, quiet, written)
  {
    var g := Longer(r, step, t);
    forall k | 0 <= k < |g.steps|
      ensures Enabled(cfg, g.states[k], g.steps[k]) && g.states[k + 1] == Apply(cfg, g.states[k], g.steps[k])
    {
      assert k < |r.steps| ==> g.states[k] == r.states[k] && g.steps[k] == r.steps[k];
    }
  }

  /** Take one more step, to a state given in full. */
  lemma Go(cfg: Config, s: System, step: Step, t: System, leased: bool, quiet: bool, written: bool)
    requires Reachable(cfg, s, leased, quiet, written) && !step.Receipt?
    requires Enabled(cfg, s, step) && Same(t, Apply(cfg, s, step))
    requires (leased ==> LeaseAt(cfg, t)) && (quiet ==> QuietAt(s, step)) && (written ==> FinalWriteAt(s, step))
    ensures Reachable(cfg, t, leased, quiet, written)
  {
    var r :| Reached(cfg, r, s, leased, quiet, written);
    Extend(cfg, r, step, t, leased, quiet, written);
    assert Reached(cfg, Longer(r, step, t), t, leased, quiet, written);
  }

  const QUEUE := Config(true, 100, 5, 60, 10, map[0 := 10], map[7 := 100])
  const SYNC := Config(false, 100, 5, 60, 10, map[0 := 10], map[7 := 100])

  function Bank(balance: int, entries: seq<Entry>): map<ClientId, Account> { map[0 := Account(balance, entries)] }

  const PAID: seq<Entry> := [] + [Entry(false, 3, 10, 7)]
  const BACK := PAID + [Entry(true, 3, 7, 10)]
  const TWICE := BACK + [Entry(true, 3, 10, 13)]

  const UNBILLED := map[7 := CarrierAccount(100, [], 0, 0, 0)]
  const BILLED := UNBILLED[7 := CarrierAccount(99, [] + [Entry(false, 1, 100, 99)], 1, 1, 1)]

  const RESERVED: seq<Event> := [] + [Event(Reserved, 0, 0, 3)]
  const REFUND := Event(Refunded, 0, 0, 3)

  const ROW := QueuedRow(0, 3, true, 100, 0)
  const CREATED := System(Db([ROW], Bank(7, PAID)), UNBILLED, map[], 0, true, RESERVED)
  const IDLE := Holder(QueueWorker, [], Ready)

  const EMPTY := System(Db([], Bank(10, [])), UNBILLED, map[], 0, true, [])

  lemma Booted(cfg: Config, leased: bool, quiet: bool, written: bool)
    requires cfg in {QUEUE, SYNC}
    ensures Reachable(cfg, EMPTY, leased, quiet, written)
  {
    Boot(cfg, EMPTY, leased, quiet, written);
  }

  lemma Created(leased: bool, quiet: bool, written: bool)
    ensures Reachable(QUEUE, CREATED, leased, quiet, written)
  {
    Booted(QUEUE, leased, quiet, written);
    Go(QUEUE, EMPTY, Enqueue(0, 3, true), CREATED, leased, quiet, written);
  }

  // A worker claims the row after it expired, stalls, and the reaper returns the row to the queue.
  const EXPIRED_CLAIM := Claim(0, 0, 3, 1, true, 100)
  const STALLED := Holder(QueueWorker, [EXPIRED_CLAIM], Ready)
  const CLAIMED_LATE := ROW.(status := Sending, claimedAt := Some(100), attempts := 1)
  const REAPED := CLAIMED_LATE.(status := Queued, claimedAt := None, nextAttemptAt := Some(111))
  const REAPED_WHILE_HELD := System(Db([REAPED], Bank(7, PAID)), UNBILLED, map[0 := STALLED], 111, true, RESERVED)

  const CREATED_LATE := CREATED.(now := 100)
  const HELD_LATE := CREATED_LATE.(db := Db([CLAIMED_LATE], Bank(7, PAID)), holders := map[0 := STALLED])

  lemma HeldLate()
    ensures Reachable(QUEUE, HELD_LATE, false, true, true)
  {
    Created(false, true, true);
    Go(QUEUE, CREATED, Tick(100), CREATED_LATE, false, true, true);
    ClaimOnlyRow(ROW, 100);
    Go(QUEUE, CREATED_LATE, TakeBatch(0, [0]), HELD_LATE, false, true, true);
  }

  lemma ReapedWhileHeld()
    ensures Reachable(QUEUE, REAPED_WHILE_HELD, false, true, true)
  {
    var stalled := HELD_LATE.(now := 111);
    HeldLate();
    Go(QUEUE, HELD_LATE, Tick(11), stalled, false, true, true);
    Go(QUEUE, stalled, Reap, REAPED_WHILE_HELD, false, true, true);
  }

  lemma ClaimOnlyRow(row: Row, now: int)
    ensures ClaimsFor([row], [0], now) == [ClaimOf(row, 0, now)]
    ensures FreshEvents([row], [0], now) == if IsExpired(row, now) then [] else [Event(ClaimedFresh, 0, row.client, 0)]
  {
    assert [0][..0] == [];
    assert FreshEvents([row], [], now) == [];
  }

  const SECOND_CLAIM := Claim(0, 0, 3, 2, true, 111)
  const SECOND := Holder(QueueWorker, [SECOND_CLAIM], Ready)
  const TAKEN_AGAIN := REAPED.(status := Sending, claimedAt := Some(111), attempts := 2)
  const HELD_TWICE :=
    System(Db([TAKEN_AGAIN], Bank(7, PAID)), UNBILLED, map[0 := STALLED, 1 := SECOND], 111, true, RESERVED)

  lemma HeldTwice()
    ensures Reachable(QUEUE, HELD_TWICE, false, true, true)
  {
    ReapedWhileHeld();
    ClaimOnlyRow(REAPED, 111);
    Go(QUEUE, REAPED_WHILE_HELD, TakeBatch(1, [0]), HELD_TWICE, false, true, true);
  }

  const GONE := UndeliverRow(TAKEN_AGAIN)
  const REFUNDED_ONCE :=
    System(Db([GONE], Bank(10, BACK)), UNBILLED, map[0 := IDLE, 1 := SECOND], 111, true, RESERVED + [REFUND])
  const REFUNDED_TWICE :=
    System(Db([GONE], Bank(13, TWICE)), UNBILLED, map[0 := IDLE, 1 := IDLE], 111, true,
      (RESERVED + [REFUND]) + [REFUND])

  lemma RefundedOnce()
    ensures Reachable(QUEUE, REFUNDED_ONCE, false, true, true)
  {
    HeldTwice();
    assert [EXPIRED_CLAIM][1..] == [];
    Go(QUEUE, HELD_TWICE, Undeliver(0, true), REFUNDED_ONCE, false, true, true);
  }

  lemma RefundedTwice()
    ensures Reachable(QUEUE, REFUNDED_TWICE, false, true, true)
  {
    RefundedOnce();
    assert [SECOND_CLAIM][1..] == [];
    Go(QUEUE, REFUNDED_ONCE, Undeliver(1, true), REFUNDED_TWICE, false, true, true);
  }

  /**
   Without the lease: a second worker claims the reaped row, and both refund it. The client ends
   with more than was ever paid in.
   */
  lemma LeaseIsNeeded()
    ensures exists s :: Reachable(QUEUE, s, false, true, true) && Count(s.hist, Refunded, 0) == 2
                        && 0 in s.db.accounts && s.db.accounts[0].balance > QUEUE.opening[0]
  {
    RefundedTwice();
    CountAppend(RESERVED, REFUND, Refunded, 0);
    CountAppend(RESERVED + [REFUND], REFUND, Refunded, 0);
  }

  const SENDING_ROW := ROW.(status := Sending, claimedAt := Some(0), attempts := 1)
  const SENT := Event(Dispatched, 0, 0, 0)
  const WON := Event(CarrierAccepted, 0, 0, 0)

  const CLAIMED: seq<Event> := RESERVED + [Event(ClaimedFresh, 0, 0, 0)]
  const ACCEPTED: seq<Event> := (CLAIMED + [SENT]) + [WON]
  const CRASHED := System(Db([SENDING_ROW], Bank(7, PAID)), UNBILLED, map[], 0, true, ACCEPTED)

  const ON_TIME := Claim(0, 0, 3, 1, false, 0)
  const HELD_ON_TIME :=
    CREATED.(db := Db([SENDING_ROW], Bank(7, PAID)), holders := map[0 := Holder(QueueWorker, [ON_TIME], Ready)],
      hist := CLAIMED)

  lemma HeldOnTime(leased: bool, quiet: bool, written: bool)
    ensures Reachable(QUEUE, HELD_ON_TIME, leased, quiet, written)
  {
    Created(leased, quiet, written);
    ClaimOnlyRow(ROW, 0);
    Go(QUEUE, CREATED, TakeBatch(0, [0]), HELD_ON_TIME, leased, quiet, written);
  }

  const FIRST := Holder(QueueWorker, [ON_TIME], Won)
  const WON_ON_TIME := HELD_ON_TIME.(holders := map[0 := FIRST], hist := ACCEPTED)

  lemma WonOnTime(leased: bool, quiet: bool, written: bool)
    ensures Reachable(QUEUE, WON_ON_TIME, leased, quiet, written)
  {
    HeldOnTime(leased, quiet, written);
    Go(QUEUE, HELD_ON_TIME, Dispatch(0, true), WON_ON_TIME, leased, quiet, written);
  }

  lemma CrashedAfterAcceptance()
    ensures Reachable(QUEUE, CRASHED, true, true, false)
  {
    WonOnTime(true, true, false);
    Go(QUEUE, WON_ON_TIME, Crash, CRASHED, true, true, false);
  }

  const RETURNED_ROW := SENDING_ROW.(status := Queued, claimedAt := None, nextAttemptAt := Some(11))
  const RETURNED := System(Db([RETURNED_ROW], Bank(7, PAID)), UNBILLED, map[], 11, true, ACCEPTED)

  lemma ReturnedToQueue()
    ensures Reachable(QUEUE, RETURNED, true, true, false)
  {
    var s1 := CRASHED.(now := 11);
    CrashedAfterAcceptance();
    Go(QUEUE, CRASHED, Tick(11), s1, true, true, false);
    Go(QUEUE, s1, Reap, RETURNED, true, true, false);
  }

  lemma AcceptanceCount(h: seq<Event>)
    ensures Count((h + [SENT]) + [WON], CarrierAccepted, 0) == Count(h, CarrierAccepted, 0) + 1
    ensures Count((h + [SENT]) + [WON], Refunded, 0) == Count(h, Refunded, 0)
  {
    CountAppend(h, SENT, CarrierAccepted, 0);
    CountAppend(h + [SENT], WON, CarrierAccepted, 0);
    CountAppend(h, SENT, Refunded, 0);
    CountAppend(h + [SENT], WON, Refunded, 0);
  }

  const RETAKEN_CLAIM := Claim(0, 0, 3, 2, false, 11)
  const RECLAIMED: seq<Event> := ACCEPTED + [Event(ClaimedFresh, 0, 0, 0)]
  const RETAKEN_ROW := RETURNED_ROW.(status := Sending, claimedAt := Some(11), attempts := 2)
  const RETAKEN :=
    System(Db([RETAKEN_ROW], Bank(7, PAID)), UNBILLED, map[0 := Holder(QueueWorker, [RETAKEN_CLAIM], Ready)], 11, true,
      RECLAIMED)

  lemma Retaken()
    ensures Reachable(QUEUE, RETAKEN, true, true, false)
  {
    ReturnedToQueue();
    ClaimOnlyRow(RETURNED_ROW, 11);
    Go(QUEUE, RETURNED, TakeBatch(0, [0]), RETAKEN, true, true, false);
  }

  const RETAKEN_WON :=
    RETAKEN.(holders := map[0 := Holder(QueueWorker, [RETAKEN_CLAIM], Won)], hist := (RECLAIMED + [SENT]) + [WON])

  lemma AcceptedAgain()
    ensures Reachable(QUEUE, RETAKEN_WON, true, true, false)
  {
    Retaken();
    Go(QUEUE, RETAKEN, Dispatch(0, true), RETAKEN_WON, true, true, false);
  }

  /**
   Without the final write: the process dies between the carrier's acceptance and the exit write,
   the reaper returns the row after the lease, and the same message is accepted a second time.
   */
  lemma FinalWriteIsNeeded()
    ensures exists s :: Reachable(QUEUE, s, true, true, false) && Count(s.hist, CarrierAccepted, 0) == 2
  {
    AcceptedAgain();
    AcceptanceCount(CLAIMED);
    CountAppend(RESERVED, Event(ClaimedFresh, 0, 0, 0), CarrierAccepted, 0);
    CountAppend(ACCEPTED, Event(ClaimedFresh, 0, 0, 0), CarrierAccepted, 0);
    AcceptanceCount(RECLAIMED);
  }

  const LIVE_ROW := SendingRow(0, 3, true, 100, 0)
  const LIVE := Claim(0, 0, 3, 0, false, 0)
  const SEND := Holder(SyncRequest, [LIVE], Ready)
  const RECOVERY := Holder(BootRecovery, [LIVE], Ready)
  const LISTED_LIVE :=
    System(Db([LIVE_ROW], Bank(7, PAID)), UNBILLED, map[0 := SEND, 1 := RECOVERY], 0, false, RESERVED)

  /** The SMPP listener is started before the recovery runs, so a send can be in flight when it lists. */
  lemma LiveSendListed()
    ensures Reachable(SYNC, LISTED_LIVE, true, false, true)
  {
    LiveSend();
    assert SendingIds([LIVE_ROW]) == [0] by { assert [LIVE_ROW][..0] == []; }
    assert RecoveryClaims([LIVE_ROW], [0], 0) == [LIVE];
    Go(SYNC, SENDING_LIVE, ListStuck(1), LISTED_LIVE, true, false, true);
  }

  const SENDING_LIVE := System(Db([LIVE_ROW], Bank(7, PAID)), UNBILLED, map[0 := SEND], 0, true, RESERVED)

  lemma LiveSend()
    ensures Reachable(SYNC, SENDING_LIVE, true, false, true)
  {
    Booted(SYNC, true, false, true);
    Go(SYNC, EMPTY, SyncReserve(0, 0, 3, true), SENDING_LIVE, true, false, true);
  }

  const LIVE_WON: seq<Event> := (RESERVED + [SENT]) + [WON]
  const WINNER := Holder(SyncRequest, [LIVE], Won)
  const RECOVERED := Holder(BootRecovery, [], Ready)
  const REFUNDED_LIVE :=
    System(Db([UndeliverRow(LIVE_ROW)], Bank(10, BACK)), UNBILLED, map[0 := WINNER, 1 := RECOVERED], 0, false,
                                LIVE_WON + [REFUND])

  const WON_LIVE := LISTED_LIVE.(holders := map[0 := WINNER, 1 := RECOVERY], hist := LIVE_WON)

  lemma LiveSendWon()
    ensures Reachable(SYNC, WON_LIVE, true, false, true)
  {
    LiveSendListed();
    Go(SYNC, LISTED_LIVE, Dispatch(0, true), WON_LIVE, true, false, true);
  }

  lemma LiveSendRefunded()
    ensures Reachable(SYNC, REFUNDED_LIVE, true, false, true)
  {
    LiveSendWon();
    assert [LIVE][1..] == [];
    Go(SYNC, WON_LIVE, Undeliver(1, true), REFUNDED_LIVE, true, false, true);
  }

  /** What the bill does to the carrier's account. */
  lemma OneBill()
    ensures ChargeCarrier(UNBILLED[7], 1, 1).Some? && UNBILLED[7 := ChargeCarrier(UNBILLED[7], 1, 1).value] == BILLED
  {
  }

  const BILL := Bill(0, 7, 1, 1, true)
  const BILLED_LIVE := REFUNDED_LIVE.(
    db := Db([AcceptRow(UndeliverRow(LIVE_ROW), 7)], Bank(10, BACK)),
    carriers := BILLED, holders := map[0 := SEND.(batch := []), 1 := RECOVERED],
    hist := (LIVE_WON + [REFUND]) + [Note(Billed, LIVE, 1)])

  lemma LiveBill()
    ensures Enabled(SYNC, REFUNDED_LIVE, BILL) && Same(BILLED_LIVE, Apply(SYNC, REFUNDED_LIVE, BILL))
  {
    assert [LIVE][1..] == [];
    OneBill();
  }

  lemma LiveSendBilled()
    ensures Reachable(SYNC, BILLED_LIVE, true, false, true)
  {
    LiveSendRefunded();
    LiveBill();
    Go(SYNC, REFUNDED_LIVE, BILL, BILLED_LIVE, true, false, true);
  }

  /**
   Without a quiet boot: the boot recovery refunds a live synchronous send, whose billing then
   commits over the refund. The message ends accepted, billed and refunded.
   */
  lemma QuietBootIsNeeded()
    ensures exists s :: Reachable(SYNC, s, true, false, true) && s.db.rows != [] && s.db.rows[0].status == Accepted
                        && forall e :: e in {CarrierAccepted, Billed, Refunded} ==> Count(s.hist, e, 0) == 1
  {
    LiveSendBilled();
    LiveCounts();
  }

  lemma LiveCounts()
    ensures Count(BILLED_LIVE.hist, CarrierAccepted, 0) == 1 && Count(BILLED_LIVE.hist, Refunded, 0) == 1
    ensures Count(BILLED_LIVE.hist, Billed, 0) == 1
  {
    AcceptanceCount(RESERVED);
    CountAppend(LIVE_WON, REFUND, CarrierAccepted, 0);
    CountAppend(LIVE_WON, REFUND, Refunded, 0);
    CountAppend(LIVE_WON + [REFUND], Note(Billed, LIVE, 1), CarrierAccepted, 0);
    CountAppend(LIVE_WON + [REFUND], Note(Billed, LIVE, 1), Refunded, 0);
    CountAppend(LIVE_WON + [REFUND], Note(Billed, LIVE, 1), Billed, 0);
    CountAppend(LIVE_WON, REFUND, Billed, 0);
    CountAppend(RESERVED + [SENT], WON, Billed, 0);
    CountAppend(RESERVED, SENT, Billed, 0);
  }

  // ---- a second exit write, and the receipt between ----

  /** A final receipt stored is later replaced by another. */
  ghost predicate Replaced(r: Run, m: MessageId) {
    exists i, j :: 0 <= i < j < |r.states| && m < |r.states[i].db.rows| && m < |r.states[j].db.rows|
      && HasFinal(r.states[i].db.rows[m]) && r.states[j].db.rows[m].dlrStatus != r.states[i].db.rows[m].dlrStatus
  }

  /** Row m has been written out of the queue, without a receipt, and yet a holder is about to bill it. */
  predicate AboutToBillAgain(s: System, w: nat, m: MessageId) {
    && m < |s.db.rows| && !InQueue(s.db.rows[m].status) && s.db.rows[m].dlrRequested && !HasFinal(s.db.rows[m])
    && At(s, w, Won) && Head(s, w).id == m && 7 in s.carriers
  }

  /** What the receipt and then the billing do there. */
  lemma ReceiptThenBill(cfg: Config, s: System, w: nat, m: MessageId)
    requires AboutToBillAgain(s, w, m)
    ensures Enabled(cfg, s, Receipt(m, DlrDelivered))
    ensures var t := Apply(cfg, s, Receipt(m, DlrDelivered));
      && m < |t.db.rows| && t.db.rows[m].dlrStatus == Some(DlrDelivered) && Enabled(cfg, t, Bill(w, 7, 1, 1, true))
      && (LeaseAt(cfg, s) ==> LeaseAt(cfg, t))
      && var u := Apply(cfg, t, Bill(w, 7, 1, 1, true));
      && m < |u.db.rows| && AgeOutApplies(u.db.rows[m]) && u.db.rows[m].dlrRequested
  {
  }

  lemma BillKeepsLease(cfg: Config, t: System, w: nat)
    requires Enabled(cfg, t, Bill(w, 7, 1, 1, true)) && LeaseAt(cfg, t)
    ensures LeaseAt(cfg, Apply(cfg, t, Bill(w, 7, 1, 1, true)))
  {
  }

  /** g goes on from r, and no step of r is a receipt: receipts for m in g follow an exit write. */
  lemma FollowsPrefix(cfg: Config, r: Run, g: Run, m: MessageId)
    requires IsRun(cfg, r) && NoReceipts(r) && m < |Last(r).db.rows| && !InQueue(Last(r).db.rows[m].status)
    requires Projection.StartsLike(r, g, |r.steps|)
    requires forall k :: |r.steps| < k < |g.steps| ==> !g.steps[k].Receipt?
    ensures Projection.ReceiptsFollow(g, m)
  {
    Projection.OutMeansExit(cfg, r, m, |r.steps|);
    Projection.SamePrefix(r, g, m, |r.steps|);
    forall k: nat | k < |g.steps| ensures Projection.FollowsAt(g, m, k) {
      if k < |r.steps| { assert g.steps[k] == r.steps[k]; }
    }
  }

  lemma ReceiptThenBillKeeps(cfg: Config, r: Run, w: nat, m: MessageId, t: System, u: System,
                             leased: bool, quiet: bool, written: bool)
    requires Keeps(cfg, r, leased, quiet, written) && r.states != [] && AboutToBillAgain(Last(r), w, m)
    requires t == Apply(cfg, Last(r), Receipt(m, DlrDelivered))
    requires Enabled(cfg, t, Bill(w, 7, 1, 1, true)) && u == Apply(cfg, t, Bill(w, 7, 1, 1, true))
    requires LeaseAt(cfg, Last(r)) ==> LeaseAt(cfg, t)
    ensures Keeps(cfg, Longer(Longer(r, Receipt(m, DlrDelivered), t), Bill(w, 7, 1, 1, true), u), leased, quiet,
      written)
  {
    Extend(cfg, r, Receipt(m, DlrDelivered), t, leased, quiet, written);
    if leased { BillKeepsLease(cfg, t, w); }
    Extend(cfg, Longer(r, Receipt(m, DlrDelivered), t), Bill(w, 7, 1, 1, true), u, leased, quiet, written);
  }

  /** b is r with a receipt and the billing after it; a sweep then replaces the final receipt. */
  lemma SweptIsReplaced(cfg: Config, r: Run, b: Run, w: nat, m: MessageId, leased: bool, quiet: bool, written: bool)
    requires IsRun(cfg, r) && NoReceipts(r) && m < |Last(r).db.rows| && !InQueue(Last(r).db.rows[m].status)
    requires Keeps(cfg, b, leased, quiet, written) && |b.states| == |r.states| + 2
    requires Projection.StartsLike(r, b, |r.steps|) && b.steps[|r.steps| + 1] == Bill(w, 7, 1, 1, true)
    requires var t := b.states[|r.states|]; m < |t.db.rows| && t.db.rows[m].dlrStatus == Some(DlrDelivered)
    requires m < |Last(b).db.rows| && AgeOutApplies(Last(b).db.rows[m]) && Last(b).db.rows[m].dlrRequested
    ensures exists g :: Keeps(cfg, g, leased, quiet, written) && Projection.ReceiptsFollow(g, m) && Replaced(g, m)
  {
    var v := Apply(cfg, Last(b), AgeOut(m));
    Extend(cfg, b, AgeOut(m), v, leased, quiet, written);
    var g := Longer(b, AgeOut(m), v);
    FollowsPrefix(cfg, r, g, m);
    ReplacedAt(g, m, |r.states|, |r.states| + 2);
  }

  /** From there a receipt, the billing and a sweep replace the final receipt, whatever hypotheses the run keeps. */
  lemma BilledAgainIsReplaced(cfg: Config, r: Run, w: nat, m: MessageId, leased: bool, quiet: bool, written: bool)
    requires Keeps(cfg, r, leased, quiet, written) && NoReceipts(r) && r.states != [] && AboutToBillAgain(Last(r), w, m)
    ensures exists g :: Keeps(cfg, g, leased, quiet, written) && Projection.ReceiptsFollow(g, m) && Replaced(g, m)
  {
    ReceiptThenBill(cfg, Last(r), w, m);
    var t := Apply(cfg, Last(r), Receipt(m, DlrDelivered));
    var u := Apply(cfg, t, Bill(w, 7, 1, 1, true));
    ReceiptThenBillKeeps(cfg, r, w, m, t, u, leased, quiet, written);
    var b := Longer(Longer(r, Receipt(m, DlrDelivered), t), Bill(w, 7, 1, 1, true), u);
    SweptIsReplaced(cfg, r, b, w, m, leased, quiet, written);
  }

  lemma ReplacedAt(r: Run, m: MessageId, i: nat, j: nat)
    requires i < j < |r.states| && m < |r.states[i].db.rows| && m < |r.states[j].db.rows|
    requires r.states[i].db.rows[m].dlrStatus == Some(DlrDelivered)
    requires r.states[j].db.rows[m].dlrStatus == Some(DlrUndelivered)
    ensures Replaced(r, m)
  {
    assert HasFinal(r.states[i].db.rows[m]);
  }

  const LATE := System(Db([SENDING_ROW], Bank(7, PAID)), UNBILLED, map[0 := FIRST], 11, true, ACCEPTED)
  const LATE_RETURNED := LATE.(db := Db([RETURNED_ROW], Bank(7, PAID)))

  lemma ReturnedWhileWon()
    ensures Reachable(QUEUE, LATE_RETURNED, false, true, true)
  {
    WonOnTime(false, true, true);
    Go(QUEUE, WON_ON_TIME, Tick(11), LATE, false, true, true);
    Go(QUEUE, LATE, Reap, LATE_RETURNED, false, true, true);
  }

  const BOTH_HOLD :=
    System(Db([RETAKEN_ROW], Bank(7, PAID)), UNBILLED,
      map[0 := FIRST, 1 := Holder(QueueWorker, [RETAKEN_CLAIM], Ready)],
                            11, true, RECLAIMED)
  const BOTH_WON := BOTH_HOLD.(holders := map[0 := FIRST, 1 := Holder(QueueWorker, [RETAKEN_CLAIM], Won)],
                               hist := (RECLAIMED + [SENT]) + [WON])
  const BILLED_ONCE :=
    System(Db([AcceptRow(RETAKEN_ROW, 7)], Bank(7, PAID)), BILLED, map[0 := FIRST, 1 := IDLE], 11, true,
                              BOTH_WON.hist + [Note(Billed, RETAKEN_CLAIM, 1)])

  lemma BothHold()
    ensures Reachable(QUEUE, BOTH_HOLD, false, true, true)
  {
    ReturnedWhileWon();
    ClaimOnlyRow(RETURNED_ROW, 11);
    Go(QUEUE, LATE_RETURNED, TakeBatch(1, [0]), BOTH_HOLD, false, true, true);
  }

  lemma BothWon()
    ensures Reachable(QUEUE, BOTH_WON, false, true, true)
  {
    BothHold();
    Go(QUEUE, BOTH_HOLD, Dispatch(1, true), BOTH_WON, false, true, true);
  }

  lemma SecondBill()
    ensures var step := Bill(1, 7, 1, 1, true);
      Enabled(QUEUE, BOTH_WON, step) && Same(BILLED_ONCE, Apply(QUEUE, BOTH_WON, step))
  {
    assert [RETAKEN_CLAIM][1..] == [];
    OneBill();
  }

  lemma BilledByTheSecond()
    ensures Reachable(QUEUE, BILLED_ONCE, false, true, true)
  {
    BothWon();
    SecondBill();
    Go(QUEUE, BOTH_WON, Bill(1, 7, 1, 1, true), BILLED_ONCE, false, true, true);
  }

  /** Without the lease two workers bill one message, and a receipt that came between is replaced by 'undelivered'. */
  lemma ReceiptNeedsLease()
    ensures exists g :: Keeps(QUEUE, g, false, true, true) && Projection.ReceiptsFollow(g, 0) && Replaced(g, 0)
  {
    BilledByTheSecond();
    var r :| Reached(QUEUE, r, BILLED_ONCE, false, true, true);
    BilledAgainIsReplaced(QUEUE, r, 0, 0, false, true, true);
  }

  /** Without the quiet boot the recovery writes a live send out of the queue, and its own billing comes second. */
  lemma ReceiptNeedsQuietBoot()
    ensures exists g :: Keeps(SYNC, g, true, false, true) && Projection.ReceiptsFollow(g, 0) && Replaced(g, 0)
  {
    LiveSendRefunded();
    var r :| Reached(SYNC, r, REFUNDED_LIVE, true, false, true);
    BilledAgainIsReplaced(SYNC, r, 0, 0, true, false, true);
  }
}
