/**
 What happens to a message after a carrier has accepted it. Leaving the queue is permanent in every
 run; with the lease, a quiet boot and successful exit writes, an accepted message is never
 dispatched again, never refunded, and its carrier is billed at most once.
 */
module AcceptedOnce {
  import opened SmsRows
  import opened Pipeline
  import opened Exclusivity

  /** With no hypothesis on the run at all: a row outside {queued, sending} never returns to it. */
  lemma {:induction false} LeavingIsPermanent(cfg: Config, r: Run, i: nat, j: nat, m: MessageId)
    requires IsRun(cfg, r) && i <= j < |r.states|
    requires m < |r.states[i].db.rows| && !InQueue(r.states[i].db.rows[m].status)
    ensures m < |r.states[j].db.rows| && !InQueue(r.states[j].db.rows[m].status)
    decreases j - i
  {
    if i < j {
      StepNeverRequeues(cfg, r.states[i], r.steps[i], m);
      LeavingIsPermanent(cfg, r, i + 1, j, m);
    }
  }

  predicate Exiting(p: Phase) { p == Won || p == Forcing }

  ghost predicate WonHead(s: System, w: nat, m: MessageId) {
    Working(s, w) && Exiting(s.holders[w].phase) && Head(s, w).id == m
  }

  /** A held claim has been accepted exactly when it is the head of a holder on its way out. */
  ghost predicate ClaimAccepted(s: System, w: nat, i: nat)
    requires HeldAt(s, w, i)
  {
    var q, p := ClaimAt(s, w, i), s.holders[w].phase;
    if i == 0 && Exiting(p) then
      Count(s.hist, CarrierAccepted, q.id) == 1 && Count(s.hist, Billed, q.id) == 0
    else Count(s.hist, CarrierAccepted, q.id) == 0
  }

  /** An accepted row is either out of the queue or still held by the worker it was accepted for. */
  ghost predicate InGoodHands(s: System, m: MessageId) {
    m < |s.db.rows| && (InQueue(s.db.rows[m].status) ==> exists w :: WonHead(s, w, m))
  }

  ghost predicate AcceptOk(s: System, m: MessageId) {
    && Count(s.hist, Billed, m) <= Count(s.hist, CarrierAccepted, m) <= 1
    && (Count(s.hist, CarrierAccepted, m) == 1 ==>
          Count(s.hist, Refunded, m) == 0 && InGoodHands(s, m))
  }

  ghost predicate SafeAccept(s: System) {
    && (forall w, i :: HeldAt(s, w, i) ==> ClaimAccepted(s, w, i))
    && forall m: MessageId :: AcceptOk(s, m)
  }

  predicate ActsOnHead(step: Step) { step.Dispatch? || TouchesHead(step) }

  /** Any other held claim is for another row than the head's. */
  lemma HeldElsewhere(cfg: Config, s: System, v: nat, w: nat, i: nat)
    requires Safe(cfg, s) && Working(s, v) && HeldAt(s, w, i) && (w != v || i != 0)
    ensures ClaimAt(s, w, i).id != Head(s, v).id
  {
    assert HeldAt(s, v, 0) && Head(s, v) == ClaimAt(s, v, 0);
  }

  predicate Leaving(s: System, w: nat, i: nat)
    requires HeldAt(s, w, i)
  {
    i == 0 && Exiting(s.holders[w].phase)
  }

  predicate Accepts(step: Step, w: nat) { step.Dispatch? && step.accepted && step.w == w }

  /** How the exit phase of a claim that stays held moves, and what its own steps record. */
  lemma StepLeaving(cfg: Config, s: System, step: Step, w: nat, i: nat)
    requires Enabled(cfg, s, step) && !AddsHolder(step) && HeldAt(Apply(cfg, s, step), w, i)
    requires w in s.holders
    ensures var t := Apply(cfg, s, step);
      var o := Origin(s, t, w, i);
      && HeldAt(s, w, o) && ClaimAt(t, w, i) == ClaimAt(s, w, o)
      && (Leaving(t, w, i) <==> Leaving(s, w, o) || (Accepts(step, w) && o == 0))
      && (Accepts(step, w) && o == 0 ==> !Leaving(s, w, o))
      && (step.Bill? && step.commit && step.w == w ==> o != 0)
  {
  }

  lemma OwnEvents(cfg: Config, s: System, step: Step, w: nat, o: nat)
    requires Safe(cfg, s) && Enabled(cfg, s, step) && HeldAt(s, w, o)
    ensures var m := ClaimAt(s, w, o).id;
      && Emits(cfg, s, step, CarrierAccepted, m) == (if Accepts(step, w) && o == 0 then 1 else 0)
      && Emits(cfg, s, step, Billed, m) == if step.Bill? && step.commit && step.w == w && o == 0 then 1 else 0
  {
    if ActsOnHead(step) && (w != step.w || o != 0) {
      HeldElsewhere(cfg, s, step.w, w, o);
    }
  }

  lemma StepOldClaimAccepted(cfg: Config, s: System, step: Step, t: System, w: nat, i: nat)
    requires Safe(cfg, s) && SafeAccept(s) && Enabled(cfg, s, step)
    requires !AddsHolder(step) && t == Apply(cfg, s, step) && HeldAt(t, w, i)
    ensures ClaimAccepted(t, w, i)
  {
    StepShrinks(cfg, s, step);
    StepLeaving(cfg, s, step, w, i);
    var o := Origin(s, t, w, i);
    assert ClaimAccepted(s, w, o);
    OwnEvents(cfg, s, step, w, o);
    StepCount(cfg, s, step, CarrierAccepted, ClaimAt(s, w, o).id);
    StepCount(cfg, s, step, Billed, ClaimAt(s, w, o).id);
    if Accepts(step, w) && o == 0 { assert AcceptOk(s, ClaimAt(s, w, o).id); }
  }

  lemma WonIsHeld(cfg: Config, s: System, v: nat, m: MessageId)
    requires Safe(cfg, s)
    ensures WonHead(s, v, m) ==> m < |s.db.rows| && s.db.rows[m].status != Queued
  {
    if WonHead(s, v, m) {
      assert HeldAt(s, v, 0) && ClaimOk(cfg, s, ClaimAt(s, v, 0));
    }
  }

  predicate Untouched(s: System, m: MessageId) {
    || m >= |s.db.rows|
    || s.db.rows[m].status == Queued
    || (InQueue(s.db.rows[m].status) && forall w :: w in s.holders ==> s.holders[w].batch == [])
  }

  /** Whoever won a row still holds it: it is neither queued nor new, and a quiet boot sees no holder. */
  lemma UntouchedIsNotAccepted(cfg: Config, s: System, m: MessageId)
    requires Safe(cfg, s) && SafeAccept(s) && Untouched(s, m)
    ensures Count(s.hist, CarrierAccepted, m) == 0
  {
    assert AcceptOk(s, m);
    forall v ensures WonHead(s, v, m) ==> Working(s, v) && m < |s.db.rows| && s.db.rows[m].status != Queued {
      WonIsHeld(cfg, s, v, m);
    }
  }

  lemma NewClaimUntouched(cfg: Config, s: System, step: Step, i: nat)
    requires Enabled(cfg, s, step) && QuietAt(s, step) && AddsHolder(step) && HeldAt(Apply(cfg, s, step), step.w, i)
    ensures var t := Apply(cfg, s, step);
      Untouched(s, ClaimAt(t, step.w, i).id) && t.holders[step.w].phase == Ready
  {
  }

  lemma OtherHoldersKeep(cfg: Config, s: System, step: Step, w: nat)
    requires Enabled(cfg, s, step) && AddsHolder(step) && w != step.w && w in Apply(cfg, s, step).holders
    ensures w in s.holders && Apply(cfg, s, step).holders[w] == s.holders[w]
  {
  }

  lemma StepNewClaimAccepted(cfg: Config, s: System, step: Step, t: System, w: nat, i: nat)
    requires Safe(cfg, s) && SafeAccept(s) && Enabled(cfg, s, step) && QuietAt(s, step)
    requires AddsHolder(step) && t == Apply(cfg, s, step) && HeldAt(t, w, i)
    ensures ClaimAccepted(t, w, i)
  {
    StepCount(cfg, s, step, CarrierAccepted, ClaimAt(t, w, i).id);
    StepCount(cfg, s, step, Billed, ClaimAt(t, w, i).id);
    if w != step.w {
      OtherHoldersKeep(cfg, s, step, w);
      assert HeldAt(s, w, i) && ClaimAccepted(s, w, i);
    } else {
      NewClaimUntouched(cfg, s, step, i);
      UntouchedIsNotAccepted(cfg, s, ClaimAt(t, w, i).id);
    }
  }

  lemma StepKeepsWonHead(cfg: Config, s: System, step: Step, w: nat, m: MessageId)
    requires Enabled(cfg, s, step) && FinalWriteAt(s, step) && WonHead(s, w, m) && ClaimOk(cfg, s, Head(s, w))
    ensures var t := Apply(cfg, s, step);
      WonHead(t, w, m) || (m < |t.db.rows| && !InQueue(t.db.rows[m].status))
  {
  }

  /** What a step may record for a message, given what is recorded already. */
  lemma EmissionsFit(cfg: Config, s: System, step: Step, m: MessageId)
    requires Enabled(cfg, s, step)
    requires ActsOnHead(step) ==>
      HeldAt(s, step.w, 0) && ClaimAccepted(s, step.w, 0) && ClaimOk(cfg, s, ClaimAt(s, step.w, 0))
    ensures var a, b := Emits(cfg, s, step, CarrierAccepted, m), Emits(cfg, s, step, Billed, m);
      var r := Emits(cfg, s, step, Refunded, m);
      && a + b + r <= 1
      && (a + r == 1 ==> Count(s.hist, CarrierAccepted, m) == 0 && Count(s.hist, Refunded, m) == 0)
      && (b == 1 ==> Count(s.hist, CarrierAccepted, m) == 1 && Count(s.hist, Billed, m) == 0)
  {
  }

  lemma CountsFit(s: System, t: System, m: MessageId, a: nat, b: nat, r: nat)
    requires AcceptOk(s, m) && RefundOk(s, m) && a + b + r <= 1
    requires Count(t.hist, CarrierAccepted, m) == Count(s.hist, CarrierAccepted, m) + a
    requires Count(t.hist, Billed, m) == Count(s.hist, Billed, m) + b
    requires Count(t.hist, Refunded, m) == Count(s.hist, Refunded, m) + r
    requires a + r == 1 ==> Count(s.hist, CarrierAccepted, m) == 0 && Count(s.hist, Refunded, m) == 0
    requires b == 1 ==> Count(s.hist, CarrierAccepted, m) == 1 && Count(s.hist, Billed, m) == 0
    ensures Count(t.hist, Billed, m) <= Count(t.hist, CarrierAccepted, m) <= 1
    ensures Count(t.hist, Refunded, m) + Count(t.hist, CarrierAccepted, m) <= 1
  {
  }

  lemma StepAcceptCounts(cfg: Config, s: System, step: Step, t: System, m: MessageId)
    requires Enabled(cfg, s, step) && t == Apply(cfg, s, step)
    requires AcceptOk(s, m) && RefundOk(s, m)
    requires ActsOnHead(step) ==>
      HeldAt(s, step.w, 0) && ClaimAccepted(s, step.w, 0) && ClaimOk(cfg, s, ClaimAt(s, step.w, 0))
    ensures && Count(t.hist, Billed, m) <= Count(t.hist, CarrierAccepted, m) <= 1
            && Count(t.hist, Refunded, m) + Count(t.hist, CarrierAccepted, m) <= 1
  {
    StepCount(cfg, s, step, CarrierAccepted, m);
    StepCount(cfg, s, step, Billed, m);
    StepCount(cfg, s, step, Refunded, m);
    EmissionsFit(cfg, s, step, m);
    CountsFit(s, t, m, Emits(cfg, s, step, CarrierAccepted, m), Emits(cfg, s, step, Billed, m),
      Emits(cfg, s, step, Refunded, m));
  }

  lemma StepGoodHands(cfg: Config, s: System, step: Step, m: MessageId)
    requires Safe(cfg, s) && Enabled(cfg, s, step) && FinalWriteAt(s, step) && InGoodHands(s, m)
    ensures InGoodHands(Apply(cfg, s, step), m)
  {
    if InQueue(s.db.rows[m].status) {
      var w :| WonHead(s, w, m);
      assert HeldAt(s, w, 0) && ClaimOk(cfg, s, ClaimAt(s, w, 0));
      StepKeepsWonHead(cfg, s, step, w, m);
      StepRow(cfg, s, step, m);
    } else {
      StepNeverRequeues(cfg, s, step, m);
    }
  }

  lemma AcceptanceIsInGoodHands(cfg: Config, s: System, step: Step)
    requires Safe(cfg, s) && Enabled(cfg, s, step) && step.Dispatch? && step.accepted
    ensures InGoodHands(Apply(cfg, s, step), Head(s, step.w).id)
  {
    assert HeldAt(s, step.w, 0) && ClaimOk(cfg, s, ClaimAt(s, step.w, 0));
    assert WonHead(Apply(cfg, s, step), step.w, Head(s, step.w).id);
  }

  lemma StepAcceptHands(cfg: Config, s: System, step: Step, t: System, m: MessageId)
    requires Safe(cfg, s) && AcceptOk(s, m) && Enabled(cfg, s, step) && FinalWriteAt(s, step)
    requires t == Apply(cfg, s, step)
    ensures Count(t.hist, CarrierAccepted, m) == 1 ==> InGoodHands(t, m)
  {
    if Count(s.hist, CarrierAccepted, m) == 1 {
      StepGoodHands(cfg, s, step, m);
    } else if step.Dispatch? && step.accepted && Head(s, step.w).id == m {
      AcceptanceIsInGoodHands(cfg, s, step);
    } else {
      StepCount(cfg, s, step, CarrierAccepted, m);
    }
  }

  lemma StepAcceptOk(cfg: Config, s: System, step: Step, t: System, m: MessageId)
    requires Safe(cfg, s) && SafeAccept(s) && Enabled(cfg, s, step) && FinalWriteAt(s, step) && t == Apply(cfg, s, step)
    ensures AcceptOk(t, m)
  {
    assert AcceptOk(s, m) && RefundOk(s, m);
    if ActsOnHead(step) {
      assert HeldAt(s, step.w, 0) && ClaimAccepted(s, step.w, 0) && ClaimOk(cfg, s, ClaimAt(s, step.w, 0));
    }
    StepAcceptCounts(cfg, s, step, t, m);
    StepAcceptHands(cfg, s, step, t, m);
  }

  lemma StepSafeAccept(cfg: Config, s: System, step: Step)
    requires Safe(cfg, s) && SafeAccept(s) && Enabled(cfg, s, step) && QuietAt(s, step) && FinalWriteAt(s, step)
    ensures SafeAccept(Apply(cfg, s, step))
  {
    var t := Apply(cfg, s, step);
    forall w, i | HeldAt(t, w, i) ensures ClaimAccepted(t, w, i) {
      if AddsHolder(step) {
        StepNewClaimAccepted(cfg, s, step, t, w, i);
      } else {
        StepOldClaimAccepted(cfg, s, step, t, w, i);
      }
    }
    forall m: MessageId ensures AcceptOk(t, m) { StepAcceptOk(cfg, s, step, t, m); }
  }

  lemma {:induction false} RunSafeAccept(cfg: Config, r: Run, k: nat)
    requires IsRun(cfg, r) && Leased(cfg, r) && QuietBoot(r) && FinalWrites(r) && k < |r.states|
    ensures SafeAccept(r.states[k])
  {
    if k > 0 {
      RunSafe(cfg, r, k - 1);
      RunSafeAccept(cfg, r, k - 1);
      StepSafeAccept(cfg, r.states[k - 1], r.steps[k - 1]);
    }
  }

  /** No message is accepted twice, or both refunded and accepted, and a carrier is billed only for what it accepted. */
  lemma AcceptedOnceNeverRefunded(cfg: Config, r: Run, k: nat, m: MessageId)
    requires IsRun(cfg, r) && Leased(cfg, r) && QuietBoot(r) && FinalWrites(r) && k < |r.states|
    ensures var h := r.states[k].hist;
      && Count(h, Billed, m) <= Count(h, CarrierAccepted, m)
      && Count(h, Refunded, m) + Count(h, CarrierAccepted, m) <= 1
  {
    RunSafe(cfg, r, k);
    RunSafeAccept(cfg, r, k);
    assert RefundOk(r.states[k], m) && AcceptOk(r.states[k], m);
  }

  lemma {:induction false} CountsGrow(cfg: Config, r: Run, i: nat, j: nat, kind: EventKind, m: MessageId)
    requires IsRun(cfg, r) && i <= j < |r.states|
    ensures Count(r.states[i].hist, kind, m) <= Count(r.states[j].hist, kind, m)
    decreases j - i
  {
    if i < j {
      StepCount(cfg, r.states[i], r.steps[i], kind, m);
      CountsGrow(cfg, r, i + 1, j, kind, m);
    }
  }

  lemma StepNotRedispatched(cfg: Config, s: System, step: Step, m: MessageId)
    requires SafeAccept(s) && Enabled(cfg, s, step) && Count(s.hist, CarrierAccepted, m) > 0
    ensures Count(Apply(cfg, s, step).hist, Dispatched, m) == Count(s.hist, Dispatched, m)
  {
    StepCount(cfg, s, step, Dispatched, m);
    if step.Dispatch? { assert HeldAt(s, step.w, 0) && ClaimAccepted(s, step.w, 0); }
  }

  /** Once a carrier has accepted a message, no later step dispatches it again: the number of dispatches is final. */
  lemma {:induction false} AcceptedIsNeverRedispatched(cfg: Config, r: Run, i: nat, j: nat, m: MessageId)
    requires IsRun(cfg, r) && Leased(cfg, r) && QuietBoot(r) && FinalWrites(r) && i <= j < |r.states|
    requires Count(r.states[i].hist, CarrierAccepted, m) > 0
    ensures Count(r.states[j].hist, Dispatched, m) == Count(r.states[i].hist, Dispatched, m)
    decreases j - i
  {
    if i < j {
      RunSafeAccept(cfg, r, i);
      StepNotRedispatched(cfg, r.states[i], r.steps[i], m);
      CountsGrow(cfg, r, i, i + 1, CarrierAccepted, m);
      AcceptedIsNeverRedispatched(cfg, r, i + 1, j, m);
    }
  }

  // ---- the final-write hypothesis is exact ----

  predicate LosesWrite(step: Step) { step.Crash? || (step.Force? && !step.ok) }

  /** A worker with an accepted message in hand whose exit write this step loses. */
  predicate Abandons(s: System, step: Step, w: nat) {
    Working(s, w) && Exiting(s.holders[w].phase) && (step.Crash? || (step.Force? && step.w == w))
  }

  predicate AbandonsQueued(s: System, step: Step, w: nat) {
    Abandons(s, step, w) && Head(s, w).id < |s.db.rows| && InQueue(s.db.rows[Head(s, w).id].status)
  }

  lemma LostWriteKeepsRest(cfg: Config, s: System, step: Step, t: System, v: nat, m: MessageId)
    requires Enabled(cfg, s, step) && LosesWrite(step) && t == Apply(cfg, s, step)
    ensures t.db == s.db && t.hist == s.hist
    ensures WonHead(s, v, m) && !Abandons(s, step, v) ==> WonHead(t, v, m)
    ensures WonHead(t, v, m) ==> WonHead(s, v, m) && !Abandons(s, step, v)
  {
  }

  lemma AbandonedIsNotInGoodHands(cfg: Config, s: System, step: Step, t: System, w: nat)
    requires Safe(cfg, s) && SafeAccept(s) && Enabled(cfg, s, step) && LosesWrite(step) && t == Apply(cfg, s, step)
    requires AbandonsQueued(s, step, w)
    ensures !SafeAccept(t)
  {
    var m := Head(s, w).id;
    assert HeldAt(s, w, 0) && ClaimAccepted(s, w, 0);
    LostWriteKeepsRest(cfg, s, step, t, w, m);
    forall v ensures !WonHead(t, v, m) {
      LostWriteKeepsRest(cfg, s, step, t, v, m);
      if WonHead(t, v, m) { HeldElsewhere(cfg, s, w, v, 0); }
    }
    assert !InGoodHands(t, m) && !AcceptOk(t, m);
  }

  lemma OthersStayInGoodHands(cfg: Config, s: System, step: Step, t: System, m: MessageId)
    requires AcceptOk(s, m) && Enabled(cfg, s, step) && LosesWrite(step) && t == Apply(cfg, s, step)
    requires forall w :: !AbandonsQueued(s, step, w)
    ensures AcceptOk(t, m)
  {
    LostWriteKeepsRest(cfg, s, step, t, 0, m);
    if Count(s.hist, CarrierAccepted, m) == 1 && InQueue(s.db.rows[m].status) {
      var w :| WonHead(s, w, m);
      assert !AbandonsQueued(s, step, w);
      LostWriteKeepsRest(cfg, s, step, t, w, m);
    }
  }

  /**
   A crash or a failed forced write is harmless exactly when no accepted message it abandons is still in
   the queue.
   */
  lemma LostWriteIsSafeExactly(cfg: Config, s: System, step: Step)
    requires Safe(cfg, s) && SafeAccept(s) && Enabled(cfg, s, step) && LosesWrite(step)
    ensures SafeAccept(Apply(cfg, s, step)) <==> forall w :: !AbandonsQueued(s, step, w)
  {
    var t := Apply(cfg, s, step);
    if w :| AbandonsQueued(s, step, w) {
      AbandonedIsNotInGoodHands(cfg, s, step, t, w);
    } else {
      forall w, i | HeldAt(t, w, i) ensures ClaimAccepted(t, w, i) { StepOldClaimAccepted(cfg, s, step, t, w, i); }
      forall m: MessageId ensures AcceptOk(t, m) { assert AcceptOk(s, m); OthersStayInGoodHands(cfg, s, step, t, m); }
    }
  }
}
