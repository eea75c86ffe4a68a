/**
 Delivery receipts for one message, under interleaving. An inbound receipt is three separate steps
 on the shared row (read, guarded update, forward to the client), and so is the age-out sweep (list,
 guarded update, notify); any number of either run at once, beside the send pipeline's own writes.
 The exit writes carry no status guard, so any number of them may come, at any time: a holder that
 lost its lease, or whose message the boot recovery has listed, makes its exit write all the same.
 */
module Receipts {
  import opened Options
  import opened SmsRows

  datatype Stage = Waiting | Seen(hadPrior: bool) | Forwarding | Finished

  datatype Actor = Receiver(status: Dlr, stage: Stage) | Sweep(stage: Stage)

  datatype State = State(
    row: Row,
    actors: map<nat, Actor>,
    now: int,
    // observations
    exits: nat,                // exit writes made
    hides: nat,                // writes to 'accepted' that found a final receipt stored
    hidden: bool,              // the last one did
    finals: seq<Dlr>,          // final statuses recorded, in order
    forwards: seq<Dlr>)        // what the client has been sent

  datatype Step =
    | Clock(elapsed: nat)
    | Arrive(p: nat, d: Dlr)
    | See(p: nat)
    | Update(p: nat)
    | Forward(p: nat)
    | ListForAgeing(p: nat, olderThan: int)
    | Mark(p: nat)
    | Die(p: nat)
    | Claim
    | Return(next: int)        // by a requeue or by the reaper
    | ExitAccept(carrier: nat)
    | ExitForce(carrier: nat)
    | ExitUndeliver
    | ExitFail

  // shouldForwardDLR: the first receipt, and any that reaches a final state.
  predicate ShouldForward(hadPrior: bool, d: Dlr) { !hadPrior || IsFinal(d) }

  predicate IsAt(s: State, p: nat, receiver: bool, stage: Stage) {
    p in s.actors && s.actors[p].Receiver? == receiver && s.actors[p].stage == stage
  }

  function Stand(s: State, p: nat, stage: Stage): State
    requires p in s.actors
  {
    s.(actors := s.actors[p := s.actors[p].(stage := stage)])
  }

  predicate Enabled(s: State, step: Step) {
    match step
    case Clock(_) => true
    case Arrive(p, _) => p !in s.actors
    case See(p) => IsAt(s, p, true, Waiting)
    case Update(p) => p in s.actors && s.actors[p].Receiver? && s.actors[p].stage.Seen?
    case Forward(p) => p in s.actors && s.actors[p].stage == Forwarding && s.row.dlrStatus.Some?
    case ListForAgeing(p, olderThan) =>
      p !in s.actors && AgeCandidate(s.row, olderThan)
    case Mark(p) => IsAt(s, p, false, Waiting)
    case Die(p) => p in s.actors
    case Claim => s.row.status == Queued
    case Return(_) => s.row.status == Sending
    case ExitAccept(_) => true
    case ExitForce(_) => s.row.status == Sending   // no other row matches
    case ExitUndeliver => true
    case ExitFail => true
  }

  predicate IsExit(step: Step) { step.ExitAccept? || step.ExitForce? || step.ExitUndeliver? || step.ExitFail? }

  /** An exit write that leaves the row 'accepted'. */
  function Accepting(s: State, row: Row): State {
    s.(row := row, exits := s.exits + 1, hidden := HasFinal(s.row), hides := s.hides + if HasFinal(s.row) then 1 else 0)
  }

  function Apply(s: State, step: Step): State
    requires Enabled(s, step)
  {
    match step
    case Clock(elapsed) => s.(now := s.now + elapsed)
    case Arrive(p, d) => s.(actors := s.actors[p := Receiver(d, Waiting)])
    case See(p) => Stand(s, p, Seen(s.row.dlrReceivedAt.Some?))
    case Update(p) =>
      var a := s.actors[p];
      if HasFinal(s.row) then Stand(s, p, Finished)
      else
        var next := if s.row.dlrRequested && ShouldForward(a.stage.hadPrior, a.status) then Forwarding else Finished;
        var t := Stand(s.(row := ReceiptRow(s.row, a.status, s.now)), p, next);
        if IsFinal(a.status) then t.(finals := s.finals + [a.status]) else t
    case Forward(p) =>
      // A receipt forwards what it carried; the sweep reads the stored status back.
      var d := if s.actors[p].Receiver? then s.actors[p].status else s.row.dlrStatus.value;
      Stand(s.(forwards := s.forwards + [d]), p, Finished)
    case ListForAgeing(p, _) => s.(actors := s.actors[p := Sweep(Waiting)])
    case Mark(p) =>
      if !AgeOutApplies(s.row) then Stand(s, p, Finished)
      else Stand(s.(row := AgeOutRow(s.row, s.now), finals := s.finals + [DlrUndelivered]), p, Forwarding)
    case Die(p) => Stand(s, p, Finished)
    case Claim => s.(row := ClaimRow(s.row, s.now))
    case Return(next) => s.(row := RequeueRow(s.row, next))
    case ExitAccept(carrier) => Accepting(s, AcceptRow(s.row, carrier))
    case ExitForce(carrier) => Accepting(s, ForceAcceptRow(s.row, carrier))
    case ExitUndeliver => s.(row := UndeliverRow(s.row), exits := s.exits + 1)
    case ExitFail => s.(row := FailRow(s.row), exits := s.exits + 1)
  }

  ghost predicate Init(s: State) {
    && InQueue(s.row.status) && s.row.dlrStatus.None? && s.row.dlrReceivedAt.None?
    && s.actors == map[] && s.exits == s.hides == 0 && !s.hidden && s.finals == [] && s.forwards == []
  }

  datatype Run = Run(states: seq<State>, steps: seq<Step>)

  ghost predicate IsRun(r: Run) {
    && |r.states| == |r.steps| + 1 && Init(r.states[0])
    && forall k :: 0 <= k < |r.steps| ==>
      Enabled(r.states[k], r.steps[k]) && r.states[k + 1] == Apply(r.states[k], r.steps[k])
  }

  /** Receipt after accept: no receipt is applied before the first exit write. */
  ghost predicate ReceiptsAfterExit(r: Run) {
    |r.steps| < |r.states| && forall k :: 0 <= k < |r.steps| ==> r.steps[k].Update? ==> r.states[k].exits > 0
  }

  ghost predicate ExitsWithin(r: Run, n: nat) {
    forall k :: 0 <= k < |r.states| ==> r.states[k].exits <= n
  }

  /** The message is written out of the queue at most once. The lease and a quiet boot see to it. */
  ghost predicate SingleExit(r: Run) { ExitsWithin(r, 1) }

  predicate Midway(s: State, p: nat) { p in s.actors && (s.actors[p].stage.Seen? || s.actors[p].stage == Forwarding) }

  /** One after another: nobody starts while another actor is between its first step and its last. */
  ghost predicate Serial(r: Run) {
    |r.steps| < |r.states| && forall k :: 0 <= k < |r.steps| ==>
      r.steps[k].See? || r.steps[k].Mark? ==> forall p: nat :: !Midway(r.states[k], p)
  }

  // ---- the stored final status ----

  /** An 'accepted' row whose final receipt the last write to 'accepted' has hidden from the age-out guard. */
  predicate Concealed(s: State) { AgeOutApplies(s.row) && s.hidden }

  ghost predicate StatusOk(s: State) {
    && (HasFinal(s.row) <==> s.finals != [])
    && (s.finals != [] ==> s.row.dlrStatus == Some(s.finals[|s.finals| - 1]))
    && (AgeOutApplies(s.row) ==> s.exits > 0 && (HasFinal(s.row) <==> s.hidden))
    && (s.exits > 0 ==> !InQueue(s.row.status))
  }

  ghost predicate CountOk(s: State) {
    && |s.finals| + (if Concealed(s) then 1 else 0) <= 1 + s.hides
    && (s.finals == [] ==> s.hides == 0) && (s.hidden ==> s.hides > 0) && s.hides <= s.exits
    && forall i :: 1 <= i < |s.finals| ==> s.finals[i] == DlrUndelivered
  }

  ghost predicate FinalsOk(s: State) { StatusOk(s) && CountOk(s) }

  lemma StepStatusOk(s: State, step: Step)
    requires StatusOk(s) && Enabled(s, step)
    ensures StatusOk(Apply(s, step))
  {
  }

  lemma StepCountOk(s: State, step: Step)
    requires StatusOk(s) && CountOk(s) && Enabled(s, step)
    ensures CountOk(Apply(s, step))
  {
  }

  lemma {:induction false} RunFinalsOk(r: Run, k: nat)
    requires IsRun(r) && k < |r.states|
    ensures FinalsOk(r.states[k])
  {
    if k > 0 {
      RunFinalsOk(r, k - 1);
      StepStatusOk(r.states[k - 1], r.steps[k - 1]);
      StepCountOk(r.states[k - 1], r.steps[k - 1]);
    }
  }

  /**
   In every run: an age-out that applies overwrites a final receipt exactly when the last write to
   'accepted' found one stored; and there is at most one final status more than such writes.
   */
  lemma AgeOutOverwritesExactly(r: Run, k: nat)
    requires IsRun(r) && k < |r.states|
    ensures var s := r.states[k];
      && (AgeOutApplies(s.row) ==> (HasFinal(s.row) <==> s.hidden))
      && |s.finals| <= 1 + s.hides <= 1 + s.exits
      && forall i :: 1 <= i < |s.finals| ==> s.finals[i] == DlrUndelivered
  {
    RunFinalsOk(r, k);
  }

  /** With a final status stored, only an age-out of an 'accepted' row records another. */
  lemma OnlyAgeOutRecordsAnother(s: State, step: Step)
    requires HasFinal(s.row) && Enabled(s, step)
    ensures Apply(s, step).finals != s.finals <==> step.Mark? && AgeOutApplies(s.row)
    ensures Apply(s, step).finals != s.finals ==> Apply(s, step).finals == s.finals + [DlrUndelivered]
  {
    assert |s.finals + [DlrUndelivered]| != |s.finals|;
  }

  /** No sweep marks the row while its final receipt is concealed. */
  ghost predicate NoConcealedMark(r: Run) {
    |r.steps| < |r.states| && forall k :: 0 <= k < |r.steps| ==> r.steps[k].Mark? ==> !Concealed(r.states[k])
  }

  lemma {:induction false} FinalsGrow(r: Run, j: nat, k: nat)
    requires IsRun(r) && j <= k < |r.states|
    ensures |r.states[j].finals| <= |r.states[k].finals| && r.states[j].exits <= r.states[k].exits
  {
    if j < k { FinalsGrow(r, j, k - 1); }
  }

  lemma {:induction false} UnconcealedFinals(r: Run, k: nat)
    requires IsRun(r) && NoConcealedMark(r) && k < |r.states|
    ensures |r.states[k].finals| <= 1
  {
    if k > 0 {
      UnconcealedFinals(r, k - 1);
      RunFinalsOk(r, k - 1);
    }
  }

  /**
   Every run records at most one final status exactly when no sweep marks the row while its final
   receipt is concealed.
   */
  lemma OneFinalExactly(r: Run)
    requires IsRun(r)
    ensures |r.states[|r.steps|].finals| <= 1 <==> NoConcealedMark(r)
  {
    if NoConcealedMark(r) {
      UnconcealedFinals(r, |r.steps|);
    } else {
      var k :| 0 <= k < |r.steps| && r.steps[k].Mark? && Concealed(r.states[k]);
      RunFinalsOk(r, k);
      FinalsGrow(r, k + 1, |r.steps|);
    }
  }

  /** The first exit write has hidden nothing. */
  ghost predicate FirstHidNothing(s: State) { if s.exits == 0 then s.finals == [] else s.hides < s.exits }

  lemma StepFirstHidNothing(s: State, step: Step)
    requires FinalsOk(s) && FirstHidNothing(s) && Enabled(s, step) && (step.Update? ==> s.exits > 0)
    ensures FirstHidNothing(Apply(s, step))
  {
  }

  lemma {:induction false} FirstExitHidesNothing(r: Run, k: nat)
    requires IsRun(r) && ReceiptsAfterExit(r) && k < |r.states|
    ensures FirstHidNothing(r.states[k])
  {
    if k > 0 {
      FirstExitHidesNothing(r, k - 1);
      RunFinalsOk(r, k - 1);
      StepFirstHidNothing(r.states[k - 1], r.steps[k - 1]);
    }
  }

  lemma NeverHidden(r: Run, k: nat)
    requires IsRun(r) && ReceiptsAfterExit(r) && SingleExit(r) && k < |r.states|
    ensures r.states[k].hides == 0 && (HasFinal(r.states[k].row) ==> r.states[k].exits == 1)
  {
    FirstExitHidesNothing(r, k);
    RunFinalsOk(r, k);
  }

  /**
   With one exit write, and receipts after it, one final status is recorded at most, it is the stored
   one, and it never changes.
   */
  lemma {:induction false} OneFinalStatus(r: Run, i: nat, j: nat)
    requires IsRun(r) && ReceiptsAfterExit(r) && SingleExit(r) && i <= j < |r.states|
    ensures |r.states[j].finals| <= 1 && (HasFinal(r.states[j].row) <==> |r.states[j].finals| == 1)
    ensures HasFinal(r.states[i].row) ==>
      && r.states[j].row.dlrStatus == r.states[i].row.dlrStatus == Some(r.states[j].finals[0])
      && r.states[j].row.status == r.states[i].row.status
      && !AgeOutApplies(r.states[j].row)
    decreases j - i
  {
    NeverHidden(r, i);
    NeverHidden(r, j);
    RunFinalsOk(r, i);
    RunFinalsOk(r, j);
    if i < j {
      OneFinalStatus(r, i + 1, j);
    }
  }

  // ---- the status a receipt leaves ----

  /** The row's status is the one its final receipt reports. */
  predicate StatusTells(r: Row) {
    && (r.dlrStatus == Some(DlrDelivered) ==> r.status == Delivered)
    && (r.dlrStatus == Some(DlrUndelivered) ==> r.status == Failed)
    && (r.dlrStatus == Some(DlrRejected) ==> r.status == Rejected)
  }

  /** Of the steps that find no final receipt, those that store one set the status it reports. */
  lemma StepStatusTells(s: State, step: Step)
    requires StatusOk(s) && StatusTells(s.row) && Enabled(s, step)
    requires HasFinal(s.row) ==> s.exits > 0 && !AgeOutApplies(s.row) && !IsExit(step)
    ensures StatusTells(Apply(s, step).row)
  {
  }

  lemma ExitCounts(s: State, step: Step)
    requires Enabled(s, step) && IsExit(step)
    ensures Apply(s, step).exits == s.exits + 1
  {
  }

  /** With one exit write and receipts after it, the status is the one the stored final receipt reports. */
  lemma {:induction false} StatusFollowsReceipt(r: Run, k: nat)
    requires IsRun(r) && ReceiptsAfterExit(r) && SingleExit(r) && k < |r.states|
    ensures StatusTells(r.states[k].row)
  {
    if k > 0 {
      var s, step := r.states[k - 1], r.steps[k - 1];
      StatusFollowsReceipt(r, k - 1);
      NeverHidden(r, k - 1);
      RunFinalsOk(r, k - 1);
      if IsExit(step) {
        ExitCounts(s, step);
        assert r.states[k].exits <= 1;
      }
      StepStatusTells(s, step);
    }
  }

  /** In every run an intermediate receipt, and a receipt that comes too late, leave the status as it is. */
  lemma OtherReceiptsKeepStatus(s: State, p: nat)
    requires Enabled(s, Update(p)) && (s.actors[p].status == DlrUnknown || HasFinal(s.row))
    ensures Apply(s, Update(p)).row.status == s.row.status
    ensures HasFinal(s.row) ==> Apply(s, Update(p)).row == s.row
  {
  }
}
