/**
 What the client is sent, over every interleaving of receipts and sweeps: each forward goes back to a
 final status recorded or to one decision, and when there is at most one decision.
 */
module ReceiptForwards {
  import opened SmsRows
  import opened Receipts

  function Finals(ds: seq<Dlr>): nat {
    if ds == [] then 0 else Finals(ds[..|ds| - 1]) + if IsFinal(ds[|ds| - 1]) then 1 else 0
  }

  lemma FinalsAppend(ds: seq<Dlr>, d: Dlr)
    ensures Finals(ds + [d]) == Finals(ds) + if IsFinal(d) then 1 else 0
  {
    assert (ds + [d])[..|ds|] == ds;
  }

  /** This step decides to forward an intermediate receipt. */
  predicate Decides(s: State, step: Step) {
    && step.Update? && step.p in s.actors
    && s.actors[step.p].Receiver? && s.actors[step.p].stage == Seen(false) && !IsFinal(s.actors[step.p].status)
    && !HasFinal(s.row) && s.row.dlrRequested
  }

  function Decisions(r: Run, k: nat): nat
    requires k <= |r.steps| <= |r.states|
  {
    if k == 0 then 0 else Decisions(r, k - 1) + if Decides(r.states[k - 1], r.steps[k - 1]) then 1 else 0
  }

  /** A decision taken on a read that an applied receipt has overtaken. */
  predicate Stale(s: State, step: Step) { Decides(s, step) && s.row.dlrReceivedAt.Some? }

  ghost predicate NoStaleDecision(r: Run) {
    |r.steps| < |r.states| && forall k :: 0 <= k < |r.steps| ==> !Stale(r.states[k], r.steps[k])
  }

  ghost predicate DecidedOk(s: State, decisions: nat) {
    && (s.row.dlrReceivedAt.None? ==> decisions == 0 && s.row.dlrStatus.None?)
    && (s.row.dlrReceivedAt.Some? && s.row.dlrRequested && !HasFinal(s.row) ==> decisions >= 1)
    && (forall p :: p in s.actors && s.actors[p].stage == Seen(true) ==> s.row.dlrReceivedAt.Some?)
  }

  lemma StepDecidedOk(s: State, step: Step, d: nat)
    requires Enabled(s, step) && DecidedOk(s, d)
    ensures DecidedOk(Apply(s, step), d + if Decides(s, step) then 1 else 0)
  {
  }

  lemma {:induction false} RunDecidedOk(r: Run, k: nat)
    requires IsRun(r) && k < |r.states|
    ensures DecidedOk(r.states[k], Decisions(r, k))
  {
    if k > 0 {
      RunDecidedOk(r, k - 1);
      StepDecidedOk(r.states[k - 1], r.steps[k - 1], Decisions(r, k - 1));
    }
  }

  lemma {:induction false} DecisionsGrow(r: Run, j: nat, k: nat)
    requires j <= k <= |r.steps| <= |r.states|
    ensures Decisions(r, j) <= Decisions(r, k)
  {
    if j < k { DecisionsGrow(r, j, k - 1); }
  }

  lemma {:induction false} FreshDecisionsAreOne(r: Run, k: nat)
    requires IsRun(r) && NoStaleDecision(r) && k < |r.states|
    ensures Decisions(r, k) <= 1
  {
    if k > 0 {
      FreshDecisionsAreOne(r, k - 1);
      RunDecidedOk(r, k - 1);
    }
  }

  /**
   At most one intermediate receipt is chosen for forwarding exactly when no such choice is made on a
   read that an applied receipt has overtaken. This holds of every run.
   */
  lemma OneInterimExactly(r: Run)
    requires IsRun(r)
    ensures Decisions(r, |r.steps|) <= 1 <==> NoStaleDecision(r)
  {
    if NoStaleDecision(r) {
      FreshDecisionsAreOne(r, |r.steps|);
    } else {
      var k :| 0 <= k < |r.steps| && Stale(r.states[k], r.steps[k]);
      RunDecidedOk(r, k);
      DecisionsGrow(r, k + 1, |r.steps|);
    }
  }

  // ---- who carries what to the client ----

  /** This step records a final status. */
  predicate Records(s: State, step: Step) {
    || (step.Update? && step.p in s.actors && s.actors[step.p].Receiver? && !HasFinal(s.row)
        && IsFinal(s.actors[step.p].status))
    || (step.Mark? && AgeOutApplies(s.row))
  }

  /** About to forward: a final status, which is all a sweep forwards, or an intermediate receipt. */
  predicate Carries(s: State, p: nat, final: bool) {
    && p in s.actors && s.actors[p].stage == Forwarding
    && ((s.actors[p].Sweep? || IsFinal(s.actors[p].status)) <==> final)
  }

  function Carriers(s: State, final: bool): set<nat> { set p | p in s.actors && Carries(s, p, final) }

  predicate Notifying(s: State, p: nat) { p in s.actors && s.actors[p].Sweep? && s.actors[p].stage == Forwarding }

  ghost predicate NotifiersOk(s: State) { forall p: nat :: Notifying(s, p) ==> HasFinal(s.row) }

  /** Every forward made, and every one about to be made, goes back to a status recorded or to a decision. */
  ghost predicate ForwardsOk(s: State, decisions: nat) {
    && Finals(s.forwards) + |Carriers(s, true)| <= |s.finals|
    && |s.forwards| - Finals(s.forwards) + |Carriers(s, false)| <= decisions
    && NotifiersOk(s)
  }

  /** Who carries what after a step. */
  lemma StepCarriers(s: State, step: Step, final: bool)
    requires Enabled(s, step)
    ensures var t := Apply(s, step);
      var adds := if final then Records(s, step) else Decides(s, step);
      && (adds ==> Carriers(t, final) <= Carriers(s, final) + {step.p})
      && (!adds ==> Carriers(t, final) <= Carriers(s, final))
      && (step.Forward? ==> Carriers(t, final) == Carriers(s, final) - {step.p})
  {
  }

  lemma SmallerSet(a: set<nat>, b: set<nat>, p: nat)
    requires a <= b + {p}
    ensures |a| <= |b| + 1 && (a <= b ==> |a| <= |b|)
  {
    SubsetSize(a, b + {p});
    if a <= b { SubsetSize(a, b); }
  }

  lemma {:induction false} SubsetSize(a: set<nat>, b: set<nat>)
    requires a <= b
    ensures |a| <= |b|
  {
    if a != {} {
      var x :| x in a;
      SubsetSize(a - {x}, b - {x});
    }
  }

  /** What actor p forwards: its own receipt, or the status stored. */
  function Load(s: State, p: nat): Dlr
    requires Enabled(s, Forward(p))
  {
    if s.actors[p].Receiver? then s.actors[p].status else s.row.dlrStatus.value
  }

  lemma ForwardStep(s: State, p: nat, decisions: nat)
    requires ForwardsOk(s, decisions) && Enabled(s, Forward(p))
    ensures ForwardsOk(Apply(s, Forward(p)), decisions)
  {
    StepCarriers(s, Forward(p), true);
    StepCarriers(s, Forward(p), false);
    FinalsAppend(s.forwards, Load(s, p));
    assert Notifying(s, p) || s.actors[p].Receiver?;
    assert p in Carriers(s, IsFinal(Load(s, p))) && p !in Carriers(s, !IsFinal(Load(s, p)));
    assert Carriers(s, !IsFinal(Load(s, p))) - {p} == Carriers(s, !IsFinal(Load(s, p)));
    forall q: nat ensures Notifying(Apply(s, Forward(p)), q) ==> HasFinal(s.row) {
      NotifyingHasFinal(s, Forward(p), q);
    }
  }

  lemma NotifyingHasFinal(s: State, step: Step, p: nat)
    requires Enabled(s, step) && (Notifying(s, p) ==> HasFinal(s.row))
    ensures Notifying(Apply(s, step), p) ==> HasFinal(Apply(s, step).row)
  {
  }

  lemma RecordsOne(s: State, step: Step)
    requires Enabled(s, step)
    ensures |Apply(s, step).finals| == |s.finals| + if Records(s, step) then 1 else 0
  {
  }

  lemma StepForwardsOk(s: State, step: Step, decisions: nat)
    requires ForwardsOk(s, decisions) && Enabled(s, step)
    ensures ForwardsOk(Apply(s, step), decisions + if Decides(s, step) then 1 else 0)
  {
    if step.Forward? {
      ForwardStep(s, step.p, decisions);
    } else {
      var t := Apply(s, step);
      forall p: nat ensures Notifying(t, p) ==> HasFinal(t.row) { NotifyingHasFinal(s, step, p); }
      var p := if step.Update? || step.Mark? then step.p else 0;
      StepCarriers(s, step, true);
      StepCarriers(s, step, false);
      SmallerSet(Carriers(t, true), Carriers(s, true), p);
      SmallerSet(Carriers(t, false), Carriers(s, false), p);
      RecordsOne(s, step);
    }
  }

  lemma {:induction false} RunForwardsOk(r: Run, k: nat)
    requires IsRun(r) && k < |r.states|
    ensures ForwardsOk(r.states[k], Decisions(r, k))
  {
    if k > 0 {
      RunForwardsOk(r, k - 1);
      StepForwardsOk(r.states[k - 1], r.steps[k - 1], Decisions(r, k - 1));
    } else {
      assert Carriers(r.states[0], true) == {} && Carriers(r.states[0], false) == {};
    }
  }

  /** In every run: no more final forwards than final statuses recorded, and no more others than decisions for them. */
  lemma ForwardsAreAccountedFor(r: Run, k: nat)
    requires IsRun(r) && k < |r.states|
    ensures Finals(r.states[k].forwards) <= |r.states[k].finals|
    ensures |r.states[k].forwards| - Finals(r.states[k].forwards) <= Decisions(r, k)
  {
    RunForwardsOk(r, k);
  }

  /**
   With one exit write, and receipts after it, the client is sent a final status at most once, whatever
   interleaves.
   */
  lemma OneFinalForward(r: Run, k: nat)
    requires IsRun(r) && ReceiptsAfterExit(r) && SingleExit(r) && k < |r.states|
    ensures Finals(r.states[k].forwards) <= |r.states[k].finals| <= 1
  {
    ForwardsAreAccountedFor(r, k);
    OneFinalStatus(r, k, k);
  }

  /** With no stale decision either, receipts and sweeps make at most two forwards in all. */
  lemma AtMostTwoForwards(r: Run, k: nat)
    requires IsRun(r) && ReceiptsAfterExit(r) && SingleExit(r) && NoStaleDecision(r) && k < |r.states|
    ensures |r.states[k].forwards| <= 2
  {
    ForwardsAreAccountedFor(r, k);
    FreshDecisionsAreOne(r, k);
    OneFinalForward(r, k);
  }

  // ---- one after another is enough ----

  predicate SeenFirst(s: State, p: nat) { p in s.actors && s.actors[p].Receiver? && s.actors[p].stage == Seen(false) }

  ghost predicate SerialOk(s: State) {
    && (forall p: nat, q: nat :: Midway(s, p) && Midway(s, q) ==> p == q)
    && (forall p: nat :: SeenFirst(s, p) ==> s.row.dlrReceivedAt.None?)
  }

  /** Starting is the only way to become midway, and a first read stays one until it is applied. */
  lemma StepActors(s: State, step: Step, p: nat)
    requires Enabled(s, step)
    ensures var t := Apply(s, step);
      && (Midway(t, p) ==> Midway(s, p) || ((step.See? || step.Mark?) && step.p == p))
      && (SeenFirst(t, p) ==> step == See(p) || (SeenFirst(s, p) && step != Update(p)))
      && (SeenFirst(t, p) && step == See(p) ==> t.row.dlrReceivedAt.None?)
      && (t.row.dlrReceivedAt.Some? ==> s.row.dlrReceivedAt.Some? || step.Update? || step.Mark?)
  {
  }

  lemma StepSerialOk(s: State, step: Step)
    requires SerialOk(s) && Enabled(s, step)
    requires step.See? || step.Mark? ==> forall p: nat :: !Midway(s, p)
    ensures SerialOk(Apply(s, step))
  {
    var t := Apply(s, step);
    forall p: nat, q: nat | Midway(t, p) && Midway(t, q) ensures p == q {
      StepActors(s, step, p);
      StepActors(s, step, q);
    }
    forall p: nat | SeenFirst(t, p) ensures t.row.dlrReceivedAt.None? {
      StepActors(s, step, p);
      if SeenFirst(s, p) {
        assert Midway(s, p);
        if step.Update? { assert Midway(s, step.p); }
      }
    }
  }

  lemma {:induction false} RunSerialOk(r: Run, k: nat)
    requires IsRun(r) && Serial(r) && k < |r.states|
    ensures SerialOk(r.states[k])
  {
    if k > 0 {
      RunSerialOk(r, k - 1);
      StepSerialOk(r.states[k - 1], r.steps[k - 1]);
    }
  }

  lemma SerialHasNoStaleDecision(r: Run)
    requires IsRun(r) && Serial(r)
    ensures NoStaleDecision(r)
  {
    forall k | 0 <= k < |r.steps| ensures !Stale(r.states[k], r.steps[k]) {
      RunSerialOk(r, k);
      if Decides(r.states[k], r.steps[k]) { assert SeenFirst(r.states[k], r.steps[k].p); }
    }
  }
}
