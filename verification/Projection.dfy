/**
 One message of the send pipeline, seen from its row. Every run of the pipeline, watched at one row, is
 a run of the machine of receipts with the same exit writes; and under the lease and a quiet boot there
 is one exit write at most. So what is proved of receipts holds of the pipeline.
 */
module Projection {
  import opened Options
  import opened SmsRows
  import opened Pipeline
  import opened Exclusivity
  import Receipts
  import ReceiptLimits

  /** This step makes an exit write to row m. A forced one matches only a row still 'sending'. */
  predicate Exits(s: System, step: Step, m: MessageId) {
    && m < |s.db.rows| && TouchesHead(step) && Working(s, step.w) && Head(s, step.w).id == m
    && match step
       case Undeliver(_, commit) => commit
       case SyncFail(_, _, commit) => commit
       case Bill(_, _, _, _, commit) => commit
       case Force(_, _, ok) => ok && s.db.rows[m].status == Sending
       case _ => false
  }

  /** Exit writes to row m in the first k steps. */
  function ExitCount(r: Run, m: MessageId, k: nat): nat
    requires k <= |r.steps| <= |r.states|
  {
    if k == 0 then 0 else ExitCount(r, m, k - 1) + ExitsBy(r.states[k - 1], r.steps[k - 1], m)
  }

  // ---- the row's steps ----

  ghost predicate Shows(s: System, m: MessageId, x: Receipts.State) {
    m < |s.db.rows| && x.row == s.db.rows[m] && x.now == s.now
  }

  /** A reachable state of the receipts machine that shows row m, after so many exit writes. */
  ghost predicate Projects(s: System, m: MessageId, exits: nat, afterExit: bool) {
    exists x :: ReceiptLimits.Reachable(x, afterExit) && Shows(s, m, x) && x.exits == exits
  }

  /** The writes of the pipeline itself, as steps of the receipts machine. */
  function PipelineWrite(cfg: Config, s: System, step: Step, m: MessageId): (w: seq<Receipts.Step>)
    requires Enabled(cfg, s, step) && m < |s.db.rows|
    ensures |w| <= 1
  {
    match step
    case Tick(elapsed) => [Receipts.Clock(elapsed)]
    case TakeBatch(_, ids) => if m in ids then [Receipts.Claim] else []
    case Reap => if IsStuck(s.db.rows[m], s.now - cfg.stuck) then [Receipts.Return(s.now)] else []
    case Requeue(w, readAt, ok) =>
      if ok && Head(s, w).id == m && s.db.rows[m].status == Sending
      then [Receipts.Return(readAt + RetryBackoff(cfg, Head(s, w).attempts))] else []
    case Undeliver(w, _) => if Exits(s, step, m) then [Receipts.ExitUndeliver] else []
    case SyncFail(w, _, _) => if Exits(s, step, m) then [Receipts.ExitFail] else []
    case Bill(w, carrier, _, _, _) => if Exits(s, step, m) then [Receipts.ExitAccept(carrier)] else []
    case Force(w, carrier, _) => if Exits(s, step, m) then [Receipts.ExitForce(carrier)] else []
    case _ => []
  }

  /** The pipeline's write is this write of the receipts machine, or none: t is the state after it. */
  ghost predicate IsWrite(t: System, m: MessageId, x: Receipts.State, w: seq<Receipts.Step>, exits: nat) {
    if w == [] then Shows(t, m, x) && exits == 0
    else
      && Receipts.Enabled(x, w[0]) && !w[0].Update?
      && var y := Receipts.Apply(x, w[0]); Shows(t, m, y) && y.exits == x.exits + exits
  }

  function ExitsBy(s: System, step: Step, m: MessageId): nat { if Exits(s, step, m) then 1 else 0 }

  lemma ExitProjects(cfg: Config, s: System, step: Step, t: System, m: MessageId, x: Receipts.State)
    requires Enabled(cfg, s, step) && Shows(s, m, x) && TouchesHead(step) && t.now == s.now && m < |t.db.rows|
    requires t.db.rows[m] == if Head(s, step.w).id == m then ExitRow(cfg, s, step, s.db.rows[m]) else s.db.rows[m]
    ensures IsWrite(t, m, x, PipelineWrite(cfg, s, step, m), ExitsBy(s, step, m))
  {
  }

  lemma OtherProjects(cfg: Config, s: System, step: Step, m: MessageId, x: Receipts.State)
    requires Enabled(cfg, s, step) && Shows(s, m, x) && !TouchesHead(step) && !step.Receipt? && !step.AgeOut?
    ensures IsWrite(Apply(cfg, s, step), m, x, PipelineWrite(cfg, s, step, m), 0) && !Exits(s, step, m)
  {
  }

  lemma WriteProjects(t: System, m: MessageId, x: Receipts.State, w: seq<Receipts.Step>, exits: nat, afterExit: bool)
    requires ReceiptLimits.Reachable(x, afterExit) && IsWrite(t, m, x, w, exits)
    ensures Projects(t, m, x.exits + exits, afterExit)
  {
    if w != [] { ReceiptLimits.Go(x, w[0], afterExit); }
  }

  /** If this step is a receipt for m, an exit write of m came before it. */
  ghost predicate FollowsAt(r: Run, m: MessageId, k: nat)
    requires k < |r.steps| < |r.states|
  {
    r.steps[k].Receipt? && r.steps[k].m == m ==> ExitCount(r, m, k) > 0
  }

  /** Receipts named by their message come only after its first exit write. */
  ghost predicate ReceiptsFollow(r: Run, m: MessageId) {
    |r.steps| < |r.states| && forall k: nat :: k < |r.steps| ==> FollowsAt(r, m, k)
  }

  lemma ReceiptProjects(cfg: Config, s: System, n: MessageId, d: Dlr, m: MessageId, exits: nat, afterExit: bool)
    requires Projects(s, m, exits, afterExit) && Enabled(cfg, s, Receipt(n, d)) && (afterExit && n == m ==> exits > 0)
    ensures Projects(Apply(cfg, s, Receipt(n, d)), m, exits, afterExit)
  {
    var x :| ReceiptLimits.Reachable(x, afterExit) && Shows(s, m, x) && x.exits == exits;
    if n == m {
      var p := ReceiptLimits.FreshActor(x.actors.Keys);
      x := ReceiptLimits.ReceiptLands(x, p, d, afterExit);
    }
    assert Shows(Apply(cfg, s, Receipt(n, d)), m, x);
  }

  lemma AgeOutProjects(cfg: Config, s: System, n: MessageId, m: MessageId, exits: nat, afterExit: bool)
    requires Projects(s, m, exits, afterExit) && Enabled(cfg, s, AgeOut(n))
    ensures Projects(Apply(cfg, s, AgeOut(n)), m, exits, afterExit)
  {
    var x :| ReceiptLimits.Reachable(x, afterExit) && Shows(s, m, x) && x.exits == exits;
    if n == m && AgeOutApplies(x.row) {
      var p := ReceiptLimits.FreshActor(x.actors.Keys);
      x := ReceiptLimits.SweepMarks(x, p, afterExit);
    }
    assert Shows(Apply(cfg, s, AgeOut(n)), m, x);
  }

  lemma StepProjects(cfg: Config, s: System, step: Step, m: MessageId, exits: nat, afterExit: bool)
    requires Enabled(cfg, s, step) && Projects(s, m, exits, afterExit)
    requires afterExit && step.Receipt? && step.m == m ==> exits > 0
    ensures Projects(Apply(cfg, s, step), m, exits + ExitsBy(s, step, m), afterExit)
  {
    if step.Receipt? {
      ReceiptProjects(cfg, s, step.m, step.d, m, exits, afterExit);
    } else if step.AgeOut? {
      AgeOutProjects(cfg, s, step.m, m, exits, afterExit);
    } else {
      var x :| ReceiptLimits.Reachable(x, afterExit) && Shows(s, m, x) && x.exits == exits;
      if TouchesHead(step) {
        HeadRow(cfg, s, step, m);
        ExitProjects(cfg, s, step, Apply(cfg, s, step), m, x);
      } else {
        OtherProjects(cfg, s, step, m, x);
      }
      WriteProjects(Apply(cfg, s, step), m, x, PipelineWrite(cfg, s, step, m), ExitsBy(s, step, m), afterExit);
    }
  }

  /** A new row is a start of the receipts machine. */
  lemma CreationProjects(cfg: Config, s: System, step: Step, m: MessageId, afterExit: bool)
    requires Enabled(cfg, s, step) && |s.db.rows| <= m < |Apply(cfg, s, step).db.rows|
    ensures Projects(Apply(cfg, s, step), m, 0, afterExit)
  {
    var t := Apply(cfg, s, step);
    var x := Receipts.State(t.db.rows[m], map[], t.now, 0, 0, false, [], []);
    ReceiptLimits.Start(x, afterExit);
    assert Shows(t, m, x);
  }

  ghost predicate RowsGrow(r: Run) {
    |r.states| == |r.steps| + 1 && forall j :: 0 <= j < |r.steps| ==> |r.states[j].db.rows| <= |r.states[j + 1].db.rows|
  }

  lemma StepGrows(cfg: Config, s: System, step: Step)
    requires Enabled(cfg, s, step)
    ensures |s.db.rows| <= |Apply(cfg, s, step).db.rows|
  {
  }

  lemma RunGrows(cfg: Config, r: Run)
    requires IsRun(cfg, r)
    ensures RowsGrow(r)
  {
    forall j | 0 <= j < |r.steps| ensures |r.states[j].db.rows| <= |r.states[j + 1].db.rows| {
      StepGrows(cfg, r.states[j], r.steps[j]);
    }
  }

  lemma {:induction false} NoRowNoExit(r: Run, m: MessageId, k: nat)
    requires RowsGrow(r) && k < |r.states| && m >= |r.states[k].db.rows|
    ensures ExitCount(r, m, k) == 0
  {
    if k > 0 { NoRowNoExit(r, m, k - 1); }
  }

  lemma NextProjects(cfg: Config, s: System, step: Step, t: System, m: MessageId, exits: nat, afterExit: bool)
    requires Enabled(cfg, s, step) && t == Apply(cfg, s, step) && m < |t.db.rows|
    requires if m < |s.db.rows| then Projects(s, m, exits, afterExit) else exits == 0
    requires afterExit && step.Receipt? && step.m == m ==> exits > 0
    ensures Projects(t, m, exits + ExitsBy(s, step, m), afterExit)
  {
    if m < |s.db.rows| {
      StepProjects(cfg, s, step, m, exits, afterExit);
    } else {
      CreationProjects(cfg, s, step, m, afterExit);
    }
  }

  ghost predicate Moves(cfg: Config, r: Run, k: nat)
    requires k < |r.steps| < |r.states|
  {
    Enabled(cfg, r.states[k], r.steps[k]) && r.states[k + 1] == Apply(cfg, r.states[k], r.steps[k])
  }

  lemma {:induction false} MovesProject(cfg: Config, r: Run, m: MessageId, k: nat, afterExit: bool)
    requires RowsGrow(r) && r.states[0].db.rows == [] && k < |r.states| && m < |r.states[k].db.rows|
    requires (forall j: nat :: j < |r.steps| ==> Moves(cfg, r, j)) && (afterExit ==> ReceiptsFollow(r, m))
    ensures Projects(r.states[k], m, ExitCount(r, m, k), afterExit)
  {
    if k > 0 {
      if m < |r.states[k - 1].db.rows| {
        MovesProject(cfg, r, m, k - 1, afterExit);
      } else {
        NoRowNoExit(r, m, k - 1);
      }
      assert Moves(cfg, r, k - 1) && (afterExit ==> FollowsAt(r, m, k - 1));
      NextProjects(cfg, r.states[k - 1], r.steps[k - 1], r.states[k], m, ExitCount(r, m, k - 1), afterExit);
    }
  }

  /**
   Every run of the pipeline, watched at one row, is a run of the receipts machine: the same row, with
   as many exit writes, and with receipts after the first of them when that is so of the pipeline.
   */
  lemma RunProjects(cfg: Config, r: Run, m: MessageId, k: nat, afterExit: bool)
    requires IsRun(cfg, r) && k < |r.states| && m < |r.states[k].db.rows| && (afterExit ==> ReceiptsFollow(r, m))
    ensures Projects(r.states[k], m, ExitCount(r, m, k), afterExit)
  {
    RunGrows(cfg, r);
    assert forall j: nat :: j < |r.steps| ==> Moves(cfg, r, j);
    MovesProject(cfg, r, m, k, afterExit);
  }

  // ---- one exit write ----

  /** Written out of the queue, and in nobody's hands. */
  ghost predicate Done(s: System, m: MessageId) {
    && m < |s.db.rows| && !InQueue(s.db.rows[m].status)
    && forall w, i :: HeldAt(s, w, i) ==> ClaimAt(s, w, i).id != m
  }

  lemma ExitIsDone(cfg: Config, s: System, step: Step, m: MessageId)
    requires Safe(cfg, s) && Enabled(cfg, s, step) && Exits(s, step, m)
    ensures Done(Apply(cfg, s, step), m)
  {
    var t := Apply(cfg, s, step);
    StepShrinks(cfg, s, step);
    assert HeldAt(s, step.w, 0) && ClaimAt(s, step.w, 0).id == m;
    forall w, i | HeldAt(t, w, i) ensures ClaimAt(t, w, i).id != m {
      ShrinkOrigin(s, t, w, i);
      assert HeldAt(s, w, Origin(s, t, w, i));
      if w == step.w { assert t.holders[w].batch == s.holders[w].batch[1..]; }
    }
  }

  lemma DoneStays(cfg: Config, s: System, step: Step, m: MessageId)
    requires Enabled(cfg, s, step) && Done(s, m)
    ensures Done(Apply(cfg, s, step), m) && !Exits(s, step, m)
  {
    var t := Apply(cfg, s, step);
    StepNeverRequeues(cfg, s, step, m);
    if TouchesHead(step) { assert HeldAt(s, step.w, 0) && Head(s, step.w) == ClaimAt(s, step.w, 0); }
    forall w, i | HeldAt(t, w, i) ensures ClaimAt(t, w, i).id != m {
      if !AddsHolder(step) {
        StepShrinks(cfg, s, step);
        ShrinkOrigin(s, t, w, i);
        assert HeldAt(s, w, Origin(s, t, w, i));
      } else if w != step.w {
        assert HeldAt(s, w, i) && ClaimAt(s, w, i) == ClaimAt(t, w, i);
      }
    }
  }

  /** Under the lease and a quiet boot a message is written out of the queue at most once. */
  lemma {:induction false} OneExit(cfg: Config, r: Run, m: MessageId, k: nat)
    requires IsRun(cfg, r) && Leased(cfg, r) && QuietBoot(r) && k < |r.states|
    ensures ExitCount(r, m, k) <= 1 && (ExitCount(r, m, k) == 1 ==> Done(r.states[k], m))
  {
    if k > 0 {
      var s, step := r.states[k - 1], r.steps[k - 1];
      OneExit(cfg, r, m, k - 1);
      RunSafe(cfg, r, k - 1);
      if ExitCount(r, m, k - 1) == 1 {
        DoneStays(cfg, s, step, m);
      } else if Exits(s, step, m) {
        ExitIsDone(cfg, s, step, m);
      }
    }
  }

  // ---- what follows for the pipeline ----

  /** Without receipts only an exit write takes a row out of the queue. */
  lemma {:induction false} OutMeansExit(cfg: Config, r: Run, m: MessageId, k: nat)
    requires IsRun(cfg, r) && k < |r.states| && m < |r.states[k].db.rows| && !InQueue(r.states[k].db.rows[m].status)
    requires forall j :: 0 <= j < k ==> !r.steps[j].Receipt?
    ensures ExitCount(r, m, k) > 0
  {
    var s, step := r.states[k - 1], r.steps[k - 1];
    if m < |s.db.rows| {
      if InQueue(s.db.rows[m].status) { StepRow(cfg, s, step, m); } else { OutMeansExit(cfg, r, m, k - 1); }
    }
  }

  /** g starts out like r, for k steps. */
  ghost predicate StartsLike(r: Run, g: Run, k: nat) {
    && k <= |r.steps| < |r.states| && k <= |g.steps| < |g.states|
    && forall j :: 0 <= j < k ==> g.states[j] == r.states[j] && g.steps[j] == r.steps[j]
  }

  lemma {:induction false} SamePrefix(r: Run, g: Run, m: MessageId, k: nat)
    requires StartsLike(r, g, k)
    ensures ExitCount(r, m, k) == ExitCount(g, m, k)
  {
    if k > 0 { SamePrefix(r, g, m, k - 1); }
  }

  /** A final receipt stored is one that an exit write precedes, and no age-out applies to it. */
  lemma FinalIsSafe(cfg: Config, r: Run, m: MessageId, k: nat)
    requires IsRun(cfg, r) && Leased(cfg, r) && QuietBoot(r) && ReceiptsFollow(r, m)
    requires k < |r.states| && m < |r.states[k].db.rows| && HasFinal(r.states[k].db.rows[m])
    ensures !AgeOutApplies(r.states[k].db.rows[m]) && ExitCount(r, m, k) == 1
    ensures Receipts.StatusTells(r.states[k].db.rows[m])
  {
    RunProjects(cfg, r, m, k, true);
    OneExit(cfg, r, m, k);
    var x :| ReceiptLimits.Reachable(x, true) && Shows(r.states[k], m, x) && x.exits == ExitCount(r, m, k);
    var g :| ReceiptLimits.Reached(g, x, true);
    forall j | 0 <= j < |g.states| ensures g.states[j].exits <= 1 { Receipts.FinalsGrow(g, j, |g.steps|); }
    Receipts.OneFinalStatus(g, |g.steps|, |g.steps|);
    Receipts.NeverHidden(g, |g.steps|);
    Receipts.StatusFollowsReceipt(g, |g.steps|);
  }

  /**
   In the pipeline, under the lease and a quiet boot, with receipts after the exit write: once a final
   receipt is stored, the message's status is the one it reports, and no step of anyone changes either.
   */
  lemma {:induction false} FinalReceiptIsKept(cfg: Config, r: Run, m: MessageId, i: nat, j: nat)
    requires IsRun(cfg, r) && Leased(cfg, r) && QuietBoot(r) && ReceiptsFollow(r, m)
    requires i <= j < |r.states| && m < |r.states[i].db.rows| && HasFinal(r.states[i].db.rows[m])
    ensures m < |r.states[j].db.rows|
    ensures var a, b := r.states[i].db.rows[m], r.states[j].db.rows[m];
      && b.dlrStatus == a.dlrStatus && b.dlrReceivedAt == a.dlrReceivedAt && b.status == a.status
      && (b.dlrStatus == Some(DlrDelivered) ==> b.status == Delivered)
      && (b.dlrStatus == Some(DlrUndelivered) ==> b.status == Failed)
      && (b.dlrStatus == Some(DlrRejected) ==> b.status == Rejected)
    decreases j - i
  {
    FinalIsSafe(cfg, r, m, i);
    if i < j {
      OneExit(cfg, r, m, i);
      DoneStays(cfg, r.states[i], r.steps[i], m);
      StepRow(cfg, r.states[i], r.steps[i], m);
      FinalReceiptIsKept(cfg, r, m, i + 1, j);
    }
  }
}
