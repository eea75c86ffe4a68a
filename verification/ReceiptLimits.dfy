/**
 The bounds on receipts are exact: runs that reach them, and a run for each hypothesis that is dropped.
 */
module ReceiptLimits {
  import opened Options
  import opened SmsRows
  import opened Receipts

  ghost predicate Reached(r: Run, s: State, afterExit: bool) {
    IsRun(r) && r.states[|r.steps|] == s && (afterExit ==> ReceiptsAfterExit(r))
  }

  ghost predicate Reachable(s: State, afterExit: bool) {
    exists r :: Reached(r, s, afterExit)
  }

  lemma Start(s: State, afterExit: bool)
    requires Init(s)
    ensures Reachable(s, afterExit)
  {
    assert Reached(Run([s], []), s, afterExit);
  }

  lemma Go(s: State, step: Step, afterExit: bool)
    requires Reachable(s, afterExit) && Enabled(s, step)
    requires afterExit && step.Update? ==> s.exits > 0
    ensures Reachable(Apply(s, step), afterExit)
  {
    var r :| Reached(r, s, afterExit);
    var g := Run(r.states + [Apply(s, step)], r.steps + [step]);
    forall k | 0 <= k < |g.steps|
      ensures Enabled(g.states[k], g.steps[k]) && g.states[k + 1] == Apply(g.states[k], g.steps[k])
    {
      assert k < |r.steps| ==> g.states[k] == r.states[k] && g.steps[k] == r.steps[k];
    }
    assert Reached(g, Apply(s, step), afterExit);
  }

  /** Some number no actor has. */
  lemma FreshActor(actors: set<nat>) returns (p: nat)
    ensures forall q :: q in actors ==> q < p
  {
    if actors == {} {
      p := 0;
    } else {
      var q :| q in actors;
      p := FreshActor(actors - {q});
      if p <= q { p := q + 1; }
      assert forall x :: x in actors ==> x == q || x in actors - {q};
    }
  }

  lemma ReceiptIsRead(s: State, p: nat, d: Dlr, afterExit: bool) returns (t: State)
    requires Reachable(s, afterExit) && p !in s.actors
    ensures Reachable(t, afterExit)
    ensures t == s.(actors := s.actors[p := Receiver(d, Seen(s.row.dlrReceivedAt.Some?))])
  {
    Go(s, Arrive(p, d), afterExit);
    var arrived := Apply(s, Arrive(p, d));
    Go(arrived, See(p), afterExit);
    t := Apply(arrived, See(p));
    assert t.actors == s.actors[p := Receiver(d, Seen(s.row.dlrReceivedAt.Some?))];
  }

  /** A receipt arrives, reads the row and is applied; nobody else acts meanwhile. */
  lemma ReceiptLands(s: State, p: nat, d: Dlr, afterExit: bool) returns (t: State)
    requires Reachable(s, afterExit) && p !in s.actors && (afterExit ==> s.exits > 0)
    ensures Reachable(t, afterExit) && t.row == ReceiptRow(s.row, d, s.now) && t.now == s.now
    ensures t.exits == s.exits && t.actors.Keys == s.actors.Keys + {p}
    ensures forall q :: q in s.actors ==> t.actors[q] == s.actors[q]
    ensures t.finals == if IsFinal(d) && !HasFinal(s.row) then s.finals + [d] else s.finals
  {
    var seen := ReceiptIsRead(s, p, d, afterExit);
    Go(seen, Update(p), afterExit);
    t := Apply(seen, Update(p));
  }

  /** A sweep lists the overdue row and marks it. */
  lemma SweepMarks(s: State, p: nat, afterExit: bool) returns (t: State)
    requires Reachable(s, afterExit) && p !in s.actors && AgeOutApplies(s.row) && s.row.dlrRequested
    ensures Reachable(t, afterExit) && t.row == AgeOutRow(s.row, s.now) && t.now == s.now
    ensures t.exits == s.exits && t.finals == s.finals + [DlrUndelivered]
  {
    var list := ListForAgeing(p, s.row.receivedAt + 1);
    Go(s, list, afterExit);
    Go(Apply(s, list), Mark(p), afterExit);
    t := Apply(Apply(s, list), Mark(p));
  }

  const FRESH := State(SendingRow(0, 3, true, 100, 0), map[], 0, 0, 0, false, [], [])

  /** One more accepting exit write, and the sweep that follows it records one more final status. */
  lemma AcceptAndAge(s: State, p: nat, afterExit: bool) returns (t: State)
    requires Reachable(s, afterExit) && s.row.dlrRequested && p !in s.actors
    ensures Reachable(t, afterExit) && t.exits == s.exits + 1 && t.finals == s.finals + [DlrUndelivered]
    ensures t.row.dlrRequested && t.row.dlrStatus == Some(DlrUndelivered)
  {
    Go(s, ExitAccept(7), afterExit);
    t := SweepMarks(Apply(s, ExitAccept(7)), p, afterExit);
  }

  /**
   The bound on final statuses is reached. With receipts after the first of n exit writes there can be
   n of them, and one more when an early receipt comes first: an HTTP callback names the message id itself.
   */
  lemma {:induction false} FinalsAreReached(n: nat, afterExit: bool) returns (s: State)
    ensures Reachable(s, afterExit) && s.exits == n && |s.finals| == n + (if afterExit then 0 else 1)
    ensures s.row.dlrRequested
  {
    if n > 0 {
      s := FinalsAreReached(n - 1, afterExit);
      var p := FreshActor(s.actors.Keys);
      s := AcceptAndAge(s, p, afterExit);
    } else {
      Start(FRESH, afterExit);
      s := FRESH;
      if !afterExit { s := ReceiptLands(FRESH, 0, DlrDelivered, false); }
    }
  }

  /**
   In all runs with at most n exit writes, and receipts after the first, one final status is recorded:
   exactly when n is at most one.
   */
  lemma OneFinalNeedsOneExit(n: nat)
    ensures (forall r, k :: IsRun(r) && ReceiptsAfterExit(r) && ExitsWithin(r, n) && 0 <= k < |r.states| ==>
               |r.states[k].finals| <= 1)
       <==> n <= 1
  {
    if n <= 1 {
      forall r, k | IsRun(r) && ReceiptsAfterExit(r) && ExitsWithin(r, n) && 0 <= k < |r.states|
        ensures |r.states[k].finals| <= 1
      {
        assert SingleExit(r);
        NeverHidden(r, k);
        RunFinalsOk(r, k);
      }
    } else {
      var s := FinalsAreReached(n, true);
      var r :| Reached(r, s, true);
      forall k | 0 <= k < |r.states| ensures r.states[k].exits <= n { FinalsGrow(r, k, |r.steps|); }
      assert |r.states[|r.steps|].finals| > 1;
    }
  }

  /**
   A receipt applied before the exit write: the unguarded exit hides it, and the age-out sweep replaces
   'delivered' by 'undelivered'.
   */
  lemma EarlyReceiptIsOverwritten()
    ensures exists s :: Reachable(s, false) && s.exits == 1 && s.finals == [DlrDelivered, DlrUndelivered]
                        && s.row.dlrStatus == Some(DlrUndelivered)
  {
    Start(FRESH, false);
    var s := ReceiptLands(FRESH, 0, DlrDelivered, false);
    var t := AcceptAndAge(s, 1, false);
  }

  /** A second exit write does the same to a receipt that followed the first. */
  lemma SecondExitOverwrites()
    ensures exists s :: Reachable(s, true) && s.exits == 2 && s.finals == [DlrDelivered, DlrUndelivered]
                        && s.row.dlrStatus == Some(DlrUndelivered)
  {
    Start(FRESH, true);
    Go(FRESH, ExitAccept(7), true);
    var s := ReceiptLands(Apply(FRESH, ExitAccept(7)), 0, DlrDelivered, true);
    var t := AcceptAndAge(s, 1, true);
  }

  const EXITED := Apply(FRESH, ExitAccept(7))

  function BothSeen(s: State, d0: Dlr, d1: Dlr): State {
    s.(actors := map[0 := Receiver(d0, Seen(false)), 1 := Receiver(d1, Seen(false))])
  }

  const ONE_SEEN := EXITED.(actors := map[0 := Receiver(DlrUnknown, Seen(false))])

  lemma OneReadFirst()
    ensures Reachable(ONE_SEEN, true)
  {
    Start(FRESH, true);
    Go(FRESH, ExitAccept(7), true);
    var s1 := Apply(EXITED, Arrive(0, DlrUnknown));
    Go(EXITED, Arrive(0, DlrUnknown), true);
    Go(s1, See(0), true);
    assert Apply(s1, See(0)).actors == ONE_SEEN.actors;
  }

  lemma TwoReadFirst()
    ensures Reachable(BothSeen(EXITED, DlrUnknown, DlrUnknown), true)
  {
    OneReadFirst();
    var s3 := Apply(ONE_SEEN, Arrive(1, DlrUnknown));
    Go(ONE_SEEN, Arrive(1, DlrUnknown), true);
    Go(s3, See(1), true);
    assert Apply(s3, See(1)).actors == BothSeen(EXITED, DlrUnknown, DlrUnknown).actors;
  }

  function Applied(d0: Stage, d1: Stage): State {
    EXITED.(row := ReceiptRow(EXITED.row, DlrUnknown, EXITED.now),
            actors := map[0 := Receiver(DlrUnknown, d0), 1 := Receiver(DlrUnknown, d1)])
  }

  lemma BothApplied()
    ensures Reachable(Applied(Forwarding, Forwarding), true)
  {
    var s0 := BothSeen(EXITED, DlrUnknown, DlrUnknown);
    var s1 := Applied(Forwarding, Seen(false));
    TwoReadFirst();
    Go(s0, Update(0), true);
    assert Apply(s0, Update(0)).actors == s1.actors;
    Go(s1, Update(1), true);
    assert Apply(s1, Update(1)).actors == Applied(Forwarding, Forwarding).actors;
  }

  /**
   A stale decision: two intermediate receipts both count as the first, and the client hears twice
   before any final status.
   */
  lemma StaleDecisionForwardsTwice()
    ensures exists s :: Reachable(s, true) && s.exits == 1 && s.forwards == [DlrUnknown, DlrUnknown] && s.finals == []
  {
    var s2 := Applied(Forwarding, Forwarding);
    var s3 := Applied(Finished, Forwarding).(forwards := [DlrUnknown]);
    BothApplied();
    Go(s2, Forward(0), true);
    assert Apply(s2, Forward(0)).actors == s3.actors && Apply(s2, Forward(0)).forwards == s3.forwards;
    Go(s3, Forward(1), true);
  }
}
