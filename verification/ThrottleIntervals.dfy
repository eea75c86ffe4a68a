/**
 How many failures, and how many credentials examined, any ten minutes of a run hold: the entries of
 a key, one after another, are successive windows, and the failures of those are bounded.
 */
module ThrottleIntervals {
  import opened Sequences
  import opened BindThrottle
  import opened ThrottleWindows
  import opened ThrottleRace

  // ---- the windows of a run are successive ----

  function End(s: State, i: nat): int
    requires i < |s.closed| && |s.closed[i]| >= 1
  {
    s.closed[i][0] + WINDOW
  }

  /** Of what was not yet marked when window i ended, what reads no later than its end was in flight then. */
  ghost predicate LateOk(s: State, i: nat, c: nat)
    requires i < |s.closed| && |s.closed[i]| >= 1
  {
    && s.clock > End(s, i)
    && UpToAll(s.closed[i + 1..], End(s, i)) + UpTo(s.current, End(s, i)) + UpTo(s.flying, End(s, i)) <= c - 1
  }

  ghost predicate FullOk(s: State, i: nat)
    requires i < |s.closed|
  {
    |s.closed[i]| >= MAX_ATTEMPTS ==>
      && (forall j :: i < j < |s.closed| ==> Apart(s.closed[i], s.closed[j]))
      && Apart(s.closed[i], s.current) && Apart(s.closed[i], s.flying) && Apart(s.closed[i], [s.clock])
  }

  /** The present window against the last closed one. */
  ghost predicate NextOk(s: State, d: nat) {
    s.closed != [] && s.closed[|s.closed| - 1] != [] ==>
      var bound := s.closed[|s.closed| - 1][0] + WINDOW - d;
      && s.clock > bound && (forall i :: 0 <= i < |s.flying| ==> s.flying[i] > bound)
      && (s.current != [] ==> s.current[0] > bound)
  }

  ghost predicate Adjacent(s: State, i: nat, d: nat)
    requires i + 1 < |s.closed|
  {
    |s.closed[i]| >= 1 && |s.closed[i + 1]| >= 1 && s.closed[i + 1][0] > s.closed[i][0] + WINDOW - d
  }

  ghost predicate ClosedOk(s: State, c: nat, d: nat) {
    && (forall i :: 0 <= i < |s.closed| ==> WindowOk(s.closed[i], c))
    && (forall i: nat :: i + 1 < |s.closed| ==> Adjacent(s, i, d))
    && (forall i: nat :: i < |s.closed| ==> LateOk(s, i, c) && FullOk(s, i))
  }

  /** The failures of the present window, and those in flight when it is full, are close to the last one marked. */
  ghost predicate CurrentOk(s: State, d: nat) {
    s.entry.Some? && s.current != [] ==>
      var last := s.current[|s.current| - 1];
      && (forall i :: 0 <= i < |s.current| ==> s.current[i] <= s.current[0] + WINDOW && s.current[i] <= last + d)
      && (Full(s.entry.value) ==> forall i :: 0 <= i < |s.flying| ==> s.flying[i] <= last + d)
  }

  ghost predicate Settled(s: State, c: nat, d: nat) {
    Orderly(s, c, d) && ClosedOk(s, c, d) && NextOk(s, d) && CurrentOk(s, d)
  }

  lemma CurrentStep(s: State, step: Step, c: nat, d: nat)
    requires Orderly(s, c, d) && CurrentOk(s, d) && Enabled(s, step) && Close(s, d) && d < SLACK
    ensures CurrentOk(Apply(s, step), d)
  {
    if step.Mark? || step.Drop? {
      assert forall j :: 0 <= j < |RemoveAt(s.flying, step.i)| ==> RemoveAt(s.flying, step.i)[j] in s.flying;
    }
    if step.Check? && s.entry.Some? && !Blocked(s.entry, s.clock) && s.clock - s.entry.value.first <= WINDOW {
      PassedIsNotFull(s, c);
    }
  }

  predicate Closing(s: State, step: Step) {
    step.Check? && s.entry.Some? && !Blocked(s.entry, s.clock) && s.clock - s.entry.value.first > WINDOW
  }

  /** A step that closes no window leaves the closed ones, and only reads the clock or marks what was in flight. */
  lemma OpenStep(s: State, step: Step)
    requires FlyingOk(s) && Enabled(s, step) && !step.Succeed? && !Closing(s, step)
      && (s.entry.None? ==> s.current == [])
    ensures var t := Apply(s, step);
      && t.closed == s.closed && t.clock >= s.clock
      && ((t.flying == s.flying && t.current == s.current)
          || (step.Check? && t.flying == s.flying + [s.clock] && t.current == s.current)
          || (step.Mark? && t.flying == RemoveAt(s.flying, step.i) && t.current == s.current + [s.flying[step.i]])
          || (step.Drop? && t.flying == RemoveAt(s.flying, step.i) && t.current == s.current))
  {
  }

  /** How many there are up to a limit in the present window and in flight, after a step that closes nothing. */
  lemma OpenKeepsUpTo(s: State, step: Step, limit: int)
    requires FlyingOk(s) && Enabled(s, step) && !step.Succeed? && !Closing(s, step)
      && (s.entry.None? ==> s.current == []) && s.clock > limit
    ensures var t := Apply(s, step);
      UpTo(t.current, limit) + UpTo(t.flying, limit) <= UpTo(s.current, limit) + UpTo(s.flying, limit)
  {
    OpenStep(s, step);
    AppendCounts(s.flying, s.clock, limit);
    if step.Mark? || step.Drop? {
      WithoutCounts(s.flying, step.i, limit);
      AppendCounts(s.current, s.flying[step.i], limit);
    }
  }

  lemma OpenKeepsLate(s: State, step: Step, i: nat, c: nat)
    requires FlyingOk(s) && Enabled(s, step) && !step.Succeed? && !Closing(s, step)
      && (s.entry.None? ==> s.current == [])
    requires i < |s.closed| && |s.closed[i]| >= 1 && LateOk(s, i, c)
    ensures i < |Apply(s, step).closed| && |Apply(s, step).closed[i]| >= 1 && LateOk(Apply(s, step), i, c)
  {
    OpenStep(s, step);
    OpenKeepsUpTo(s, step, End(s, i));
  }

  lemma OpenKeepsFull(s: State, step: Step, i: nat)
    requires FlyingOk(s) && Enabled(s, step) && !step.Succeed? && !Closing(s, step)
      && (s.entry.None? ==> s.current == [])
    requires i < |s.closed| && FullOk(s, i)
    ensures i < |Apply(s, step).closed| && FullOk(Apply(s, step), i)
  {
    OpenStep(s, step);
    if step.Mark? || step.Drop? {
      assert forall j :: 0 <= j < |RemoveAt(s.flying, step.i)| ==> RemoveAt(s.flying, step.i)[j] in s.flying;
    }
    if |s.closed[i]| >= MAX_ATTEMPTS {
      assert [s.clock][0] == s.clock;
      assert forall k :: 0 <= k < |s.closed[i]| ==> s.clock > s.closed[i][k] + WINDOW;
    }
  }

  lemma OpenKeepsNext(s: State, step: Step, d: nat)
    requires FlyingOk(s) && Enabled(s, step) && !step.Succeed? && !Closing(s, step)
      && (s.entry.None? ==> s.current == []) && NextOk(s, d)
    ensures NextOk(Apply(s, step), d)
  {
    OpenStep(s, step);
    if step.Mark? || step.Drop? {
      assert forall j :: 0 <= j < |RemoveAt(s.flying, step.i)| ==> RemoveAt(s.flying, step.i)[j] in s.flying;
    }
  }

  lemma OpenStepSettled(s: State, step: Step, c: nat, d: nat)
    requires Settled(s, c, d) && Enabled(s, step) && !step.Succeed? && !Closing(s, step)
    ensures ClosedOk(Apply(s, step), c, d) && NextOk(Apply(s, step), d)
  {
    var t := Apply(s, step);
    OpenStep(s, step);
    forall i: nat | i + 1 < |t.closed| ensures Adjacent(t, i, d) { assert Adjacent(s, i, d); }
    forall i: nat | i < |t.closed| ensures LateOk(t, i, c) && FullOk(t, i) {
      assert LateOk(s, i, c) && FullOk(s, i);
      OpenKeepsLate(s, step, i, c);
      OpenKeepsFull(s, step, i);
    }
    OpenKeepsNext(s, step, d);
  }

  // ---- closing a window ----

  lemma ClosingShape(s: State)
    requires Closing(s, Check)
    ensures var t := Apply(s, Check);
      && t.closed == s.closed + [s.current] && t.current == [] && t.flying == s.flying + [s.clock]
      && t.entry.None? && t.clock == s.clock
  {
  }

  lemma ClosingKeepsLate(s: State, i: nat, c: nat)
    requires Closing(s, Check) && i < |s.closed| && |s.closed[i]| >= 1 && LateOk(s, i, c)
    ensures i < |Apply(s, Check).closed| && |Apply(s, Check).closed[i]| >= 1 && LateOk(Apply(s, Check), i, c)
  {
    ClosingShape(s);
    ClosingCounts(s, Apply(s, Check), i, End(s, i));
  }

  lemma ClosingCounts(s: State, t: State, i: nat, limit: int)
    requires i < |s.closed| && s.clock > limit
    requires t.closed == s.closed + [s.current] && t.current == [] && t.flying == s.flying + [s.clock]
    ensures UpToAll(t.closed[i + 1..], limit) == UpToAll(s.closed[i + 1..], limit) + UpTo(s.current, limit)
    ensures UpTo(t.current, limit) == 0 && UpTo(t.flying, limit) == UpTo(s.flying, limit)
  {
    assert t.closed[i + 1..] == s.closed[i + 1..] + [s.current];
    AppendAll(s.closed[i + 1..], s.current, limit);
    AppendCounts(s.flying, s.clock, limit);
  }

  lemma ClosedIsLate(s: State, c: nat, d: nat)
    requires Orderly(s, c, d) && Closing(s, Check) && |s.flying| + 1 <= c
    ensures var t := Apply(s, Check);
      |t.closed| == |s.closed| + 1 && |t.closed[|s.closed|]| >= 1 && LateOk(t, |s.closed|, c)
  {
    ClosingShape(s);
    var t, n := Apply(s, Check), |s.closed|;
    assert t.closed[n + 1..] == [];
    CountBounds(s.flying, End(t, n) - WINDOW);
    AppendCounts(s.flying, s.clock, End(t, n));
  }

  lemma ClosingKeepsFull(s: State, i: nat)
    requires Closing(s, Check) && i < |s.closed| && FullOk(s, i)
    ensures i < |Apply(s, Check).closed| && FullOk(Apply(s, Check), i)
  {
    ClosingShape(s);
    if |s.closed[i]| >= MAX_ATTEMPTS {
      assert [s.clock][0] == s.clock;
      assert forall k :: 0 <= k < |s.closed[i]| ==> s.clock > s.closed[i][k] + WINDOW;
    }
  }

  /** Whoever is in flight when a check closes a window read the clock at most d before that check. */
  lemma InFlightAtClosing(s: State, hi: int, d: nat)
    requires Closing(s, Check) && Close(Apply(s, Check), d)
    requires forall j :: 0 <= j < |s.flying| ==> s.flying[j] <= hi
    ensures s.flying == [] || s.clock - d <= hi
  {
    ClosingShape(s);
    var t := Apply(s, Check);
    if s.flying != [] {
      assert t.flying[|s.flying|] == s.clock && t.flying[0] == s.flying[0];
    }
  }

  /** When a full window ends nothing is in flight: what was in flight when it filled up has long been marked. */
  lemma ClosedIsFull(s: State, c: nat, d: nat)
    requires Orderly(s, c, d) && CurrentOk(s, d) && Closing(s, Check) && d < SLACK
    requires Close(Apply(s, Check), d)
    ensures var t := Apply(s, Check); |t.closed| == |s.closed| + 1 && FullOk(t, |s.closed|)
  {
    ClosingShape(s);
    var t := Apply(s, Check);
    if Full(s.entry.value) {
      var last := s.current[|s.current| - 1];
      assert s.clock >= last + BLOCK_FOR;
      InFlightAtClosing(s, last + d, d);
    }
  }

  lemma ClosingNext(s: State, c: nat, d: nat)
    requires Orderly(s, c, d) && Closing(s, Check) && Close(Apply(s, Check), d)
    ensures NextOk(Apply(s, Check), d)
  {
    ClosingShape(s);
    var t := Apply(s, Check);
    forall j | 0 <= j < |t.flying| ensures t.flying[j] > s.current[0] + WINDOW - d {
      assert t.flying[|s.flying|] <= t.flying[j] + d;
    }
  }

  lemma ClosingEach(s: State, c: nat, d: nat, i: nat)
    requires Settled(s, c, d) && Closing(s, Check) && d < SLACK && Close(Apply(s, Check), d) && |s.flying| + 1 <= c
    requires i < |s.closed| + 1
    ensures var t := Apply(s, Check);
      |t.closed| == |s.closed| + 1 && WindowOk(t.closed[i], c) && LateOk(t, i, c) && FullOk(t, i)
  {
    ClosingShape(s);
    if i < |s.closed| {
      assert WindowOk(s.closed[i], c) && LateOk(s, i, c) && FullOk(s, i);
      ClosingKeepsLate(s, i, c);
      ClosingKeepsFull(s, i);
    } else {
      assert WindowOk(s.current, c);
      ClosedIsLate(s, c, d);
      ClosedIsFull(s, c, d);
    }
  }

  lemma ClosingSettled(s: State, c: nat, d: nat)
    requires Settled(s, c, d) && Closing(s, Check) && d < SLACK && Close(Apply(s, Check), d) && |s.flying| + 1 <= c
    ensures ClosedOk(Apply(s, Check), c, d) && NextOk(Apply(s, Check), d)
  {
    var t := Apply(s, Check);
    ClosingShape(s);
    ClosingNext(s, c, d);
    forall i: nat | i < |t.closed| ensures WindowOk(t.closed[i], c) && LateOk(t, i, c) && FullOk(t, i) {
      ClosingEach(s, c, d, i);
    }
    forall i: nat | i + 1 < |t.closed| ensures Adjacent(t, i, d) { ClosingAdjacent(s, c, d, i); }
  }

  lemma ClosingAdjacent(s: State, c: nat, d: nat, i: nat)
    requires Settled(s, c, d) && Closing(s, Check) && i < |s.closed|
    ensures |Apply(s, Check).closed| == |s.closed| + 1 && Adjacent(Apply(s, Check), i, d)
  {
    ClosingShape(s);
    assert WindowOk(s.closed[i], c);
    if i + 1 < |s.closed| { assert Adjacent(s, i, d); }
  }

  lemma StepSettled(s: State, step: Step, c: nat, d: nat)
    requires Settled(s, c, d) && Enabled(s, step) && !step.Succeed? && d < SLACK
    requires Close(s, d) && Close(Apply(s, step), d) && |s.flying| <= c && |Apply(s, step).flying| <= c
    ensures Settled(Apply(s, step), c, d)
  {
    StepOrderly(s, step, c, d);
    CurrentStep(s, step, c, d);
    if Closing(s, step) {
      ClosingShape(s);
      ClosingSettled(s, c, d);
    } else {
      OpenStepSettled(s, step, c, d);
    }
  }

  lemma {:induction false} RunSettled(r: Run, c: nat, d: nat, k: nat)
    requires IsRun(r) && NoSuccess(r) && Bounded(r, c, d) && d < SLACK && k < |r.states|
    ensures Settled(r.states[k], c, d)
  {
    if k > 0 {
      RunSettled(r, c, d, k - 1);
      assert |r.states[k].flying| <= c && Close(r.states[k], d);
      StepSettled(r.states[k - 1], r.steps[k - 1], c, d);
    }
  }

  // ---- any ten minutes ----

  function Windows(s: State): seq<seq<int>> { if s.entry.None? then s.closed else s.closed + [s.current] }

  lemma ClosedFollows(s: State, c: nat, d: nat, i: nat)
    requires Settled(s, c, d) && i < |Windows(s)| - 1
    ensures Follows(Windows(s), i, c, d)
  {
    var ws := Windows(s);
    assert WindowOk(s.closed[i], c) && LateOk(s, i, c);
    if i + 1 < |s.closed| { assert Adjacent(s, i, d); }
    if s.entry.Some? {
      assert ws[i + 1..] == s.closed[i + 1..] + [s.current];
      AppendAll(s.closed[i + 1..], s.current, End(s, i));
    }
  }

  lemma ClosedApart(s: State, c: nat, d: nat, i: nat, j: nat)
    requires Settled(s, c, d) && i < j < |Windows(s)| && |Windows(s)[i]| >= MAX_ATTEMPTS
    ensures Apart(Windows(s)[i], Windows(s)[j])
  {
    assert FullOk(s, i);
  }

  lemma EachWindowOk(s: State, c: nat, d: nat, i: nat)
    requires Settled(s, c, d) && i < |Windows(s)|
    ensures WindowOk(Windows(s)[i], c)
  {
    if i < |s.closed| { assert WindowOk(s.closed[i], c); }
  }

  lemma WindowsAreSuccessive(s: State, c: nat, d: nat)
    requires Settled(s, c, d)
    ensures Successive(Windows(s), c, d)
  {
    forall i: nat | i < |Windows(s)| ensures WindowOk(Windows(s)[i], c) { EachWindowOk(s, c, d, i); }
    forall i: nat | i < |Windows(s)| - 1 ensures Follows(Windows(s), i, c, d) { ClosedFollows(s, c, d, i); }
    forall i: nat, j: nat | i < j < |Windows(s)| && |Windows(s)[i]| >= MAX_ATTEMPTS
      ensures Apart(Windows(s)[i], Windows(s)[j])
    {
      ClosedApart(s, c, d, i, j);
    }
  }

  lemma HitsOfWindows(s: State, lo: int)
    requires s.entry.None? ==> s.current == []
    ensures HitsAll(Windows(s), lo) == HitsAll(s.closed, lo) + CountIn(s.current, lo)
  {
    AppendAll(s.closed, s.current, lo);
  }

  ghost predicate Tallied(s: State, lo: int) {
    CountIn(s.marks, lo) == HitsAll(s.closed, lo) + CountIn(s.current, lo)
  }

  lemma StepTallied(s: State, step: Step, lo: int)
    requires Tallied(s, lo) && Enabled(s, step) && (s.entry.None? ==> s.current == [])
    ensures Tallied(Apply(s, step), lo)
  {
    AppendAll(s.closed, s.current, lo);
    if step.Mark? {
      var m := s.flying[step.i];
      AppendCounts(s.marks, m, lo);
      AppendCounts(s.current, m, lo);
      AppendCounts([], m, lo);
      assert [] + [m] == [m];
    }
  }

  lemma {:induction false} RunTallied(r: Run, k: nat, lo: int)
    requires IsRun(r) && k < |r.states|
    ensures Tallied(r.states[k], lo) && (r.states[k].entry.None? ==> r.states[k].current == [])
  {
    if k > 0 {
      RunTallied(r, k - 1, lo);
      StepTallied(r.states[k - 1], r.steps[k - 1], lo);
    }
  }

  /** With no success between, any closed interval of ten minutes holds a bounded number of the recorded failures. */
  lemma FailuresAreBounded(r: Run, c: nat, d: nat, k: nat, lo: int)
    requires IsRun(r) && NoSuccess(r) && Bounded(r, c, d) && k < |r.states| && c >= 1
    requires c == 1 || d < SLACK
    ensures CountIn(r.states[k].marks, lo) <= SpreadBound(c, d)
  {
    var e := if c == 1 then 0 else d;
    if c == 1 { AloneIsClose(r, d); }
    RunSettled(r, c, e, k);
    WindowsAreSuccessive(r.states[k], c, e);
    SuccessiveHits(Windows(r.states[k]), c, e, lo);
    HitsOfWindows(r.states[k], lo);
    RunTallied(r, k, lo);
  }

  // ---- credentials examined ----

  ghost predicate Examines(s: State, lo: int) {
    CountIn(s.examined, lo) == CountIn(s.marks, lo) + CountIn(s.flying, lo)
  }

  lemma StepExamines(s: State, step: Step, lo: int)
    requires Examines(s, lo) && Enabled(s, step) && !step.Drop? && !step.Succeed?
    ensures Examines(Apply(s, step), lo)
  {
    match step {
      case Wait(_) =>
      case Check => CheckExamines(s, lo);
      case Mark(i) => MarkExamines(s, i, lo);
    }
  }

  lemma CheckExamines(s: State, lo: int)
    requires Examines(s, lo)
    ensures Examines(Apply(s, Check), lo)
  {
    AppendCounts(s.examined, s.clock, lo);
    AppendCounts(s.flying, s.clock, lo);
  }

  lemma MarkExamines(s: State, i: nat, lo: int)
    requires Examines(s, lo) && i < |s.flying|
    ensures Examines(Apply(s, Mark(i)), lo)
  {
    AppendCounts(s.marks, s.flying[i], lo);
    WithoutCounts(s.flying, i, lo);
  }

  lemma {:induction false} RunExamines(r: Run, k: nat, lo: int)
    requires IsRun(r) && AllWrong(r) && k < |r.states|
    ensures Examines(r.states[k], lo)
  {
    if k > 0 {
      RunExamines(r, k - 1, lo);
      StepExamines(r.states[k - 1], r.steps[k - 1], lo);
    }
  }

  /** Let everything in flight be marked: the failures are then all that was examined. */
  lemma {:induction false} MarkTheRest(s: State, c: nat, d: nat, lo: int)
    requires Reachable(s, c, d, true) && Examines(s, lo)
    ensures exists t :: Reachable(t, c, d, true) && CountIn(t.marks, lo) == CountIn(s.examined, lo)
    decreases |s.flying|
  {
    if s.flying != [] {
      MarkFirst(s, c, d);
      MarkExamines(s, 0, lo);
      MarkTheRest(Apply(s, Mark(0)), c, d, lo);
    }
  }

  lemma MarkFirst(s: State, c: nat, d: nat)
    requires Reachable(s, c, d, true) && s.flying != []
    ensures var t := Apply(s, Mark(0)); Reachable(t, c, d, true) && |t.flying| < |s.flying| && t.examined == s.examined
  {
    var r :| Reached(r, s, c, d, true);
    assert r.states[|r.states| - 1] == s;
    assert |s.flying| <= c && Close(s, d);
    Go(s, Mark(0), c, d, true);
  }

  /** When every attempt carries a wrong credential: how many are examined in any ten minutes. */
  lemma ExaminedAreBounded(r: Run, c: nat, d: nat, lo: int)
    requires IsRun(r) && AllWrong(r) && Bounded(r, c, d) && c >= 1
    requires c == 1 || d < SLACK
    ensures CountIn(Last(r).examined, lo) <= SpreadBound(c, d)
  {
    RunExamines(r, |r.states| - 1, lo);
    assert Reached(r, Last(r), c, d, true);
    MarkTheRest(Last(r), c, d, lo);
    var t :| Reachable(t, c, d, true) && CountIn(t.marks, lo) == CountIn(Last(r).examined, lo);
    var g :| Reached(g, t, c, d, true);
    FailuresAreBounded(g, c, d, |g.states| - 1, lo);
  }
}
