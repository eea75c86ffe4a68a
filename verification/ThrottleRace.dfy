/**
 The bind throttle under concurrent attempts at one key. An attempt reads the clock, is checked, and
 only after the client lookup is marked, with the time it read; any number of attempts may be between
 the two. With at most c in flight the count stays within 4 + c exactly when c = 1 or no two of them
 read the clock five minutes or more apart, successful binds between them or not.
 */
module ThrottleRace {
  import opened Options
  import opened Sequences
  import opened BindThrottle
  import opened ThrottleWindows

  datatype State = State(
    clock: int,
    entry: Option<Attempt>,
    flying: seq<int>,           // the times read by the attempts between check and mark
    // observations
    closed: seq<seq<int>>,      // the failures of each earlier entry, in the order of their marks
    current: seq<int>,          // those of the present entry
    marks: seq<int>,            // all of them
    examined: seq<int>)         // the times read by all attempts that passed the check

  datatype Step = Wait(elapsed: nat) | Check | Mark(i: nat) | Drop(i: nat) | Succeed(i: nat)

  predicate Enabled(s: State, step: Step) {
    match step
    case Wait(_) => true
    case Check => true
    case Mark(i) => i < |s.flying|
    case Drop(i) => i < |s.flying|   // a failed lookup, or a client at its limit, marks nothing
    case Succeed(i) => i < |s.flying|   // an accepted bind clears the key
  }

  function CloseEntry(s: State): State {
    if s.entry.None? then s else s.(closed := s.closed + [s.current], current := [])
  }

  function Apply(s: State, step: Step): State
    requires Enabled(s, step)
  {
    match step
    case Wait(elapsed) => s.(clock := s.clock + elapsed)
    case Check =>
      if Blocked(s.entry, s.clock) then s
      else
        var e := AfterCheck(s.entry, s.clock);
        var t := if e.None? then CloseEntry(s) else s;
        t.(entry := e, flying := s.flying + [s.clock], examined := s.examined + [s.clock])
    case Mark(i) =>
      var m := s.flying[i];
      var t := if s.entry.Some? && m - s.entry.value.first > WINDOW then CloseEntry(s) else s;
      t.(entry := Some(AfterFailure(s.entry, m)), flying := RemoveAt(s.flying, i),
         current := t.current + [m], marks := s.marks + [m])
    case Drop(i) => s.(flying := RemoveAt(s.flying, i))
    case Succeed(i) => CloseEntry(s).(entry := None, flying := RemoveAt(s.flying, i))
  }

  ghost predicate Init(s: State) {
    s.entry.None? && s.flying == [] && s.closed == [] && s.current == [] && s.marks == [] && s.examined == []
  }

  datatype Run = Run(states: seq<State>, steps: seq<Step>)

  ghost predicate IsRun(r: Run) {
    && |r.states| == |r.steps| + 1 && Init(r.states[0])
    && forall k :: 0 <= k < |r.steps| ==>
      Enabled(r.states[k], r.steps[k]) && r.states[k + 1] == Apply(r.states[k], r.steps[k])
  }

  function Last(r: Run): State
    requires r.states != []
  {
    r.states[|r.states| - 1]
  }

  /** No two attempts in flight read the clock more than d apart. */
  ghost predicate Close(s: State, d: nat) {
    forall i, j :: 0 <= i < |s.flying| && 0 <= j < |s.flying| ==> s.flying[i] <= s.flying[j] + d
  }

  /** At most c attempts are in flight at any time, and no two of them read the clock more than d apart. */
  ghost predicate Bounded(r: Run, c: nat, d: nat) {
    forall k :: 0 <= k < |r.states| ==> |r.states[k].flying| <= c && Close(r.states[k], d)
  }

  function Count(s: State): nat { if s.entry.Some? then s.entry.value.count else 0 }

  // ---- the count ----

  predicate Full(a: Attempt) { a.count >= MAX_ATTEMPTS }

  /** The entry is the current window; a full one stays blocked until the window is over. */
  ghost predicate EntryOk(s: State, c: nat) {
    match s.entry
    case None => s.current == []
    case Some(a) =>
      && a.count == |s.current| >= 1 && s.current[0] == a.first
      && a.count + |s.flying| <= MAX_ATTEMPTS - 1 + c
      && a.blockedTil == (if Full(a) then Some(s.current[|s.current| - 1] + BLOCK_FOR) else None)
      && (Full(a) ==> s.current[|s.current| - 1] + SLACK > a.first)
  }

  /** No recorded failure is newer than the clock, or newer by more than d than an attempt in flight. */
  ghost predicate Recent(xs: seq<int>, s: State, d: nat) {
    && (forall i :: 0 <= i < |xs| ==> xs[i] <= s.clock)
    && forall i, j :: 0 <= i < |xs| && 0 <= j < |s.flying| ==> xs[i] <= s.flying[j] + d
  }

  ghost predicate FlyingOk(s: State) {
    && (forall i :: 0 <= i < |s.flying| ==> s.flying[i] <= s.clock)
    && (s.entry.Some? ==> forall i :: 0 <= i < |s.flying| ==> s.flying[i] - s.entry.value.first <= WINDOW)
  }

  ghost predicate Orderly(s: State, c: nat, d: nat) {
    EntryOk(s, c) && FlyingOk(s) && Recent(s.current, s, d)
  }

  /** A check that passes at an existing entry finds it not full. */
  lemma PassedIsNotFull(s: State, c: nat)
    requires EntryOk(s, c) && s.entry.Some? && !Blocked(s.entry, s.clock) && s.clock - s.entry.value.first <= WINDOW
    ensures !Full(s.entry.value)
  {
  }

  lemma CheckOrderly(s: State, c: nat, d: nat)
    requires Orderly(s, c, d) && |Apply(s, Check).flying| <= c
    ensures Orderly(Apply(s, Check), c, d)
  {
    if s.entry.Some? && !Blocked(s.entry, s.clock) && s.clock - s.entry.value.first <= WINDOW { PassedIsNotFull(s, c); }
  }

  lemma MarkOrderly(s: State, i: nat, c: nat, d: nat)
    requires Orderly(s, c, d) && i < |s.flying| <= c && Close(s, d) && d < SLACK
    ensures Orderly(Apply(s, Mark(i)), c, d)
  {
    var t := Apply(s, Mark(i));
    assert forall j :: 0 <= j < |t.flying| ==> t.flying[j] in s.flying;
  }

  lemma LeaveOrderly(s: State, i: nat, c: nat, d: nat)
    requires Orderly(s, c, d) && i < |s.flying|
    ensures Orderly(Apply(s, Drop(i)), c, d) && Orderly(Apply(s, Succeed(i)), c, d)
  {
    assert forall j :: 0 <= j < |RemoveAt(s.flying, i)| ==> RemoveAt(s.flying, i)[j] in s.flying;
  }

  lemma StepOrderly(s: State, step: Step, c: nat, d: nat)
    requires Orderly(s, c, d) && Enabled(s, step) && Close(s, d) && d < SLACK
    requires |s.flying| <= c && |Apply(s, step).flying| <= c
    ensures Orderly(Apply(s, step), c, d)
  {
    match step {
      case Wait(_) =>
      case Check => CheckOrderly(s, c, d);
      case Mark(i) => MarkOrderly(s, i, c, d);
      case Drop(i) => LeaveOrderly(s, i, c, d);
      case Succeed(i) => LeaveOrderly(s, i, c, d);
    }
  }

  lemma {:induction false} RunOrderly(r: Run, c: nat, d: nat, k: nat)
    requires IsRun(r) && Bounded(r, c, d) && d < SLACK && k < |r.states|
    ensures Orderly(r.states[k], c, d)
  {
    if k > 0 {
      RunOrderly(r, c, d, k - 1);
      assert |r.states[k].flying| <= c;
      StepOrderly(r.states[k - 1], r.steps[k - 1], c, d);
    }
  }

  /** Alone in flight an attempt is close to all others in flight. */
  lemma AloneIsClose(r: Run, d: nat)
    requires Bounded(r, 1, d)
    ensures Bounded(r, 1, 0)
  {
  }

  /** With at most c in flight, close together or one at a time, the count never exceeds 4 + c. */
  lemma CountIsBounded(r: Run, c: nat, d: nat, k: nat)
    requires IsRun(r) && Bounded(r, c, d) && k < |r.states| && c >= 1
    requires c == 1 || d < SLACK
    ensures Count(r.states[k]) <= MAX_ATTEMPTS - 1 + c
  {
    if c == 1 {
      AloneIsClose(r, d);
      RunOrderly(r, c, 0, k);
    } else {
      RunOrderly(r, c, d, k);
    }
  }

  // ---- reachable states ----

  ghost predicate NoSuccess(r: Run) { forall k :: 0 <= k < |r.steps| ==> !r.steps[k].Succeed? }

  /** Every attempt carries a wrong credential, so each that passes the check is marked. */
  ghost predicate AllWrong(r: Run) { NoSuccess(r) && forall k :: 0 <= k < |r.steps| ==> !r.steps[k].Drop? }

  /** A bounded run ends in this state; when asked for, one in which every attempt is wrong. */
  ghost predicate Reached(r: Run, s: State, c: nat, d: nat, wrong: bool) {
    IsRun(r) && r.states != [] && Last(r) == s && Bounded(r, c, d) && (wrong ==> AllWrong(r))
  }

  ghost predicate Reachable(s: State, c: nat, d: nat, wrong: bool) {
    exists r :: Reached(r, s, c, d, wrong)
  }

  /** One more step. */
  lemma Go(s: State, step: Step, c: nat, d: nat, wrong: bool)
    requires Reachable(s, c, d, wrong) && Enabled(s, step) && (wrong ==> !step.Drop? && !step.Succeed?)
    requires |Apply(s, step).flying| <= c && Close(Apply(s, step), d)
    ensures Reachable(Apply(s, step), c, d, wrong)
  {
    var r :| Reached(r, s, c, d, wrong);
    var g := Run(r.states + [Apply(s, step)], r.steps + [step]);
    forall k | 0 <= k < |g.steps|
      ensures Enabled(g.states[k], g.steps[k]) && g.states[k + 1] == Apply(g.states[k], g.steps[k])
    {
      assert k < |r.steps| ==> g.states[k] == r.states[k] && g.steps[k] == r.steps[k];
    }
    assert Reached(g, Apply(s, step), c, d, wrong);
  }
}
