/**
 The bounds of ThrottleRace.dfy are exact: runs that reach them, a run that exceeds the count when two
 attempts in flight read the clock five minutes apart, and attempts one after another as the case of
 a single one in flight.
 */
module ThrottleLimits {
  import opened Options
  import opened Sequences
  import opened BindThrottle
  import opened ThrottleWindows
  import opened ThrottleRace
  import opened ThrottleIntervals

  /** What the witness runs keep track of. */
  ghost predicate Looks(s: State, clock: int, entry: Option<Attempt>, flying: seq<int>, lo: int, hits: nat) {
    s.clock == clock && s.entry == entry && s.flying == flying && CountIn(s.marks, lo) == hits
  }

  ghost predicate Stands(c: nat, d: nat, clock: int, entry: Option<Attempt>, flying: seq<int>, lo: int, hits: nat) {
    exists s :: Reachable(s, c, d, true) && Looks(s, clock, entry, flying, lo, hits)
  }

  /** A state that stands so is within the bounds itself. */
  lemma Standing(c: nat, d: nat, clock: int, entry: Option<Attempt>, flying: seq<int>, lo: int, hits: nat)
    returns (s: State)
    requires Stands(c, d, clock, entry, flying, lo, hits)
    ensures Reachable(s, c, d, true) && |s.flying| <= c && Close(s, d) && Looks(s, clock, entry, flying, lo, hits)
  {
    s :| Reachable(s, c, d, true) && Looks(s, clock, entry, flying, lo, hits);
    var r :| Reached(r, s, c, d, true);
    assert r.states[|r.states| - 1] == s;
  }

  ghost predicate Near(flying: seq<int>, clock: int, d: nat) {
    forall i :: 0 <= i < |flying| ==> flying[i] <= clock <= flying[i] + d
  }

  function Hit(t: int, lo: int): nat { if lo <= t <= lo + WINDOW then 1 else 0 }

  lemma Start(c: nat, d: nat, clock: int, lo: int)
    ensures Stands(c, d, clock, None, [], lo, 0)
  {
    var s := State(clock, None, [], [], [], [], []);
    assert Reached(Run([s], []), s, c, d, true);
    assert Looks(s, clock, None, [], lo, 0);
  }

  lemma WaitFor(c: nat, d: nat, clock: int, entry: Option<Attempt>, flying: seq<int>, lo: int, hits: nat, elapsed: nat)
    requires Stands(c, d, clock, entry, flying, lo, hits)
    ensures Stands(c, d, clock + elapsed, entry, flying, lo, hits)
  {
    var s := Standing(c, d, clock, entry, flying, lo, hits);
    Go(s, Wait(elapsed), c, d, true);
    assert Looks(Apply(s, Wait(elapsed)), clock + elapsed, entry, flying, lo, hits);
  }

  lemma Pass(c: nat, d: nat, clock: int, entry: Option<Attempt>, flying: seq<int>, lo: int, hits: nat)
    requires Stands(c, d, clock, entry, flying, lo, hits) && !Blocked(entry, clock)
    requires |flying| + 1 <= c && Near(flying, clock, d)
    ensures Stands(c, d, clock, AfterCheck(entry, clock), flying + [clock], lo, hits)
  {
    var s := Standing(c, d, clock, entry, flying, lo, hits);
    Go(s, Check, c, d, true);
    assert Looks(Apply(s, Check), clock, AfterCheck(entry, clock), flying + [clock], lo, hits);
  }

  lemma MarkOne(c: nat, d: nat, clock: int, entry: Option<Attempt>, flying: seq<int>, lo: int, hits: nat, i: nat)
    requires Stands(c, d, clock, entry, flying, lo, hits) && i < |flying|
    ensures Stands(c, d, clock, Some(AfterFailure(entry, flying[i])), RemoveAt(flying, i), lo,
      hits + Hit(flying[i], lo))
  {
    var s := Standing(c, d, clock, entry, flying, lo, hits);
    AppendCounts(s.marks, flying[i], lo);
    assert Looks(Apply(s, Mark(i)), clock, Some(AfterFailure(entry, flying[i])), RemoveAt(flying, i), lo,
      hits + Hit(flying[i], lo));
    assert Close(Apply(s, Mark(i)), d) by {
      assert forall j :: 0 <= j < |RemoveAt(flying, i)| ==>
        RemoveAt(flying, i)[j] == s.flying[if j < i then j else j + 1];
    }
    Go(s, Mark(i), c, d, true);
  }

  /** A failed attempt that is over at once. */
  lemma FailOnce(c: nat, d: nat, clock: int, entry: Option<Attempt>, flying: seq<int>, lo: int, hits: nat)
    requires Stands(c, d, clock, entry, flying, lo, hits) && !Blocked(entry, clock)
    requires |flying| + 1 <= c && Near(flying, clock, d)
    ensures Stands(c, d, clock, Fail(entry, clock).0, flying, lo, hits + Hit(clock, lo))
  {
    Pass(c, d, clock, entry, flying, lo, hits);
    MarkOne(c, d, clock, AfterCheck(entry, clock), flying + [clock], lo, hits, |flying|);
    assert RemoveAt(flying + [clock], |flying|) == flying;
  }

  function Rep(x: int, n: nat): seq<int> { if n == 0 then [] else Rep(x, n - 1) + [x] }

  lemma {:induction false} RepIs(x: int, n: nat)
    ensures |Rep(x, n)| == n && forall i :: 0 <= i < n ==> Rep(x, n)[i] == x
  {
    if n > 0 { RepIs(x, n - 1); }
  }

  /** The entry after n more failures at time t in its window. */
  function Counted(a: Attempt, t: int, n: nat): Attempt {
    if n == 0 then a
    else Attempt(a.count + n, a.first, if a.count + n >= MAX_ATTEMPTS then Some(t + BLOCK_FOR) else a.blockedTil)
  }

  /** n attempts pass the check together, at an entry that is not full. */
  lemma {:induction false} PassMany(c: nat, d: nat, clock: int, a: Attempt, flying: seq<int>, lo: int, hits: nat,
                                    n: nat)
    requires Stands(c, d, clock, Some(a), flying, lo, hits) && a.blockedTil.None? && clock - a.first <= WINDOW
    requires |flying| + n <= c && Near(flying, clock, d)
    ensures Stands(c, d, clock, Some(a), flying + Rep(clock, n), lo, hits)
  {
    if n == 0 {
      assert flying + [] == flying;
    } else {
      PassMany(c, d, clock, a, flying, lo, hits, n - 1);
      RepIs(clock, n - 1);
      var many := flying + Rep(clock, n - 1);
      Pass(c, d, clock, Some(a), many, lo, hits);
      assert many + [clock] == flying + Rep(clock, n);
    }
  }

  /** The last n in flight are marked one after another. */
  lemma {:induction false} MarkMany(c: nat, d: nat, clock: int, a: Attempt, flying: seq<int>, t: int, lo: int,
                                    hits: nat, n: nat)
    requires Stands(c, d, clock, Some(a), flying + Rep(t, n), lo, hits) && t - a.first <= WINDOW && a.count >= 1
    ensures Stands(c, d, clock, Some(Counted(a, t, n)), flying, lo, hits + n * Hit(t, lo))
    decreases n
  {
    if n == 0 {
      assert flying + [] == flying;
    } else {
      RepIs(t, n);
      var many, last := flying + Rep(t, n), |flying| + n - 1;
      MarkOne(c, d, clock, Some(a), many, lo, hits, last);
      assert RemoveAt(many, last) == flying + Rep(t, n - 1);
      var b := AfterFailure(Some(a), t);
      MarkMany(c, d, clock, b, flying, t, lo, hits + Hit(t, lo), n - 1);
      assert Counted(b, t, n - 1) == Counted(a, t, n);
      assert hits + Hit(t, lo) + (n - 1) * Hit(t, lo) == hits + n * Hit(t, lo);
    }
  }

  /** n failures on top of an entry that is not full, all in flight together. */
  lemma FailTogether(c: nat, d: nat, clock: int, a: Attempt, flying: seq<int>, lo: int, hits: nat, n: nat)
    requires Stands(c, d, clock, Some(a), flying, lo, hits) && a.blockedTil.None? && a.count >= 1
    requires clock - a.first <= WINDOW && |flying| + n <= c && Near(flying, clock, d)
    ensures Stands(c, d, clock, Some(Counted(a, clock, n)), flying, lo, hits + n * Hit(clock, lo))
  {
    PassMany(c, d, clock, a, flying, lo, hits, n);
    MarkMany(c, d, clock, a, flying, clock, lo, hits, n);
  }

  /** Failures one at a time, up to four in the window. */
  lemma {:induction false} FailInTurn(c: nat, d: nat, clock: int, a: Attempt, flying: seq<int>, lo: int, hits: nat,
                                      n: nat)
    requires Stands(c, d, clock, Some(a), flying, lo, hits) && a.blockedTil.None? && 1 <= a.count
    requires a.count + n < MAX_ATTEMPTS
    requires clock - a.first <= WINDOW && |flying| + 1 <= c && Near(flying, clock, d)
    ensures Stands(c, d, clock, Some(Attempt(a.count + n, a.first, None)), flying, lo, hits + n * Hit(clock, lo))
  {
    if n > 0 {
      FailInTurn(c, d, clock, a, flying, lo, hits, n - 1);
      FailOnce(c, d, clock, Some(Attempt(a.count + n - 1, a.first, None)), flying, lo, hits + (n - 1) * Hit(clock, lo));
      assert (n - 1) * Hit(clock, lo) + Hit(clock, lo) == n * Hit(clock, lo);
    }
  }

  /** Four failures at once, none in flight, in a fresh window. */
  lemma FourFailures(c: nat, d: nat, clock: int, entry: Option<Attempt>, lo: int, hits: nat)
    requires Stands(c, d, clock, entry, [], lo, hits) && !Blocked(entry, clock) && AfterCheck(entry, clock).None?
    requires c >= 1
    ensures Stands(c, d, clock, Some(Attempt(4, clock, None)), [], lo, hits + 4 * Hit(clock, lo))
  {
    FailOnce(c, d, clock, entry, [], lo, hits);
    FailInTurn(c, d, clock, Attempt(1, clock, None), [], lo, hits + Hit(clock, lo), 3);
  }

  /** However close together they are, c attempts in flight bring the count to 4 + c. */
  lemma CountIsReached(c: nat, d: nat)
    requires c >= 1
    ensures exists s :: Reachable(s, c, d, true) && Count(s) == MAX_ATTEMPTS - 1 + c
  {
    Start(c, d, 0, 0);
    FourFailures(c, d, 0, None, 0, 0);
    FailTogether(c, d, 0, Attempt(4, 0, None), [], 0, 4 * Hit(0, 0), c);
    var s := Standing(c, d, 0, Some(Counted(Attempt(4, 0, None), 0, c)), [], 0, 4 * Hit(0, 0) + c * Hit(0, 0));
  }

  /** One attempt is in flight from time zero; five minutes later a window opens and fills up to four. */
  lemma StaleInFlight(c: nat, d: nat)
    requires c >= 2 && d >= SLACK
    ensures Stands(c, d, SLACK, Some(Attempt(4, SLACK, None)), [0], 0, 4 * Hit(SLACK, 0))
  {
    Start(c, d, 0, 0);
    Pass(c, d, 0, None, [], 0, 0);
    assert [] + [0] == [0];
    WaitFor(c, d, 0, None, [0], 0, 0, SLACK);
    FailOnce(c, d, SLACK, None, [0], 0, 0);
    FailInTurn(c, d, SLACK, Attempt(1, SLACK, None), [0], 0, Hit(SLACK, 0), 3);
  }

  /** It is marked last, after c - 1 others: the entry is full, but blocked only until the window's end. */
  lemma StaleMarkedLast(c: nat, d: nat) returns (hits: nat)
    requires c >= 2 && d >= SLACK
    ensures Stands(c, d, SLACK, Some(Attempt(4 + c, SLACK, Some(BLOCK_FOR))), [], 0, hits)
  {
    StaleInFlight(c, d);
    hits := 4 * Hit(SLACK, 0) + (c - 1) * Hit(SLACK, 0);
    FailTogether(c, d, SLACK, Attempt(4, SLACK, None), [0], 0, 4 * Hit(SLACK, 0), c - 1);
    var full := Counted(Attempt(4, SLACK, None), SLACK, c - 1);
    MarkOne(c, d, SLACK, Some(full), [0], 0, hits, 0);
    assert RemoveAt([0], 0) == [];
    hits := hits + Hit(0, 0);
  }

  /**
   Two attempts in flight that read the clock five minutes apart: the older one, marked last, leaves a
   block that is over while the window still runs, and the next check passes at a full entry.
   */
  lemma StaleMarkUnblocks(c: nat, d: nat)
    requires c >= 2 && d >= SLACK
    ensures exists s :: Reachable(s, c, d, true) && Count(s) == MAX_ATTEMPTS + c
  {
    var hits := StaleMarkedLast(c, d);
    var stale := Attempt(4 + c, SLACK, Some(BLOCK_FOR));
    WaitFor(c, d, SLACK, Some(stale), [], 0, hits, WINDOW);
    FailOnce(c, d, BLOCK_FOR, Some(stale), [], 0, hits);
    var s := Standing(c, d, BLOCK_FOR, Fail(Some(stale), BLOCK_FOR).0, [], 0, hits + Hit(BLOCK_FOR, 0));
  }

  /** In all runs with at most c in flight, no two more than d apart: the count stays within b. */
  ghost predicate CountWithin(c: nat, d: nat, b: nat) {
    forall r, k :: IsRun(r) && Bounded(r, c, d) && 0 <= k < |r.states| ==> Count(r.states[k]) <= b
  }

  /** The count stays within 4 + c exactly when one is in flight at a time or they are less than five minutes apart. */
  lemma CountBoundIsExact(c: nat, d: nat)
    requires c >= 1
    ensures CountWithin(c, d, MAX_ATTEMPTS - 1 + c) <==> c == 1 || d < SLACK
  {
    if c == 1 || d < SLACK {
      forall r, k | IsRun(r) && Bounded(r, c, d) && 0 <= k < |r.states|
        ensures Count(r.states[k]) <= MAX_ATTEMPTS - 1 + c
      {
        CountIsBounded(r, c, d, k);
      }
    } else {
      StaleMarkUnblocks(c, d);
      var s :| Reachable(s, c, d, true) && Count(s) == MAX_ATTEMPTS + c;
      var r :| Reached(r, s, c, d, true);
      assert Count(r.states[|r.states| - 1]) > MAX_ATTEMPTS - 1 + c;
    }
  }

  /** The intended limit of five holds exactly when attempts at one key come one at a time. */
  lemma FiveIsExact(c: nat, d: nat)
    requires c >= 1
    ensures CountWithin(c, d, MAX_ATTEMPTS) <==> c == 1
  {
    if c == 1 {
      CountBoundIsExact(c, d);
    } else {
      CountIsReached(c, d);
      var s :| Reachable(s, c, d, true) && Count(s) == MAX_ATTEMPTS - 1 + c;
      var r :| Reached(r, s, c, d, true);
      assert Count(r.states[|r.states| - 1]) > MAX_ATTEMPTS;
    }
  }

  // ---- ten minutes, filled ----

  /** Three failures as a window closes. */
  lemma ThreeAtTheEnd(c: nat, d: nat)
    requires c >= 1
    ensures Stands(c, d, WINDOW, Some(Attempt(4, 0, None)), [], WINDOW, 3)
  {
    Start(c, d, 0, WINDOW);
    FailOnce(c, d, 0, None, [], WINDOW, 0);
    WaitFor(c, d, 0, Some(Attempt(1, 0, None)), [], WINDOW, 0, WINDOW);
    FailInTurn(c, d, WINDOW, Attempt(1, 0, None), [], WINDOW, 0, 3);
  }

  /** Then, in the next one, four and c together. */
  lemma NearFill(c: nat, d: nat)
    requires c >= 1
    ensures exists s :: Reachable(s, c, d, true) && CountIn(s.marks, WINDOW) == MAX_ATTEMPTS + 2 + c
  {
    var lo, next := WINDOW, WINDOW + 1;
    ThreeAtTheEnd(c, d);
    WaitFor(c, d, WINDOW, Some(Attempt(4, 0, None)), [], lo, 3, 1);
    FourFailures(c, d, next, Some(Attempt(4, 0, None)), lo, 3);
    FailTogether(c, d, next, Attempt(4, next, None), [], lo, 7, c);
    var s := Standing(c, d, next, Some(Counted(Attempt(4, next, None), next, c)), [], lo, 7 + c);
  }

  /** One failure opens a window; at its last moment but one an attempt is in flight. */
  lemma OneBefore(c: nat, d: nat)
    requires c >= 2
    ensures Stands(c, d, WINDOW - 1, Some(Attempt(1, 0, None)), [WINDOW - 1], WINDOW, 0)
  {
    Start(c, d, 0, WINDOW);
    FailOnce(c, d, 0, None, [], WINDOW, 0);
    WaitFor(c, d, 0, Some(Attempt(1, 0, None)), [], WINDOW, 0, WINDOW - 1);
    Pass(c, d, WINDOW - 1, Some(Attempt(1, 0, None)), [], WINDOW, 0);
    assert [] + [WINDOW - 1] == [WINDOW - 1];
  }

  /** While it is in flight, three failures end the window. */
  lemma BeforeOverlap(c: nat, d: nat)
    requires c >= 2 && d >= 2
    ensures Stands(c, d, WINDOW + 1, Some(Attempt(4, 0, None)), [WINDOW - 1], WINDOW, 3)
  {
    var lo, before := WINDOW, WINDOW - 1;
    OneBefore(c, d);
    WaitFor(c, d, before, Some(Attempt(1, 0, None)), [before], lo, 0, 1);
    FailInTurn(c, d, WINDOW, Attempt(1, 0, None), [before], lo, 0, 3);
    WaitFor(c, d, WINDOW, Some(Attempt(4, 0, None)), [before], lo, 3, 1);
  }

  /** That attempt opens the next window before the interval, which then takes three more. */
  lemma Overlap(c: nat, d: nat)
    requires c >= 2 && d >= 2
    ensures Stands(c, d, WINDOW + 1, Some(Attempt(4, WINDOW - 1, None)), [], WINDOW, 6)
  {
    var lo, before, next := WINDOW, WINDOW - 1, WINDOW + 1;
    BeforeOverlap(c, d);
    Pass(c, d, next, Some(Attempt(4, 0, None)), [before], lo, 3);
    MarkOne(c, d, next, None, [before] + [next], lo, 3, 0);
    assert RemoveAt([before] + [next], 0) == [next];
    MarkOne(c, d, next, Some(Attempt(1, before, None)), [next], lo, 3, 0);
    assert RemoveAt([next], 0) == [];
    FailInTurn(c, d, next, Attempt(2, before, None), [], lo, 4, 2);
  }

  lemma WideFill(c: nat, d: nat)
    requires c >= 2 && d >= 2
    ensures exists s :: Reachable(s, c, d, true) && CountIn(s.marks, WINDOW) == MAX_ATTEMPTS + 5 + c
  {
    var lo, end := WINDOW, 2 * WINDOW;
    var old4 := Attempt(4, WINDOW - 1, None);
    Overlap(c, d);
    WaitFor(c, d, WINDOW + 1, Some(old4), [], lo, 6, WINDOW - 1);
    FourFailures(c, d, end, Some(old4), lo, 6);
    FailTogether(c, d, end, Attempt(4, end, None), [], lo, 10, c);
    var s := Standing(c, d, end, Some(Counted(Attempt(4, end, None), end, c)), [], lo, 10 + c);
  }

  /** The bound on ten minutes is reached for every number in flight and every distance. */
  lemma SpreadIsReached(c: nat, d: nat)
    requires c >= 1
    ensures exists s :: Reachable(s, c, d, true) && CountIn(s.marks, WINDOW) == SpreadBound(c, d)
  {
    if c == 1 || d <= 1 { NearFill(c, d); } else { WideFill(c, d); }
  }

  /**
   The intended eight failures in any ten minutes, with no success between, are kept by all such runs
   exactly when attempts at one key come one at a time.
   */
  lemma EightIsExact(c: nat, d: nat)
    requires c >= 1
    ensures (forall r, k, lo: int :: IsRun(r) && NoSuccess(r) && Bounded(r, c, d) && 0 <= k < |r.states| ==>
               CountIn(r.states[k].marks, lo) <= 8)
       <==> c == 1
  {
    if c == 1 {
      forall r, k, lo: int | IsRun(r) && NoSuccess(r) && Bounded(r, c, d) && 0 <= k < |r.states|
        ensures CountIn(r.states[k].marks, lo) <= 8
      {
        FailuresAreBounded(r, c, d, k, lo);
      }
    } else {
      SpreadIsReached(c, d);
      var s :| Reachable(s, c, d, true) && CountIn(s.marks, WINDOW) == SpreadBound(c, d);
      var r :| Reached(r, s, c, d, true);
      assert CountIn(r.states[|r.states| - 1].marks, WINDOW) > 8;
    }
  }

  // ---- successes between ----

  /** One at a time at time zero: the entry, what is in flight, and n failures recorded. */
  ghost predicate Going(entry: Option<Attempt>, flying: seq<int>, n: nat) {
    exists s :: Reachable(s, 1, 0, false) && Looks(s, 0, entry, flying, 0, n)
  }

  lemma GoOn(step: Step, entry: Option<Attempt>, flying: seq<int>, n: nat) returns (s: State)
    requires Going(entry, flying, n)
    requires (step.Check? && flying == []) || (step in {Mark(0), Succeed(0)} && |flying| == 1)
    ensures Looks(s, 0, entry, flying, 0, n) && Enabled(s, step) && Reachable(Apply(s, step), 1, 0, false)
  {
    s :| Reachable(s, 1, 0, false) && Looks(s, 0, entry, flying, 0, n);
    Go(s, step, 1, 0, false);
  }

  lemma PassAtZero(entry: Option<Attempt>, n: nat)
    requires Going(entry, [], n) && !Blocked(entry, 0)
    ensures Going(AfterCheck(entry, 0), [0], n)
  {
    var s := GoOn(Check, entry, [], n);
    assert Looks(Apply(s, Check), 0, AfterCheck(entry, 0), [0], 0, n);
  }

  lemma MarkAtZero(entry: Option<Attempt>, n: nat)
    requires Going(entry, [0], n)
    ensures Going(Some(AfterFailure(entry, 0)), [], n + 1)
  {
    var s := GoOn(Mark(0), entry, [0], n);
    AppendCounts(s.marks, 0, 0);
    assert Looks(Apply(s, Mark(0)), 0, Some(AfterFailure(entry, 0)), [], 0, n + 1);
  }

  lemma SucceedAtZero(entry: Option<Attempt>, n: nat)
    requires Going(entry, [0], n)
    ensures Going(None, [], n)
  {
    var s := GoOn(Succeed(0), entry, [0], n);
    assert Looks(Apply(s, Succeed(0)), 0, None, [], 0, n);
  }

  /** A success clears the key: with successes between, one at a time and at one instant, there is no bound. */
  lemma {:induction false} SuccessesForget(n: nat)
    ensures Going(None, [], n)
  {
    if n == 0 {
      var s := State(0, None, [], [], [], [], []);
      assert Reached(Run([s], []), s, 1, 0, false) && Looks(s, 0, None, [], 0, 0);
    } else {
      SuccessesForget(n - 1);
      PassAtZero(None, n - 1);
      MarkAtZero(None, n - 1);
      PassAtZero(Some(AfterFailure(None, 0)), n);
      SucceedAtZero(Some(AfterFailure(None, 0)), n);
    }
  }

  // ---- one after another ----

  /** Failed attempts one after another are a run with one in flight. */
  lemma {:induction false} AttemptsAreARun(times: seq<int>, lo: int)
    requires Sorted(times)
    ensures Stands(1, 0, if times == [] then 0 else times[|times| - 1], PlayFailures(times).0, [], lo,
                   CountIn(PlayFailures(times).1, lo))
  {
    if times == [] {
      Start(1, 0, 0, lo);
    } else {
      var n := |times| - 1;
      var t := times[n];
      var (e, marks) := PlayFailures(times[..n]);
      var clock := if n == 0 then t else times[n - 1];
      if n == 0 { Start(1, 0, t, lo); } else { AttemptsAreARun(times[..n], lo); }
      var hits := CountIn(marks, lo);
      WaitFor(1, 0, clock, e, [], lo, hits, t - clock);
      AppendCounts(marks, t, lo);
      if !Blocked(e, t) { FailOnce(1, 0, t, e, [], lo, hits); }
    }
  }

  /**
   For one key, attempts one after another and no success between: never more than five counted, never
   more than eight in ten minutes.
   */
  lemma ThrottleBound(times: seq<int>, lo: int)
    requires Sorted(times)
    ensures PlayFailures(times).0.Some? ==> PlayFailures(times).0.value.count <= MAX_ATTEMPTS
    ensures CountIn(PlayFailures(times).1, lo) <= 8
  {
    AttemptsAreARun(times, lo);
    var clock := if times == [] then 0 else times[|times| - 1];
    var s := Standing(1, 0, clock, PlayFailures(times).0, [], lo, CountIn(PlayFailures(times).1, lo));
    var r :| Reached(r, s, 1, 0, true);
    CountIsBounded(r, 1, 0, |r.states| - 1);
    FailuresAreBounded(r, 1, 0, |r.states| - 1, lo);
  }
}
