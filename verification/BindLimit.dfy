/**
 A client's bind limit under concurrent binds. A bind compares the number of live sessions with the
 limit in one critical section and adds its session in another; any number of binds may be between
 the two. With at most c of them there the sessions stay within limit + c - 1, and that is reached,
 so the limit itself holds exactly when binds of one client come one at a time.
 */
module BindLimit {
  import opened Sequences
  import opened Sessions

  /** The live sessions, and those whose bind has passed the count but not been added. */
  datatype State = State(live: seq<Session>, admitted: seq<Session>)

  datatype Step = Admit(s: Session) | Add(i: nat) | GiveUp(i: nat) | End(s: Session) | OtherBind(s: Session)

  /** The client in question and its limit; a limit of zero or less is none and is not compared. */
  datatype Limit = Limit(client: string, maxBinds: nat)

  predicate Enabled(l: Limit, s: State, step: Step) {
    match step
    case Admit(x) => x.client == l.client && x !in s.live && x !in s.admitted && CountOf(s.live, l.client) < l.maxBinds
    case Add(i) => i < |s.admitted|
    case GiveUp(i) => i < |s.admitted|
    case End(_) => true
    case OtherBind(x) => x.client != l.client && x !in s.live
  }

  function Apply(l: Limit, s: State, step: Step): State
    requires Enabled(l, s, step)
  {
    match step
    case Admit(x) => s.(admitted := s.admitted + [x])
    case Add(i) => State(s.live + [s.admitted[i]], RemoveAt(s.admitted, i))
    case GiveUp(i) => s.(admitted := RemoveAt(s.admitted, i))
    case End(x) => s.(live := Without(s.live, x))
    case OtherBind(x) => s.(live := s.live + [x])
  }

  datatype Run = Run(states: seq<State>, steps: seq<Step>)

  ghost predicate IsRun(l: Limit, r: Run) {
    && |r.states| == |r.steps| + 1 && r.states[0] == State([], [])
    && forall k :: 0 <= k < |r.steps| ==>
      Enabled(l, r.states[k], r.steps[k]) && r.states[k + 1] == Apply(l, r.states[k], r.steps[k])
  }

  ghost predicate AtMost(r: Run, c: nat) { forall k :: 0 <= k < |r.states| ==> |r.states[k].admitted| <= c }

  function Last(r: Run): State
    requires r.states != []
  {
    r.states[|r.states| - 1]
  }

  ghost predicate Ok(l: Limit, s: State, c: nat) {
    && NoRepeats(s.live) && NoRepeats(s.admitted)
    && (forall x :: x in s.admitted ==> x !in s.live && x.client == l.client)
    && CountOf(s.live, l.client) + |s.admitted| < l.maxBinds + c
  }

  lemma StepOk(l: Limit, s: State, step: Step, c: nat)
    requires Ok(l, s, c) && Enabled(l, s, step) && |Apply(l, s, step).admitted| <= c
    ensures Ok(l, Apply(l, s, step), c)
  {
    match step {
      case Admit(_) =>
      case Add(i) => AddedCount(s.live, s.admitted[i], l.client);
      case GiveUp(_) =>
      case End(x) =>
        WithoutIsExact(s.live, x);
        WithoutCounts(s.live, x, l.client);
      case OtherBind(x) => AddedCount(s.live, x, l.client);
    }
  }

  lemma {:induction false} RunOk(l: Limit, r: Run, c: nat, k: nat)
    requires IsRun(l, r) && AtMost(r, c) && l.maxBinds + c > 0 && k < |r.states|
    ensures Ok(l, r.states[k], c)
  {
    if k > 0 {
      RunOk(l, r, c, k - 1);
      assert |r.states[k].admitted| <= c;
      StepOk(l, r.states[k - 1], r.steps[k - 1], c);
    }
  }

  /** In every run with at most c binds between count and add, no state has more than limit + c - 1 sessions. */
  lemma SessionsAreBounded(l: Limit, r: Run, c: nat, k: nat)
    requires IsRun(l, r) && AtMost(r, c) && c >= 1 && k < |r.states|
    ensures CountOf(r.states[k].live, l.client) <= l.maxBinds + c - 1
  {
    RunOk(l, r, c, k);
  }

  // ---- the bound is reached ----

  /** n sessions of the client with consecutive handles. */
  function Made(client: string, from: nat, n: nat): seq<Session> {
    if n == 0 then [] else Made(client, from, n - 1) + [Session(from + n - 1, client, Trx)]
  }

  lemma {:induction false} MadeIs(client: string, from: nat, n: nat)
    ensures |Made(client, from, n)| == n && CountOf(Made(client, from, n), client) == n
    ensures forall i :: 0 <= i < n ==> Made(client, from, n)[i] == Session(from + i, client, Trx)
  {
    if n > 0 {
      MadeIs(client, from, n - 1);
      AddedCount(Made(client, from, n - 1), Session(from + n - 1, client, Trx), client);
    }
  }

  lemma HeadOfMade(client: string, n: nat, k: nat)
    requires k > 0
    ensures |Made(client, n, k)| == k && Made(client, n, k)[0] == Session(n, client, Trx)
    ensures RemoveAt(Made(client, n, k), 0) == Made(client, n + 1, k - 1)
  {
    MadeIs(client, n, k);
    MadeIs(client, n + 1, k - 1);
  }

  lemma NextIsNew(client: string, n: nat, k: nat)
    ensures var x := Session(n + k, client, Trx); x !in Made(client, 0, n) && x !in Made(client, n, k)
    ensures CountOf(Made(client, 0, n), client) == n && |Made(client, n, k)| == k
  {
    MadeIs(client, 0, n);
    MadeIs(client, n, k);
  }

  ghost predicate Reached(l: Limit, r: Run, s: State, c: nat) {
    IsRun(l, r) && r.states != [] && Last(r) == s && AtMost(r, c)
  }

  ghost predicate Reachable(l: Limit, s: State, c: nat) {
    exists r :: Reached(l, r, s, c)
  }

  lemma Go(l: Limit, s: State, step: Step, t: State, c: nat)
    requires Reachable(l, s, c) && Enabled(l, s, step) && |t.admitted| <= c
    requires t.live == Apply(l, s, step).live && t.admitted == Apply(l, s, step).admitted
    ensures Reachable(l, t, c)
  {
    var r :| Reached(l, r, s, c);
    var g := Run(r.states + [t], r.steps + [step]);
    forall k | 0 <= k < |g.steps|
      ensures Enabled(l, g.states[k], g.steps[k]) && g.states[k + 1] == Apply(l, g.states[k], g.steps[k])
    {
      assert k < |r.steps| ==> g.states[k] == r.states[k] && g.steps[k] == r.steps[k];
    }
    assert Reached(l, g, t, c);
  }

  lemma {:induction false} AdmitMany(l: Limit, n: nat, k: nat, c: nat)
    requires Reachable(l, State(Made(l.client, 0, n), []), c) && n < l.maxBinds && k <= c
    ensures Reachable(l, State(Made(l.client, 0, n), Made(l.client, n, k)), c)
  {
    if k > 0 {
      AdmitMany(l, n, k - 1, c);
      var x := Session(n + k - 1, l.client, Trx);
      var live, waiting := Made(l.client, 0, n), Made(l.client, n, k - 1);
      NextIsNew(l.client, n, k - 1);
      Go(l, State(live, waiting), Admit(x), State(live, waiting + [x]), c);
    }
  }

  lemma {:induction false} AddMany(l: Limit, n: nat, k: nat, c: nat)
    requires Reachable(l, State(Made(l.client, 0, n), Made(l.client, n, k)), c) && k <= c
    ensures Reachable(l, State(Made(l.client, 0, n + k), []), c)
    decreases k
  {
    if k > 0 {
      HeadOfMade(l.client, n, k);
      NextIsNew(l.client, n + 1, k - 1);
      var live, waiting := Made(l.client, 0, n), Made(l.client, n, k);
      Go(l, State(live, waiting), Add(0), State(live + [waiting[0]], RemoveAt(waiting, 0)), c);
      assert live + [waiting[0]] == Made(l.client, 0, n + 1);
      AddMany(l, n + 1, k - 1, c);
    }
  }

  lemma {:induction false} BindMany(l: Limit, n: nat, c: nat)
    requires n < l.maxBinds && c >= 1
    ensures Reachable(l, State(Made(l.client, 0, n), []), c)
  {
    if n == 0 {
      assert Reached(l, Run([State([], [])], []), State([], []), c);
    } else {
      BindMany(l, n - 1, c);
      AdmitMany(l, n - 1, 1, c);
      AddMany(l, n - 1, 1, c);
    }
  }

  /** One short of the limit, c binds pass the count together and are all added. */
  lemma BoundIsReached(l: Limit, c: nat)
    requires l.maxBinds > 0 && c >= 1
    ensures exists s :: Reachable(l, s, c) && CountOf(s.live, l.client) == l.maxBinds + c - 1
  {
    var n := l.maxBinds - 1;
    BindMany(l, n, c);
    AdmitMany(l, n, c, c);
    AddMany(l, n, c, c);
    MadeIs(l.client, 0, n + c);
    assert CountOf(State(Made(l.client, 0, n + c), []).live, l.client) == n + c;
  }

  /** The limit is kept by all such runs exactly when one bind at a time is between count and add. */
  lemma LimitIsKeptExactly(l: Limit, c: nat)
    requires l.maxBinds > 0 && c >= 1
    ensures (forall r, k :: IsRun(l, r) && AtMost(r, c) && 0 <= k < |r.states| ==>
               CountOf(r.states[k].live, l.client) <= l.maxBinds)
       <==> c == 1
  {
    if c == 1 {
      forall r, k | IsRun(l, r) && AtMost(r, c) && 0 <= k < |r.states|
        ensures CountOf(r.states[k].live, l.client) <= l.maxBinds
      {
        SessionsAreBounded(l, r, c, k);
      }
    } else {
      BoundIsReached(l, c);
      var s :| Reachable(l, s, c) && CountOf(s.live, l.client) == l.maxBinds + c - 1;
      var r :| Reached(l, r, s, c);
      assert CountOf(r.states[|r.states| - 1].live, l.client) > l.maxBinds;
    }
  }
}
