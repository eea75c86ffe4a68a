/**
 The SMPP bind throttle: a key is blocked for fifteen minutes after five failures counted in a fixed
 ten-minute window. What that guarantees when many connections guess at once is in ThrottleRace.dfy.
 Times are in nanoseconds.
 */
module BindThrottle {
  import opened Options

  const MINUTE := 60_000_000_000
  const WINDOW := 10 * MINUTE
  const MAX_ATTEMPTS := 5
  const BLOCK_FOR := 15 * MINUTE

  datatype Attempt = Attempt(count: nat, first: int, blockedTil: Option<int>)

  predicate Blocked(e: Option<Attempt>, now: int) {
    e.Some? && e.value.blockedTil.Some? && now < e.value.blockedTil.value
  }

  function AfterCheck(e: Option<Attempt>, now: int): Option<Attempt> {
    if e.Some? && !Blocked(e, now) && now - e.value.first > WINDOW then None else e
  }

  function AfterFailure(e: Option<Attempt>, now: int): Attempt {
    var a := if e.None? || now - e.value.first > WINDOW then Attempt(0, now, None) else e.value;
    if a.count + 1 >= MAX_ATTEMPTS then Attempt(a.count + 1, a.first, Some(now + BLOCK_FOR))
    else a.(count := a.count + 1)
  }

  type Attempts = map<string, Attempt>

  function Lookup(m: Attempts, key: string): Option<Attempt> { if key in m then Some(m[key]) else None }

  function Store(m: Attempts, key: string, e: Option<Attempt>): Attempts {
    if e.Some? then m[key := e.value] else m - {key}
  }

  lemma StoreTwice(m: Attempts, key: string, e: Option<Attempt>, f: Option<Attempt>)
    ensures Lookup(Store(m, key, e), key) == e && Store(Store(m, key, e), key, f) == Store(m, key, f)
    ensures Store(m, key, Lookup(m, key)) == m
  {
  }

  class Throttle {
    var attempts: Attempts

    constructor ()
      ensures attempts == map[]
    {
      attempts := map[];
    }

    method IsBindBlocked(key: string, now: int) returns (blocked: bool)
      modifies this
      ensures blocked == Blocked(Lookup(old(attempts), key), now)
      ensures attempts == Store(old(attempts), key, AfterCheck(Lookup(old(attempts), key), now))
      ensures blocked <==>
        key in old(attempts) && var til := old(attempts)[key].blockedTil; til.Some? && now < til.value
      ensures attempts ==
        if key in old(attempts) && !blocked && now - old(attempts)[key].first > 10 * MINUTE then old(attempts) - {key}
        else old(attempts)
    {
      if key !in attempts { return false; }
      var a := attempts[key];
      if a.blockedTil.Some? && now < a.blockedTil.value { return true; }
      if now - a.first > WINDOW { attempts := attempts - {key}; }
      blocked := false;
    }

    method MarkBindFailure(key: string, now: int)
      modifies this
      ensures attempts == Store(old(attempts), key, Some(AfterFailure(Lookup(old(attempts), key), now)))
      ensures var counts := key in old(attempts) && now - old(attempts)[key].first <= 10 * MINUTE;
        var n := if counts then old(attempts)[key].count + 1 else 1;
        attempts == old(attempts)[key := Attempt(n, if counts then old(attempts)[key].first else now,
                                                 if n >= 5 then Some(now + 15 * MINUTE)
                                                 else if counts then old(attempts)[key].blockedTil else None)]
    {
      var a := if key in attempts && now - attempts[key].first <= WINDOW then attempts[key] else Attempt(0, now, None);
      a := a.(count := a.count + 1);
      if a.count >= MAX_ATTEMPTS { a := a.(blockedTil := Some(now + BLOCK_FOR)); }
      attempts := attempts[key := a];
    }

    method ClearBindFailures(key: string)
      modifies this
      ensures attempts == Store(old(attempts), key, None) == old(attempts) - {key}
    {
      attempts := attempts - {key};
    }
  }

  function Fail(e: Option<Attempt>, now: int): (Option<Attempt>, bool) {
    if Blocked(e, now) then (e, false) else (Some(AfterFailure(AfterCheck(e, now), now)), true)
  }

  /** The entry and the recorded failures after a run of failed attempts at the given times. */
  function PlayFailures(times: seq<int>): (Option<Attempt>, seq<int>) {
    if times == [] then (None, [])
    else
      var n := |times| - 1;
      var (e, marks) := PlayFailures(times[..n]);
      var (e', recorded) := Fail(e, times[n]);
      (e', if recorded then marks + [times[n]] else marks)
  }

  /** Failures recorded in the closed interval of ten minutes from lo. */
  function CountIn(ms: seq<int>, lo: int): nat {
    if ms == [] then 0 else CountIn(ms[..|ms| - 1], lo) + if lo <= ms[|ms| - 1] <= lo + WINDOW then 1 else 0
  }

  predicate Sorted(ms: seq<int>) { forall i, j :: 0 <= i < j < |ms| ==> ms[i] <= ms[j] }
}
