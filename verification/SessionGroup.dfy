/**
 A carrier's group of parallel SMPP sessions: a submit scans the group cyclically from a counter and
 uses the first ready session. The counter is unbounded here; the original's is a wrapping uint64.
 */
module SessionGroup {
  import opened Options
  import opened RoundRobin

  /** Session number `offset` places after the counter, around the group. */
  function Around(rr: nat, offset: nat, n: nat): nat
    requires n > 0
  {
    (rr + offset) % n
  }

  /** The scan reaches session t after (t - rr) mod n steps. */
  function Distance(rr: nat, t: nat, n: nat): nat
    requires t < n
  {
    if t >= rr % n then t - rr % n else t + n - rr % n
  }

  lemma AroundReaches(rr: nat, t: nat, n: nat)
    requires t < n
    ensures Distance(rr, t, n) < n && Around(rr, Distance(rr, t, n), n) == t
  {
    var q, r := rr / n, rr % n;
    assert rr == q * n + r;
    if t >= r {
      DivUnique(rr + (t - r), n, q, t);
    } else {
      assert (q + 1) * n == q * n + n;
      DivUnique(rr + (t + n - r), n, q + 1, t);
    }
  }

  /** A round of n steps from anywhere meets every session. */
  lemma ScanIsComplete(rr: nat, ready: seq<bool>)
    requires forall j: nat :: j < |ready| ==> !ready[Around(rr, j, |ready|)]
    ensures true !in ready
  {
    if t :| 0 <= t < |ready| && ready[t] {
      AroundReaches(rr, t, |ready|);
    }
  }

  /** Going round from the counter, the session j places on is the first that is ready. */
  ghost predicate FirstReady(rr: nat, ready: seq<bool>, j: nat) {
    && j < |ready| && ready[Around(rr, j, |ready|)]
    && forall k: nat :: k < j ==> !ready[Around(rr, k, |ready|)]
  }

  class Group {
    var rr: nat

    constructor ()
      ensures rr == 0
    {
      rr := 0;
    }

    /** Which session the submit goes to; None is ErrSessionUnavailable. */
    method Submit(ready: seq<bool>) returns (used: Option<nat>)
      modifies this
      ensures rr == if |ready| == 0 then old(rr) else old(rr) + 1
      ensures used.None? <==> true !in ready
      ensures used.Some? ==> exists j: nat :: FirstReady(rr, ready, j) && used.value == (rr + j) % |ready|
    {
      var n := |ready|;
      if n == 0 { return None; }
      rr := rr + 1;
      var start := rr;
      for i := 0 to n
        invariant forall k: nat :: k < i ==> !ready[Around(rr, k, n)]
      {
        var s := (start + i) % n;
        if ready[s] {
          assert FirstReady(rr, ready, i) && s == Around(rr, i, n);
          return Some(s);
        }
      }
      ScanIsComplete(rr, ready);
      used := None;
    }
  }

  /** With every session ready, how many of the submits numbered start + 1 .. start + k use session t. */
  function Uses(n: nat, t: nat, start: nat, k: nat): nat
    requires n > 0
  {
    if k == 0 then 0 else Uses(n, t, start, k - 1) + Bit(Around(start + k, 0, n) == t)
  }

  lemma {:induction false} UsesIsBelow(n: nat, t: nat, start: nat, k: nat)
    requires t < n
    ensures Uses(n, t, start, k) == Below(start + 1 + k, n, t, 1) - Below(start + 1, n, t, 1)
  {
    if k > 0 {
      UsesIsBelow(n, t, start, k - 1);
      BelowStep(start + k, n, t, 1);
    }
  }

  /** Any n consecutive submits of a group of n ready sessions use each session exactly once. */
  lemma EachOncePerRound(n: nat, t: nat, start: nat)
    requires t < n
    ensures Uses(n, t, start, n) == 1
  {
    UsesIsBelow(n, t, start, n);
    BelowTurn(start + 1, n, t, 1);
  }

  /** Over any k submits two ready sessions' loads differ by at most one. */
  lemma LoadsAreEven(n: nat, t: nat, u: nat, start: nat, k: nat)
    requires t < n && u < n
    ensures Uses(n, t, start, k) <= Uses(n, u, start, k) + 1
  {
    UsesIsFloor(n, t, start, k);
    UsesIsFloor(n, u, start, k);
  }

  lemma UsesRound(n: nat, t: nat, start: nat, k: nat)
    requires t < n
    ensures Uses(n, t, start, k + n) == Uses(n, t, start, k) + 1
  {
    UsesIsBelow(n, t, start, k);
    UsesIsBelow(n, t, start, k + n);
    BelowTurn(start + 1 + k, n, t, 1);
  }

  lemma {:induction false} UsesRounds(n: nat, t: nat, start: nat, q: nat, r: nat)
    requires t < n && r < n
    ensures q <= Uses(n, t, start, q * n + r) <= q + 1
  {
    if q == 0 {
      UsesGrows(n, t, start, r, n);
      EachOncePerRound(n, t, start);
    } else {
      UsesRounds(n, t, start, q - 1, r);
      assert q * n == (q - 1) * n + n;
      UsesRound(n, t, start, (q - 1) * n + r);
    }
  }

  lemma UsesIsFloor(n: nat, t: nat, start: nat, k: nat)
    requires t < n
    ensures k / n <= Uses(n, t, start, k) <= k / n + 1
  {
    assert k == (k / n) * n + k % n;
    UsesRounds(n, t, start, k / n, k % n);
  }

  lemma {:induction false} UsesGrows(n: nat, t: nat, start: nat, k: nat, l: nat)
    requires n > 0 && k <= l
    ensures Uses(n, t, start, k) <= Uses(n, t, start, l)
    decreases l
  {
    if k < l { UsesGrows(n, t, start, k, l - 1); }
  }
}
