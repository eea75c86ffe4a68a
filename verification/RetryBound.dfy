/**
 Retries end. Every attempt of an unexpired message costs at least delta, whether it comes back by
 requeue or by the reaper, so a message with validity ttl is attempted at most ceil(ttl / delta) times.
 */
module RetryBound {
  import opened Options
  import opened SmsRows
  import opened Pipeline
  import opened Exclusivity

  function Min(a: int, b: int): int { if a < b then a else b }

  /** The least time between two claims of one row. */
  function Delta(cfg: Config): int { Min(Min(cfg.backoffBase, cfg.backoffCap), cfg.stuck) }

  lemma BackoffAtLeastDelta(cfg: Config, attempts: nat)
    ensures Delta(cfg) <= RetryBackoff(cfg, attempts)
  {
  }

  /** The n-th attempt of a message waits n times the base, at most the cap; before any attempt it is the base. */
  lemma BackoffIsExact(cfg: Config, n: nat)
    requires 0 <= cfg.backoffBase
    ensures var d, product := RetryBackoff(cfg, n), cfg.backoffBase * n;
      && (n >= 1 && product <= cfg.backoffCap ==> d == product)
      && (n >= 1 && product >= cfg.backoffCap ==> d == cfg.backoffCap)
      && (n == 0 && cfg.backoffBase <= cfg.backoffCap ==> d == cfg.backoffBase)
      && (cfg.backoffBase >= cfg.backoffCap ==> d == cfg.backoffCap)
  {
    if n >= 1 { assert cfg.backoffBase * n == cfg.backoffBase + cfg.backoffBase * (n - 1); }
  }

  /** So it grows with the attempts up to the cap, and then stays there. */
  lemma BackoffGrowsToTheCap(cfg: Config, a: nat, b: nat)
    requires 1 <= a <= b && 0 <= cfg.backoffBase
    ensures RetryBackoff(cfg, a) <= RetryBackoff(cfg, b) <= cfg.backoffCap
    ensures RetryBackoff(cfg, a) == cfg.backoffCap ==> RetryBackoff(cfg, b) == cfg.backoffCap
  {
    assert cfg.backoffBase * b == cfg.backoffBase * a + cfg.backoffBase * (b - a);
    BackoffIsExact(cfg, a);
    BackoffIsExact(cfg, b);
  }

  /** The least time k attempts take: k * d, as a sum. */
  function Spent(k: nat, d: int): int { if k == 0 then 0 else Spent(k - 1, d) + d }

  lemma {:induction false} SpentIsProduct(k: nat, d: int)
    ensures Spent(k, d) == k * d
  {
    if k > 0 { SpentIsProduct(k - 1, d); }
  }

  /** k fresh claims so far leave at least k * d between the row's creation and its next possible claim. */
  predicate SpacedRow(ttl: int, d: int, k: nat, r: Row) {
    && r.expiresAt == Some(r.receivedAt + ttl)
    && (k >= 1 ==> Spent(k - 1, d) < ttl)
    && (r.status == Queued ==> r.nextAttemptAt.Some? && Spent(k, d) <= r.nextAttemptAt.value - r.receivedAt)
    && (r.status == Sending ==> r.claimedAt.Some? && Spent(k, d) <= r.claimedAt.value + d - r.receivedAt)
  }

  lemma ClaimKeepsSpacing(ttl: int, d: int, k: nat, r: Row, now: int)
    requires SpacedRow(ttl, d, k, r) && IsDue(r, now) && d >= 0
    ensures SpacedRow(ttl, d, if IsExpired(r, now) then k else k + 1, ClaimRow(r, now))
  {
  }

  lemma ReturnKeepsSpacing(ttl: int, d: int, k: nat, r: Row, next: int)
    requires SpacedRow(ttl, d, k, r) && (r.status == Sending ==> r.claimedAt.value + d <= next)
    ensures SpacedRow(ttl, d, k, RequeueRow(r, next))
  {
  }

  ghost predicate Spaced(cfg: Config, s: System, m: MessageId) {
    var k := Count(s.hist, ClaimedFresh, m);
    if m >= |s.db.rows| then k == 0 else SpacedRow(cfg.ttl, Delta(cfg), k, s.db.rows[m])
  }

  /** What a holder's exit can do to its row: leave the queue, or go back with the backoff. */
  lemma HeadExit(cfg: Config, s: System, step: Step, m: MessageId)
    requires Enabled(cfg, s, step) && TouchesHead(step) && Head(s, step.w).id == m && m < |s.db.rows|
    ensures var b, a := Apply(cfg, s, step).db.rows[m], s.db.rows[m];
      || b == a
      || (!InQueue(b.status) && b.expiresAt == a.expiresAt && b.receivedAt == a.receivedAt)
      || (step.Requeue? && b == RequeueRow(a, step.readAt + RetryBackoff(cfg, Head(s, step.w).attempts)))
  {
  }

  lemma StepSpacedRow(cfg: Config, s: System, step: Step, m: MessageId, k: nat)
    requires cfg.queueMode && Enabled(cfg, s, step) && m < |s.db.rows| && Delta(cfg) >= 0
    requires SpacedRow(cfg.ttl, Delta(cfg), k, s.db.rows[m])
    requires TouchesHead(step) ==> HeldAt(s, step.w, 0) && ClaimOk(cfg, s, ClaimAt(s, step.w, 0))
    ensures m < |Apply(cfg, s, step).db.rows|
    ensures SpacedRow(cfg.ttl, Delta(cfg), k + Emits(cfg, s, step, ClaimedFresh, m), Apply(cfg, s, step).db.rows[m])
  {
    StepRow(cfg, s, step, m);
    var a := s.db.rows[m];
    if step.TakeBatch? && m in step.ids {
      ClaimKeepsSpacing(cfg.ttl, Delta(cfg), k, a, s.now);
    } else if step.Reap? {
      if IsStuck(a, s.now - cfg.stuck) { ReturnKeepsSpacing(cfg.ttl, Delta(cfg), k, a, s.now); }
    } else if TouchesHead(step) && Head(s, step.w).id == m {
      HeadExit(cfg, s, step, m);
      if step.Requeue? {
        BackoffAtLeastDelta(cfg, Head(s, step.w).attempts);
        ReturnKeepsSpacing(cfg.ttl, Delta(cfg), k, a, step.readAt + RetryBackoff(cfg, Head(s, step.w).attempts));
      }
    }
  }

  /** Spacing of a message from its row and its count, whatever step led there. */
  lemma SpacedFrom(cfg: Config, s: System, t: System, m: MessageId, n: nat)
    requires Count(t.hist, ClaimedFresh, m) == Count(s.hist, ClaimedFresh, m) + n && Spaced(cfg, s, m)
    requires m < |s.db.rows| ==>
      m < |t.db.rows| && SpacedRow(cfg.ttl, Delta(cfg), Count(s.hist, ClaimedFresh, m) + n, t.db.rows[m])
    requires m >= |s.db.rows| ==> n == 0 && (m < |t.db.rows| ==> SpacedRow(cfg.ttl, Delta(cfg), 0, t.db.rows[m]))
    ensures Spaced(cfg, t, m)
  {
  }

  lemma StepSpaced(cfg: Config, s: System, step: Step, t: System, m: MessageId)
    requires cfg.queueMode && Enabled(cfg, s, step) && t == Apply(cfg, s, step) && Spaced(cfg, s, m) && Delta(cfg) >= 0
    requires TouchesHead(step) ==> HeldAt(s, step.w, 0) && ClaimOk(cfg, s, ClaimAt(s, step.w, 0))
    ensures Spaced(cfg, t, m)
  {
    var n := Emits(cfg, s, step, ClaimedFresh, m);
    StepFreshCount(cfg, s, step, t, m);
    if m < |s.db.rows| {
      StepSpacedRow(cfg, s, step, m, Count(s.hist, ClaimedFresh, m));
    } else if m < |t.db.rows| {
      NewRowIsFresh(cfg, s, step, m);
    }
    SpacedFrom(cfg, s, t, m, n);
  }

  lemma StepFreshCount(cfg: Config, s: System, step: Step, t: System, m: MessageId)
    requires Enabled(cfg, s, step) && t == Apply(cfg, s, step)
    ensures Count(t.hist, ClaimedFresh, m) == Count(s.hist, ClaimedFresh, m) + Emits(cfg, s, step, ClaimedFresh, m)
    ensures m >= |s.db.rows| ==> Emits(cfg, s, step, ClaimedFresh, m) == 0
  {
    StepCount(cfg, s, step, ClaimedFresh, m);
  }

  lemma NewRowIsFresh(cfg: Config, s: System, step: Step, m: MessageId)
    requires cfg.queueMode && Enabled(cfg, s, step) && |s.db.rows| <= m < |Apply(cfg, s, step).db.rows|
    ensures SpacedRow(cfg.ttl, Delta(cfg), 0, Apply(cfg, s, step).db.rows[m])
  {
  }

  lemma {:induction false} RunSpaced(cfg: Config, r: Run, k: nat, m: MessageId)
    requires cfg.queueMode && IsRun(cfg, r) && Leased(cfg, r) && QuietBoot(r) && k < |r.states| && Delta(cfg) >= 0
    ensures Spaced(cfg, r.states[k], m)
  {
    if k > 0 {
      RunSafe(cfg, r, k - 1);
      RunSpaced(cfg, r, k - 1, m);
      HeadIsOk(cfg, r.states[k - 1], r.steps[k - 1]);
      StepSpaced(cfg, r.states[k - 1], r.steps[k - 1], r.states[k], m);
    }
  }

  lemma ProductBelow(j: nat, d: int, ttl: int)
    requires d > 0 && j * d < ttl
    ensures j + 1 <= (ttl + d - 1) / d
  {
    var c := (ttl + d - 1) / d;
    assert ttl - 1 < c * d;
    assert j >= c ==> j * d >= c * d;
  }

  lemma CeilingBound(k: nat, d: int, ttl: int)
    requires k > 0 && d > 0 && Spent(k - 1, d) < ttl
    ensures k <= (ttl + d - 1) / d
  {
    SpentIsProduct(k - 1, d);
    ProductBelow(k - 1, d, ttl);
  }

  /** A message is claimed unexpired at most ceil(ttl / delta) times in any leased run. */
  lemma RetriesEnd(cfg: Config, r: Run, k: nat, m: MessageId)
    requires cfg.queueMode && IsRun(cfg, r) && Leased(cfg, r) && QuietBoot(r) && k < |r.states|
    requires Delta(cfg) > 0 && cfg.ttl > 0
    ensures Count(r.states[k].hist, ClaimedFresh, m) <= (cfg.ttl + Delta(cfg) - 1) / Delta(cfg)
  {
    RunSpaced(cfg, r, k, m);
    var n := Count(r.states[k].hist, ClaimedFresh, m);
    if n >= 1 { CeilingBound(n, Delta(cfg), cfg.ttl); }
  }

  // ---- when a message is tried again ----

  /** Claims of message m among the first k steps. */
  function Claims(steps: seq<Step>, m: MessageId, k: nat): nat
    requires k <= |steps|
  {
    if k == 0 then 0
    else Claims(steps, m, k - 1) + if steps[k - 1].TakeBatch? && m in steps[k - 1].ids then 1 else 0
  }

  /** The attempts stored for a message, or none while it does not exist. */
  function AttemptsOf(s: System, m: MessageId): nat { if m < |s.db.rows| then s.db.rows[m].attempts else 0 }

  lemma StepAttempts(cfg: Config, s: System, step: Step, t: System, m: MessageId)
    requires Enabled(cfg, s, step) && t == Apply(cfg, s, step)
    ensures AttemptsOf(t, m) == AttemptsOf(s, m) + if step.TakeBatch? && m in step.ids then 1 else 0
  {
    if m < |s.db.rows| { StepRow(cfg, s, step, m); } else { NewRowUnclaimed(cfg, s, step, m); }
  }

  lemma NewRowUnclaimed(cfg: Config, s: System, step: Step, m: MessageId)
    requires Enabled(cfg, s, step) && m >= |s.db.rows|
    ensures AttemptsOf(Apply(cfg, s, step), m) == 0 && (step.TakeBatch? ==> m !in step.ids)
  {
  }

  /** In every run a row's attempts are the claims made of it. */
  lemma {:induction false} AttemptsAreClaims(cfg: Config, r: Run, k: nat, m: MessageId)
    requires IsRun(cfg, r) && k < |r.states|
    ensures AttemptsOf(r.states[k], m) == Claims(r.steps, m, k)
  {
    if k > 0 {
      AttemptsAreClaims(cfg, r, k - 1, m);
      StepAttempts(cfg, r.states[k - 1], r.steps[k - 1], r.states[k], m);
    }
  }

  lemma RequeueWrites(cfg: Config, s: System, step: Step, t: System, m: MessageId)
    requires Safe(cfg, s) && Enabled(cfg, s, step) && t == Apply(cfg, s, step)
    requires step.Requeue? && step.ok && Head(s, step.w).id == m
    ensures m < |s.db.rows| && m < |t.db.rows| && AttemptsOf(s, m) == Head(s, step.w).attempts
    ensures s.db.rows[m].status == Sending ==>
      var b := t.db.rows[m];
      && b.status == Queued && b.claimedAt.None? && b.attempts == s.db.rows[m].attempts
      && b.nextAttemptAt == Some(step.readAt + RetryBackoff(cfg, s.db.rows[m].attempts))
  {
    HeadIsOk(cfg, s, step);
    StepRow(cfg, s, step, m);
    HeadRow(cfg, s, step, m);
  }

  /**
   In any leased run a message whose attempt fails is due again n times the base later, at most the cap,
   n being the number of times it has been claimed so far.
   */
  lemma RetryIsScheduled(cfg: Config, r: Run, k: nat, m: MessageId)
    requires IsRun(cfg, r) && Leased(cfg, r) && QuietBoot(r) && k < |r.steps| && cfg.backoffBase >= 0
    requires var step := r.steps[k];
      step.Requeue? && step.ok && Working(r.states[k], step.w) && Head(r.states[k], step.w).id == m
    ensures m < |r.states[k].db.rows| && m < |r.states[k + 1].db.rows|
    ensures r.states[k].db.rows[m].status == Sending ==>
      var n, next := Claims(r.steps, m, k), r.states[k + 1].db.rows[m].nextAttemptAt;
      && r.states[k + 1].db.rows[m].status == Queued && next.Some?
      && (n >= 1 && cfg.backoffBase * n <= cfg.backoffCap ==> next.value == r.steps[k].readAt + cfg.backoffBase * n)
      && (n >= 1 && cfg.backoffBase * n >= cfg.backoffCap ==> next.value == r.steps[k].readAt + cfg.backoffCap)
  {
    RunSafe(cfg, r, k);
    AttemptsAreClaims(cfg, r, k, m);
    RequeueWrites(cfg, r.states[k], r.steps[k], r.states[k + 1], m);
    BackoffIsExact(cfg, AttemptsOf(r.states[k], m));
  }
}
