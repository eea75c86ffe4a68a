/**
 The queue worker and the synchronous send as they run: loops and transactions on the store. Both are
 tied to the step machine: what one of them does alone is a sequence of the machine's steps.
 */
module Worker {
  import opened Options
  import opened Ledger
  import opened SmsRows
  import opened Pipeline
  import opened SmsStore

  /**
   What one message meets: the store and the clock as its turn finds them, routing, the carriers'
   answer, and how the writes fare. Between two turns other connections act on the store.
   */
  datatype RowEnv = RowEnv(
    found: Shared, now: int, routed: bool, accepted: bool,
    carrier: nat, cost: int, segments: nat, lookups: bool, tx: TxResult, write: bool)

  predicate Billed(e: RowEnv) { e.lookups && e.tx.Ok() && e.cost > 0 && e.carrier in e.found.carriers }

  predicate Refunds(db: Db, q: Claim, tx: TxResult) { tx.Ok() && UndeliverTx(db, q.id, q.client, q.charge).Some? }

  function UndeliverDb(db: Db, q: Claim, tx: TxResult): Db {
    if Refunds(db, q, tx) then UndeliverTx(db, q.id, q.client, q.charge).value else db
  }

  function WonDb(db: Db, q: Claim, e: RowEnv): Db {
    if Billed(e) then db.(rows := UpdateAt(db.rows, q.id, (x: Row) => AcceptRow(x, e.carrier)))
    else if e.write then db.(rows := UpdateAt(db.rows, q.id, (x: Row) => ForceAcceptRow(x, e.carrier)))
    else db
  }

  function WonCarriers(e: RowEnv): map<nat, CarrierAccount> {
    if Billed(e) then
      e.found.carriers[e.carrier := ChargeCarrier(e.found.carriers[e.carrier], e.cost, e.segments).value]
    else e.found.carriers
  }

  /** The store after one claimed message has been handled. */
  function AfterRow(cfg: Config, q: Claim, e: RowEnv): Shared {
    var db := e.found.db;
    if q.expired || !e.routed then e.found.(db := UndeliverDb(db, q, e.tx))
    else if e.accepted then Shared(WonDb(db, q, e), WonCarriers(e))
    else if e.write then
      e.found.(db :=
        db.(rows := UpdateAt(db.rows, q.id, (x: Row) => RequeueRow(x, e.now + RetryBackoff(cfg, q.attempts)))))
    else e.found
  }

  method Backoff(cfg: Config, attempts: nat) returns (d: int)
    ensures d == RetryBackoff(cfg, attempts)
  {
    d := cfg.backoffBase * attempts;
    if d < cfg.backoffBase { d := cfg.backoffBase; }
    if d > cfg.backoffCap { d := cfg.backoffCap; }
  }

  /** The client is notified exactly when the message is given up and its refund commits. */
  method DispatchOne(store: Store, cfg: Config, q: Claim, e: RowEnv) returns (notify: bool)
    requires store.All() == e.found
    modifies store
    ensures store.All() == AfterRow(cfg, q, e)
    ensures notify <==> (q.expired || !e.routed) && Refunds(e.found.db, q, e.tx)
  {
    notify := false;
    if q.expired || !e.routed {
      notify := store.FinalizeUndelivered(q.id, q.client, q.charge, e.tx);
      return;
    }
    if !e.accepted {
      var d := Backoff(cfg, q.attempts);
      if e.write { store.RequeueSMS(q.id, e.now + d); }
      return;
    }
    var _ := store.FinalizeSent(q, e.carrier, e.cost, e.segments, e.lookups, e.tx, e.write);
  }

  /** The rows of a batch in order, each at the store as its turn finds it, until told to stop. */
  method WorkRows(store: Store, cfg: Config, claims: seq<Claim>, envs: seq<RowEnv>, stopAfter: nat)
    returns (ghost trace: seq<Shared>)
    requires |claims| <= |envs|
    modifies store
    ensures |trace| == if stopAfter < |claims| then stopAfter else |claims|
    ensures forall i :: 0 <= i < |trace| ==> trace[i] == AfterRow(cfg, claims[i], envs[i])
    ensures store.All() == if trace == [] then old(store.All()) else trace[|trace| - 1]
  {
    trace := [];
    for i := 0 to |claims|
      invariant |trace| == i <= stopAfter
      invariant forall j :: 0 <= j < i ==> trace[j] == AfterRow(cfg, claims[j], envs[j])
      invariant store.All() == if trace == [] then old(store.All()) else trace[|trace| - 1]
    {
      if i >= stopAfter { return; }
      store.Meanwhile(envs[i].found);
      var _ := DispatchOne(store, cfg, claims[i], envs[i]);
      trace := trace + [store.All()];
    }
  }

  /** One round of the worker loop: claim, then the rows. */
  method WorkBatch(store: Store, cfg: Config, limit: nat, locked: set<MessageId>, now: int, envs: seq<RowEnv>,
                   stopAfter: nat)
    returns (ghost ids: seq<MessageId>, ghost trace: seq<Shared>)
    requires |envs| == limit
    modifies store
    ensures |ids| <= limit && Distinct(ids) && |trace| == if stopAfter < |ids| then stopAfter else |ids|
    ensures forall i :: 0 <= i < |ids| ==> ids[i] < |old(store.rows)| && IsDue(old(store.rows)[ids[i]], now)
    ensures forall i :: 0 <= i < |trace| ==>
      trace[i] == AfterRow(cfg, ClaimOf(old(store.rows)[ids[i]], ids[i], now), envs[i])
    ensures store.All() == if trace == [] then
      old(store.All()).(db := old(store.View()).(rows := ClaimRows(old(store.rows), ids, now)))
                           else trace[|trace| - 1]
  {
    var claims;
    claims, ids := store.ClaimQueuedForSend(limit, locked, now);
    trace := WorkRows(store, cfg, claims, envs, stopAfter);
  }

  // ---- the synchronous send ----

  /** What the rate lookup gives: no rate group, no rate, a charge that cannot be computed, or the charge. */
  datatype Pricing = NoRateGroup | NoMatchingRate | NoCharge | Priced(charge: int)

  datatype SendOutcome =
    | NoRate
    | NoRoute
    | NotReserved(why: SubmitOutcome)
    | Sent(id: MessageId, remaining: int)
    | CarrierFailure(id: MessageId)
    | NoEligibleCarrier

  /** The answer before anything is written, if there is one. */
  function EarlyAnswer(pricing: Pricing, routed: bool): Option<SendOutcome> {
    if pricing.NoRateGroup? || pricing.NoMatchingRate? then Some(NoRate)
    else if pricing.NoCharge? then Some(NotReserved(TemporaryUnavailable))
    else if !routed then Some(NoRoute)
    else None
  }

  function FailDb(db: Db, q: Claim, refund: bool, tx: TxResult): Db {
    var t := FailTx(db, q.id, q.client, q.charge, refund);
    if tx.Ok() && t.Some? then t.value else db
  }

  /** The store after the last phase, and the answer that goes with it. */
  function AfterSend(q: Claim, e: RowEnv, refund: bool): Shared {
    if e.accepted then Shared(WonDb(e.found.db, q, e), WonCarriers(e))
    else e.found.(db := FailDb(e.found.db, q, refund, e.tx))
  }

  /** Submit with the queue disabled: price and route, reserve, dispatch with nothing held, then bill or fail. */
  method SubmitSync(store: Store, c: ClientId, pricing: Pricing, dlr: bool, ttlConfig: int, now: int,
                    reserve: TxResult, e: RowEnv, allSkipped: bool, refund: bool)
    returns (out: SendOutcome, ghost reserved: Shared)
    modifies store
    ensures var early := EarlyAnswer(pricing, e.routed);
      early.Some? ==> out == early.value && store.All() == reserved == old(store.All())
    ensures out.NoRate? <==> pricing.NoRateGroup? || pricing.NoMatchingRate?
    ensures out.NoRoute? <==> pricing.Priced? && !e.routed
    ensures pricing.NoCharge? ==> out == NotReserved(TemporaryUnavailable)
    ensures EarlyAnswer(pricing, e.routed).None? ==>
      var ttl := if ttlConfig <= 0 then 3600 else ttlConfig;
      var r := ReserveTx(old(store.View()), c, pricing.charge, SendingRow(c, pricing.charge, dlr, ttl, now));
      var q := Claim(|old(store.rows)|, c, pricing.charge, 0, false, now);
      if !(reserve.Ok() && r.Some?) then out.NotReserved? && store.All() == reserved == old(store.All())
      else
        && reserved == old(store.All()).(db := r.value) && store.All() == AfterSend(q, e, refund)
        && out == if e.accepted then Sent(q.id, old(store.accounts)[c].balance - pricing.charge)
                  else if allSkipped then NoEligibleCarrier else CarrierFailure(q.id)
  {
    reserved := store.All();
    match pricing {
      case NoRateGroup => return NoRate, reserved;
      case NoMatchingRate => return NoRate, reserved;
      case NoCharge => return NotReserved(TemporaryUnavailable), reserved;
      case Priced(charge) =>
        if !e.routed { return NoRoute, reserved; }
        var answer := store.ReserveSend(c, charge, dlr, ttlConfig, now, reserve);
        if !answer.AcceptedMessage? { return NotReserved(answer), reserved; }
        reserved := store.All();
        store.Meanwhile(e.found);
        var q := Claim(answer.id, c, charge, 0, false, now);
        if e.accepted {
          var _ := store.FinalizeSent(q, e.carrier, e.cost, e.segments, e.lookups, e.tx, e.write);
          return Sent(answer.id, answer.remaining), reserved;
        }
        var _ := store.FinalizeSendFailed(q.id, c, charge, refund, e.tx);
        out := if allSkipped then NoEligibleCarrier else CarrierFailure(answer.id);
    }
  }

  /** Submit with the queue enabled: price and route, then reserve; a worker does the rest. */
  method SubmitQueued(store: Store, c: ClientId, pricing: Pricing, routed: bool, dlr: bool, ttlConfig: int, now: int,
                      reserve: TxResult)
    returns (out: SendOutcome)
    modifies store
    ensures var early := EarlyAnswer(pricing, routed);
      early.Some? ==> out == early.value && store.All() == old(store.All())
    ensures out.NoRate? <==> pricing.NoRateGroup? || pricing.NoMatchingRate?
    ensures out.NoRoute? <==> pricing.Priced? && !routed
    ensures pricing.NoCharge? ==> out == NotReserved(TemporaryUnavailable)
    ensures EarlyAnswer(pricing, routed).None? ==>
      var ttl := if ttlConfig <= 0 then 3600 else ttlConfig;
      var r := ReserveTx(old(store.View()), c, pricing.charge, QueuedRow(c, pricing.charge, dlr, ttl, now));
      if !(reserve.Ok() && r.Some?) then out.NotReserved? && store.All() == old(store.All())
      else
        && store.All() == old(store.All()).(db := r.value)
        && out == Sent(|old(store.rows)|, old(store.accounts)[c].balance - pricing.charge)
  {
    match pricing {
      case NoRateGroup => return NoRate;
      case NoMatchingRate => return NoRate;
      case NoCharge => return NotReserved(TemporaryUnavailable);
      case Priced(charge) =>
        if !routed { return NoRoute; }
        var answer := store.Enqueue(c, charge, dlr, ttlConfig, now, reserve);
        out := if answer.AcceptedMessage? then Sent(answer.id, answer.remaining) else NotReserved(answer);
    }
  }

  // ---- both are runs of the step machine ----

  /** The state after a sequence of steps; None when one of them is not enabled. */
  function Follow(cfg: Config, s: System, steps: seq<Step>): Option<System>
    decreases |steps|
  {
    if steps == [] then Some(s)
    else if !Enabled(cfg, s, steps[0]) then None
    else Follow(cfg, Apply(cfg, s, steps[0]), steps[1..])
  }

  lemma {:induction false} FollowConcat(cfg: Config, s: System, a: seq<Step>, b: seq<Step>)
    requires Follow(cfg, s, a).Some?
    ensures Follow(cfg, s, a + b) == Follow(cfg, Follow(cfg, s, a).value, b)
    decreases |a|
  {
    if a == [] {
      assert a + b == b;
    } else {
      assert (a + b)[0] == a[0] && (a + b)[1..] == a[1..] + b;
      FollowConcat(cfg, Apply(cfg, s, a[0]), a[1..], b);
    }
  }

  /** Steps that can be followed from a run's last state extend the run. */
  lemma {:induction false} FollowExtendsRun(cfg: Config, r: Run, steps: seq<Step>)
    requires IsRun(cfg, r) && Follow(cfg, r.states[|r.steps|], steps).Some?
    ensures exists x :: IsRun(cfg, x) && x.steps == r.steps + steps
                        && x.states[|x.steps|] == Follow(cfg, r.states[|r.steps|], steps).value
    decreases |steps|
  {
    if steps == [] {
      assert r.steps + [] == r.steps;
    } else {
      var s := r.states[|r.steps|];
      var t := Apply(cfg, s, steps[0]);
      var g := Run(r.states + [t], r.steps + [steps[0]]);
      forall k | 0 <= k < |g.steps|
        ensures Enabled(cfg, g.states[k], g.steps[k]) && g.states[k + 1] == Apply(cfg, g.states[k], g.steps[k])
      {
        assert k < |r.steps| ==> g.states[k] == r.states[k] && g.steps[k] == r.steps[k];
      }
      FollowExtendsRun(cfg, g, steps[1..]);
      assert g.steps + steps[1..] == r.steps + steps;
    }
  }

  function RowSteps(q: Claim, w: nat, e: RowEnv): seq<Step> {
    if q.expired || !e.routed then [Undeliver(w, Refunds(e.found.db, q, e.tx))]
    else if e.accepted then WonSteps(w, e)
    else [Dispatch(w, false), Requeue(w, e.now, e.write)]
  }

  function WonSteps(w: nat, e: RowEnv): seq<Step> {
    if Billed(e) then [Dispatch(w, true), Bill(w, e.carrier, e.cost, e.segments, true)]
    else [Dispatch(w, true), Bill(w, e.carrier, e.cost, e.segments, false), Force(w, e.carrier, e.write)]
  }

  /** t is s after holder w has finished its head, with the given store. */
  ghost predicate HeadDone(s: System, t: System, w: nat, left: Shared) {
    && Working(s, w) && Stored(t) == left && t.now == s.now && t.booting == s.booting
    && t.holders == s.holders[w := s.holders[w].(batch := s.holders[w].batch[1..], phase := Ready)]
  }

  lemma FollowOne(cfg: Config, s: System, a: Step)
    requires Enabled(cfg, s, a)
    ensures Follow(cfg, s, [a]) == Some(Apply(cfg, s, a))
  {
    assert [a][1..] == [];
  }

  lemma FollowTwo(cfg: Config, s: System, a: Step, b: Step)
    requires Enabled(cfg, s, a) && Enabled(cfg, Apply(cfg, s, a), b)
    ensures Follow(cfg, s, [a, b]) == Some(Apply(cfg, Apply(cfg, s, a), b))
  {
    assert [a, b][1..] == [b];
    FollowOne(cfg, Apply(cfg, s, a), b);
  }

  /** The machine is where this message's turn finds the store. */
  predicate Finds(s: System, e: RowEnv) { Stored(s) == e.found && s.now == e.now }

  /** The steps are enabled one after another; they end the head's turn with this store. */
  ghost predicate EndsTurn(cfg: Config, s: System, steps: seq<Step>, w: nat, left: Shared) {
    exists t :: Follow(cfg, s, steps) == Some(t) && HeadDone(s, t, w, left)
  }

  lemma WonFollows(cfg: Config, s: System, w: nat, e: RowEnv)
    requires At(s, w, Ready) && s.holders[w].kind != BootRecovery && !Head(s, w).expired && Finds(s, e)
    ensures EndsTurn(cfg, s, WonSteps(w, e), w, Shared(WonDb(s.db, Head(s, w), e), WonCarriers(e)))
  {
    var won := Apply(cfg, s, Dispatch(w, true));
    assert At(won, w, Won) && Head(won, w) == Head(s, w);
    if Billed(e) {
      FollowTwo(cfg, s, Dispatch(w, true), Bill(w, e.carrier, e.cost, e.segments, true));
    } else {
      var forcing := Apply(cfg, won, Bill(w, e.carrier, e.cost, e.segments, false));
      assert WonSteps(w, e)[1..] == [Bill(w, e.carrier, e.cost, e.segments, false), Force(w, e.carrier, e.write)];
      FollowTwo(cfg, won, Bill(w, e.carrier, e.cost, e.segments, false), Force(w, e.carrier, e.write));
    }
  }

  /** Handling one claimed message is a sequence of enabled steps with the same effect on the database. */
  lemma RowFollows(cfg: Config, s: System, w: nat, e: RowEnv)
    requires At(s, w, Ready) && s.holders[w].kind == QueueWorker && Head(s, w).claimedAt <= s.now && Finds(s, e)
    ensures EndsTurn(cfg, s, RowSteps(Head(s, w), w, e), w, AfterRow(cfg, Head(s, w), e))
  {
    var q := Head(s, w);
    if q.expired || !e.routed {
      FollowOne(cfg, s, RowSteps(q, w, e)[0]);
    } else if e.accepted {
      WonFollows(cfg, s, w, e);
    } else {
      var lost := Apply(cfg, s, Dispatch(w, false));
      assert At(lost, w, Lost) && Head(lost, w) == q;
      FollowTwo(cfg, s, Dispatch(w, false), Requeue(w, s.now, e.write));
    }
  }

  ghost predicate InBatch(s: System, w: nat, qs: seq<Claim>) {
    w in s.holders && s.holders[w] == Holder(QueueWorker, qs, Ready)
  }

  /** A stretch of steps by others: any steps that leave holder w's batch as it is. */
  ghost predicate OthersAct(cfg: Config, s: System, steps: seq<Step>, t: System, w: nat) {
    Follow(cfg, s, steps) == Some(t) && w in s.holders && w in t.holders && t.holders[w] == s.holders[w]
      && s.now <= t.now
  }

  /** What others do before each turn: their steps, and where these lead. */
  datatype Others = Others(steps: seq<Step>, to: System)

  /** Where the first k turns lead, when others act before each of them. */
  ghost function Turns(cfg: Config, s: System, w: nat, qs: seq<Claim>, envs: seq<RowEnv>, others: seq<Others>,
                       k: nat): Option<System>
    requires k <= |qs| <= |envs| && |qs| <= |others|
  {
    if k == 0 then Some(s) else Follow(cfg, others[k - 1].to, RowSteps(qs[k - 1], w, envs[k - 1]))
  }

  /** Before every turn others lead from where the last one ended to what this one finds. */
  ghost predicate Woven(cfg: Config, s: System, w: nat, qs: seq<Claim>, envs: seq<RowEnv>, others: seq<Others>, k: nat)
    requires k <= |qs| <= |envs| && |qs| <= |others|
  {
    forall i: nat :: i < k && Turns(cfg, s, w, qs, envs, others, i).Some? ==>
      OthersAct(cfg, Turns(cfg, s, w, qs, envs, others, i).value, others[i].steps, others[i].to, w)
        && Finds(others[i].to, envs[i])
  }

  lemma {:induction false} RowsFollow(cfg: Config, s: System, w: nat, qs: seq<Claim>, envs: seq<RowEnv>,
                                      others: seq<Others>, k: nat)
    returns (steps: seq<Step>)
    requires k <= |qs| <= |envs| && |qs| <= |others| && InBatch(s, w, qs) && Woven(cfg, s, w, qs, envs, others, k)
    requires forall i :: 0 <= i < |qs| ==> qs[i].claimedAt <= s.now
    ensures var t := Turns(cfg, s, w, qs, envs, others, k);
      && t.Some? && Follow(cfg, s, steps) == t && InBatch(t.value, w, qs[k..]) && s.now <= t.value.now
      && (k > 0 ==> Stored(t.value) == AfterRow(cfg, qs[k - 1], envs[k - 1]))
  {
    if k == 0 {
      steps := [];
      assert qs[0..] == qs;
    } else {
      var front := RowsFollow(cfg, s, w, qs, envs, others, k - 1);
      var mid := Turns(cfg, s, w, qs, envs, others, k - 1).value;
      var o := others[k - 1];
      assert OthersAct(cfg, mid, o.steps, o.to, w) && Finds(o.to, envs[k - 1]);
      assert qs[k - 1..][0] == qs[k - 1] && qs[k - 1..][1..] == qs[k..];
      RowFollows(cfg, o.to, w, envs[k - 1]);
      FollowConcat(cfg, mid, o.steps, RowSteps(qs[k - 1], w, envs[k - 1]));
      FollowConcat(cfg, s, front, o.steps + RowSteps(qs[k - 1], w, envs[k - 1]));
      steps := front + (o.steps + RowSteps(qs[k - 1], w, envs[k - 1]));
    }
  }

  /** A worker told to stop drops the rest of its batch. */
  lemma StopFollows(cfg: Config, s: System, w: nat, steps: seq<Step>, qs: seq<Claim>) returns (all: seq<Step>)
    requires Follow(cfg, s, steps).Some? && InBatch(Follow(cfg, s, steps).value, w, qs)
    ensures var t := Follow(cfg, s, all);
      t.Some? && Free(t.value, w) && Stored(t.value) == Stored(Follow(cfg, s, steps).value)
  {
    all := steps;
    if qs != [] {
      FollowOne(cfg, Follow(cfg, s, steps).value, StopWorker(w));
      FollowConcat(cfg, s, steps, [StopWorker(w)]);
      all := steps + [StopWorker(w)];
    }
  }

  lemma TakenIsInBatch(cfg: Config, s: System, w: nat, ids: seq<MessageId>)
    requires Enabled(cfg, s, TakeBatch(w, ids))
    ensures var t := Apply(cfg, s, TakeBatch(w, ids));
      && InBatch(t, w, ClaimsFor(s.db.rows, ids, s.now)) && t.now == s.now
      && Stored(t) == Stored(s).(db := s.db.(rows := ClaimRows(s.db.rows, ids, s.now)))
  {
  }

  /** Steps that take the batch and then its rows, as far as they are worked. */
  lemma TakenRowsFollow(cfg: Config, s: System, w: nat, ids: seq<MessageId>, qs: seq<Claim>, t: System,
                        envs: seq<RowEnv>, others: seq<Others>, worked: nat)
    returns (steps: seq<Step>)
    requires Enabled(cfg, s, TakeBatch(w, ids)) && t == Apply(cfg, s, TakeBatch(w, ids))
    requires qs == ClaimsFor(s.db.rows, ids, s.now) && InBatch(t, w, qs) && t.now == s.now
    requires worked <= |ids| <= |envs| && |ids| <= |others| && Woven(cfg, t, w, qs, envs, others, worked)
    ensures var u := Follow(cfg, s, steps);
      && u.Some? && u == Turns(cfg, t, w, qs, envs, others, worked) && InBatch(u.value, w, qs[worked..])
      && (worked > 0 ==> Stored(u.value) == AfterRow(cfg, qs[worked - 1], envs[worked - 1]))
  {
    FollowOne(cfg, s, TakeBatch(w, ids));
    var rows := RowsFollow(cfg, t, w, qs, envs, others, worked);
    FollowConcat(cfg, s, [TakeBatch(w, ids)], rows);
    steps := [TakeBatch(w, ids)] + rows;
  }

  lemma RoundFollows(cfg: Config, s: System, w: nat, ids: seq<MessageId>, qs: seq<Claim>, t: System,
                     envs: seq<RowEnv>, others: seq<Others>, worked: nat)
    returns (steps: seq<Step>)
    requires Enabled(cfg, s, TakeBatch(w, ids)) && t == Apply(cfg, s, TakeBatch(w, ids))
    requires qs == ClaimsFor(s.db.rows, ids, s.now) && InBatch(t, w, qs) && t.now == s.now
    requires worked <= |ids| <= |envs| && |ids| <= |others| && Woven(cfg, t, w, qs, envs, others, worked)
    ensures var u := Follow(cfg, s, steps);
      && u.Some? && Free(u.value, w)
      && Stored(u.value) == if worked == 0 then Stored(t) else AfterRow(cfg, qs[worked - 1], envs[worked - 1])
  {
    var rows := TakenRowsFollow(cfg, s, w, ids, qs, t, envs, others, worked);
    steps := StopFollows(cfg, s, w, rows, qs[worked..]);
  }

  /**
   A round of the worker loop is a run of the machine: the claim, the rows with anything others do
   between them, and the stop. It ends with the store the loop leaves.
   */
  lemma WorkIsARun(cfg: Config, s: System, w: nat, ids: seq<MessageId>, envs: seq<RowEnv>, others: seq<Others>,
                   worked: nat)
    returns (steps: seq<Step>)
    requires Enabled(cfg, s, TakeBatch(w, ids)) && worked <= |ids| <= |envs| && |ids| <= |others|
    requires Woven(cfg, Apply(cfg, s, TakeBatch(w, ids)), w, ClaimsFor(s.db.rows, ids, s.now), envs, others, worked)
    ensures var t := Follow(cfg, s, steps);
      && t.Some? && Free(t.value, w)
      && Stored(t.value) == if worked == 0 then Stored(s).(db := s.db.(rows := ClaimRows(s.db.rows, ids, s.now)))
                            else AfterRow(cfg, ClaimOf(s.db.rows[ids[worked - 1]], ids[worked - 1], s.now),
                                          envs[worked - 1])
  {
    var qs := ClaimsFor(s.db.rows, ids, s.now);
    TakenIsInBatch(cfg, s, w, ids);
    assert worked > 0 ==> qs[worked - 1] == ClaimOf(s.db.rows[ids[worked - 1]], ids[worked - 1], s.now);
    steps := RoundFollows(cfg, s, w, ids, qs, Apply(cfg, s, TakeBatch(w, ids)), envs, others, worked);
  }

  /** The last phase of a synchronous send, as steps. */
  function SendSteps(q: Claim, w: nat, e: RowEnv, refund: bool): seq<Step> {
    if e.accepted then WonSteps(w, e)
    else [Dispatch(w, false),
          SyncFail(w, refund, e.tx.Ok() && FailTx(e.found.db, q.id, q.client, q.charge, refund).Some?)]
  }

  lemma SendFollows(cfg: Config, s: System, w: nat, e: RowEnv, refund: bool)
    requires At(s, w, Ready) && s.holders[w].kind == SyncRequest && !Head(s, w).expired && Finds(s, e)
    ensures EndsTurn(cfg, s, SendSteps(Head(s, w), w, e, refund), w, AfterSend(Head(s, w), e, refund))
  {
    var q := Head(s, w);
    if e.accepted {
      WonFollows(cfg, s, w, e);
    } else {
      var lost := Apply(cfg, s, Dispatch(w, false));
      assert At(lost, w, Lost) && Head(lost, w) == q && Stored(lost) == Stored(s);
      FollowTwo(cfg, s, Dispatch(w, false), SendSteps(q, w, e, refund)[1]);
    }
  }

  /** So is a synchronous send, whatever others do while it is with the carriers. */
  lemma SendIsARun(cfg: Config, s: System, w: nat, c: ClientId, charge: int, dlr: bool, others: Others, e: RowEnv,
                   refund: bool)
    returns (steps: seq<Step>)
    requires Enabled(cfg, s, SyncReserve(w, c, charge, dlr))
    requires OthersAct(cfg, Apply(cfg, s, SyncReserve(w, c, charge, dlr)), others.steps, others.to, w)
    requires Finds(others.to, e)
    ensures var q := Claim(|s.db.rows|, c, charge, 0, false, s.now);
      var t := Follow(cfg, s, steps); t.Some? && Free(t.value, w) && Stored(t.value) == AfterSend(q, e, refund)
  {
    var start := SyncReserve(w, c, charge, dlr);
    var held := Apply(cfg, s, start);
    var rest := SendSteps(Head(held, w), w, e, refund);
    FollowOne(cfg, s, start);
    SendFollows(cfg, others.to, w, e, refund);
    FollowConcat(cfg, held, others.steps, rest);
    FollowConcat(cfg, s, [start], others.steps + rest);
    steps := [start] + (others.steps + rest);
  }

  // ---- what that means for one message ----

  /** Only row m differs, and it has become this. */
  predicate OnlyRow(was: seq<Row>, now: seq<Row>, m: MessageId, r: Row) { m < |was| && now == was[m := r] }

  /** A given-up message is marked and paid back in one go, or nothing happens at all. */
  lemma GivenUpSettles(cfg: Config, q: Claim, e: RowEnv)
    requires (q.expired || !e.routed) && q.id < |e.found.db.rows|
    ensures var s, t := e.found, AfterRow(cfg, q, e);
      var r := s.db.rows[q.id];
      if e.tx.Ok() && q.client in s.db.accounts && q.charge > 0 then
        && OnlyRow(s.db.rows, t.db.rows, q.id, r.(status := Undelivered, claimedAt := None))
        && PaidBack(s.db.accounts, t.db.accounts, q.client, q.charge) && t.carriers == s.carriers
      else t == s
  {
  }

  /**
   An accepted message leaves the queue and its carrier is charged the cost, in one go; failing that it is
   forced out of the queue and nobody is charged; failing that too nothing happens.
   */
  lemma AcceptedSettles(cfg: Config, q: Claim, e: RowEnv)
    requires !q.expired && e.routed && e.accepted && q.id < |e.found.db.rows|
    requires e.found.db.rows[q.id].status == Sending
    ensures var s, t := e.found, AfterRow(cfg, q, e);
      var r := s.db.rows[q.id];
      && t.db.accounts == s.db.accounts
      && if e.lookups && e.tx.Ok() && e.cost > 0 && e.carrier in s.carriers then
           && OnlyRow(s.db.rows, t.db.rows, q.id, r.(status := Accepted, carrier := Some(e.carrier)))
           && t.carriers.Keys == s.carriers.Keys
             && (forall c :: c in s.carriers && c != e.carrier ==> t.carriers[c] == s.carriers[c])
           && Charged(s.carriers[e.carrier], t.carriers[e.carrier], e.cost, e.segments)
         else
           && t.carriers == s.carriers
           && if e.write then
             OnlyRow(s.db.rows, t.db.rows, q.id, r.(status := Accepted, carrier := Some(e.carrier), claimedAt := None))
              else t == s
  {
  }

  /** A message no carrier took is due again n times the base later, at most the cap, n being its attempts so far. */
  lemma LostSettles(cfg: Config, q: Claim, e: RowEnv)
    requires !q.expired && e.routed && !e.accepted && q.id < |e.found.db.rows|
    requires e.found.db.rows[q.id].status == Sending && cfg.backoffBase >= 0 && q.attempts >= 1
    ensures var s, t := e.found, AfterRow(cfg, q, e);
      var r, product := s.db.rows[q.id], cfg.backoffBase * q.attempts;
      var wait := if product <= cfg.backoffCap then product else cfg.backoffCap;
      if e.write then
        && OnlyRow(s.db.rows, t.db.rows, q.id,
          r.(status := Queued, nextAttemptAt := Some(e.now + wait), claimedAt := None))
        && t == s.(db := s.db.(rows := t.db.rows))
      else t == s
  {
    assert cfg.backoffBase * q.attempts == cfg.backoffBase + cfg.backoffBase * (q.attempts - 1);
  }

  /** A failed synchronous send that refunds costs the client nothing, and the ledger shows both entries. */
  lemma RefundedSendIsFree(db: Db, c: ClientId, charge: int, dlr: bool, ttl: int, now: int, tx: TxResult)
    requires tx.Ok() && ReserveTx(db, c, charge, SendingRow(c, charge, dlr, ttl, now)).Some?
    ensures var r := ReserveTx(db, c, charge, SendingRow(c, charge, dlr, ttl, now)).value;
      var t := FailDb(r, Claim(|db.rows|, c, charge, 0, false, now), true, tx);
      && t.rows[|db.rows|].status == Failed && t.rows[..|db.rows|] == db.rows
      && t.accounts.Keys == db.accounts.Keys && t.accounts[c].balance == db.accounts[c].balance
      && |t.accounts[c].entries| == |db.accounts[c].entries| + 2
      && forall d :: d in db.accounts && d != c ==> t.accounts[d] == db.accounts[d]
  {
  }

  /** Without the refund the setting withholds, the charge stays paid. */
  lemma UnrefundedSendIsPaid(db: Db, c: ClientId, charge: int, dlr: bool, ttl: int, now: int, tx: TxResult)
    requires tx.Ok() && ReserveTx(db, c, charge, SendingRow(c, charge, dlr, ttl, now)).Some?
    ensures var r := ReserveTx(db, c, charge, SendingRow(c, charge, dlr, ttl, now)).value;
      var t := FailDb(r, Claim(|db.rows|, c, charge, 0, false, now), false, tx);
      && t.rows[|db.rows|].status == Failed && t.rows[..|db.rows|] == db.rows && t.accounts == r.accounts
      && t.accounts[c].balance == db.accounts[c].balance - charge
  {
  }
}
