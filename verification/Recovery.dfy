/**
 The boot recovery of synchronous mode: refund every message a crash left 'sending'. A row whose
 transaction fails is left exactly as it was, for the next boot.
 */
module Recovery {
  import opened Options
  import opened SmsRows
  import opened Pipeline
  import opened SmsStore
  import opened Conservation
  import opened Exclusivity
  import opened Worker

  /** The effect of the loop on a worklist, when the transactions of the rows in `fails` do not go through. */
  function RecoverAll(db: Db, ids: seq<MessageId>, fails: set<MessageId>): (r: (Db, nat))
    requires forall i :: 0 <= i < |ids| ==> ids[i] < |db.rows|
    ensures |r.0.rows| == |db.rows|
  {
    if ids == [] then (db, 0)
    else
      var n := |ids| - 1;
      RecoverOne(RecoverAll(db, ids[..n], fails), ids[n], db.rows[ids[n]], ids[n] in fails)
  }

  /** One row's own transaction: undelivered and refunded together, or nothing. */
  function RecoverOne(sofar: (Db, nat), m: MessageId, listed: Row, fails: bool): (r: (Db, nat))
    ensures |r.0.rows| == |sofar.0.rows|
  {
    var tx := UndeliverTx(sofar.0, m, listed.client, listed.charge);
    if fails || tx.None? then sofar else (tx.value, sofar.1 + 1)
  }

  method RecoverRow(store: Store, m: MessageId, listed: Row, fails: bool, before: nat) returns (recovered: nat)
    modifies store
    ensures (store.View(), recovered) == RecoverOne((old(store.View()), before), m, listed, fails)
  {
    var done := store.FinalizeUndelivered(m, listed.client, listed.charge, TxResult(!fails, !fails, !fails));
    recovered := if done then before + 1 else before;
  }

  /** RecoverStuckSyncSends. The list is read once; each row then has a transaction of its own. */
  method RecoverStuckSyncSends(store: Store, fails: set<MessageId>) returns (recovered: nat)
    modifies store
    ensures (store.View(), recovered)
         == RecoverAll(old(store.View()), SendingIds(old(store.rows)), fails)
  {
    var ids := store.ListStuckSending();
    var listed := store.View();
    recovered := 0;
    for i := 0 to |ids|
      invariant (store.View(), recovered) == RecoverAll(listed, ids[..i], fails)
    {
      assert ids[..i + 1][..i] == ids[..i];
      recovered := RecoverRow(store, ids[i], listed.rows[ids[i]], ids[i] in fails, recovered);
    }
    assert ids[..|ids|] == ids;
  }

  /** A refund of this row would post: its client exists and its charge is positive. */
  predicate Refundable(db: Db, r: Row) { r.client in db.accounts && r.charge > 0 }

  function SendingCharges(rows: seq<Row>, c: ClientId): int {
    if rows == [] then 0
    else
      var r := rows[|rows| - 1];
      SendingCharges(rows[..|rows| - 1], c) + if r.client == c && r.status == Sending then r.charge else 0
  }

  lemma {:induction false} ChargesDropBy(rows: seq<Row>, m: MessageId, c: ClientId)
    requires m < |rows| && rows[m].status == Sending
    ensures SendingCharges(rows[m := UndeliverRow(rows[m])], c)
         == SendingCharges(rows, c) - if rows[m].client == c then rows[m].charge else 0
  {
    var n := |rows| - 1;
    var after := rows[m := UndeliverRow(rows[m])];
    if m < n {
      assert after[..n] == rows[..n][m := UndeliverRow(rows[..n][m])];
      ChargesDropBy(rows[..n], m, c);
    } else {
      assert after[..n] == rows[..n];
    }
  }

  /** The rows after recovering a prefix of the worklist, and who can still be refunded. */
  ghost predicate RecoveredRows(db: Db, t: Db, ids: seq<MessageId>, fails: set<MessageId>) {
    && |t.rows| == |db.rows| && t.accounts.Keys == db.accounts.Keys
    && forall m: MessageId :: m < |db.rows| ==>
         t.rows[m]
         == if m in ids && m !in fails && Refundable(db, db.rows[m]) then UndeliverRow(db.rows[m]) else db.rows[m]
  }

  /** Balance plus what is still owed for rows 'sending': the recovery only moves money between the two. */
  function Held(db: Db, c: ClientId): int
    requires c in db.accounts
  {
    db.accounts[c].balance + SendingCharges(db.rows, c)
  }

  lemma OneKeepsHeld(sofar: (Db, nat), m: MessageId, listed: Row, fails: bool, c: ClientId)
    requires m < |sofar.0.rows| && sofar.0.rows[m] == listed && listed.status == Sending && c in sofar.0.accounts
    ensures var t := RecoverOne(sofar, m, listed, fails).0; c in t.accounts && Held(t, c) == Held(sofar.0, c)
  {
    ChargesDropBy(sofar.0.rows, m, c);
  }

  lemma OneRecovers(db: Db, sofar: (Db, nat), ids: seq<MessageId>, m: MessageId, fails: set<MessageId>)
    requires m < |db.rows| && RecoveredRows(db, sofar.0, ids, fails) && m !in ids
    ensures RecoveredRows(db, RecoverOne(sofar, m, db.rows[m], m in fails).0, ids + [m], fails)
  {
  }

  lemma {:induction false} RecoverPrefix(db: Db, ids: seq<MessageId>, fails: set<MessageId>)
    requires Distinct(ids) && forall i :: 0 <= i < |ids| ==> ids[i] < |db.rows| && db.rows[ids[i]].status == Sending
    ensures RecoveredRows(db, RecoverAll(db, ids, fails).0, ids, fails)
    ensures var t := RecoverAll(db, ids, fails).0; forall c :: c in db.accounts ==> Held(t, c) == Held(db, c)
  {
    if ids != [] {
      var n := |ids| - 1;
      RecoverPrefix(db, ids[..n], fails);
      var front := RecoverAll(db, ids[..n], fails);
      assert ids == ids[..n] + [ids[n]];
      OneRecovers(db, front, ids[..n], ids[n], fails);
      forall c | c in db.accounts { OneKeepsHeld(front, ids[n], db.rows[ids[n]], ids[n] in fails, c); }
    }
  }

  /**
   From any database a crash may have left, the recovery changes each balance by exactly the charges
   of the rows it moves out of 'sending', and moves exactly the refundable rows whose transaction succeeds.
   */
  lemma RecoveryRepairs(db: Db, fails: set<MessageId>)
    ensures var t := RecoverAll(db, SendingIds(db.rows), fails).0;
      && |t.rows| == |db.rows| && t.accounts.Keys == db.accounts.Keys
      && (forall c :: c in db.accounts ==>
            t.accounts[c].balance - db.accounts[c].balance == SendingCharges(db.rows, c) - SendingCharges(t.rows, c))
      && (forall m: MessageId :: m < |db.rows| ==>
            var r := db.rows[m];
            t.rows[m] == if r.status == Sending && m !in fails && r.client in db.accounts && r.charge > 0
                         then r.(status := Undelivered, claimedAt := None) else r)
  {
    RecoverPrefix(db, SendingIds(db.rows), fails);
  }

  /** The listed rows whose transaction succeeds and can post its refund. */
  function Movable(db: Db, ids: seq<MessageId>, fails: set<MessageId>): set<MessageId>
    requires forall i :: 0 <= i < |ids| ==> ids[i] < |db.rows|
  {
    set m | m in ids && m !in fails && db.rows[m].client in db.accounts && db.rows[m].charge > 0
  }

  lemma OneMore(db: Db, ids: seq<MessageId>, fails: set<MessageId>, n: nat)
    requires |ids| == n + 1 && ids[n] !in ids[..n] && forall i :: 0 <= i < |ids| ==> ids[i] < |db.rows|
    ensures |Movable(db, ids, fails)|
         == |Movable(db, ids[..n], fails)| + if ids[n] !in fails && Refundable(db, db.rows[ids[n]]) then 1 else 0
  {
    assert ids == ids[..n] + [ids[n]];
    var before := Movable(db, ids[..n], fails);
    var moves := ids[n] !in fails && Refundable(db, db.rows[ids[n]]);
    assert Movable(db, ids, fails) == if moves then before + {ids[n]} else before;
  }

  lemma OneCounts(db: Db, sofar: (Db, nat), m: MessageId, fails: bool)
    requires m < |db.rows| && sofar.0.accounts.Keys == db.accounts.Keys
    ensures RecoverOne(sofar, m, db.rows[m], fails).1 == sofar.1 + if !fails && Refundable(db, db.rows[m]) then 1 else 0
  {
  }

  /** How many rows it says it recovered is how many it moved. */
  lemma {:induction false} RecoveredCount(db: Db, ids: seq<MessageId>, fails: set<MessageId>)
    requires Distinct(ids) && forall i :: 0 <= i < |ids| ==> ids[i] < |db.rows| && db.rows[ids[i]].status == Sending
    ensures RecoverAll(db, ids, fails).1 == |Movable(db, ids, fails)|
  {
    if ids != [] {
      var n := |ids| - 1;
      RecoveredCount(db, ids[..n], fails);
      RecoverPrefix(db, ids[..n], fails);
      OneMore(db, ids, fails, n);
      OneCounts(db, RecoverAll(db, ids[..n], fails), ids[n], ids[n] in fails);
    }
  }

  lemma HeadIsMember(ids: seq<MessageId>)
    ensures ids == [] || ids[0] in ids
  {
  }

  /** What failed stays on the next worklist; after a pass in which nothing failed, a second pass recovers nothing. */
  lemma RecoveryConverges(db: Db, fails: set<MessageId>)
    requires forall m: MessageId :: m < |db.rows| && db.rows[m].status == Sending ==> Refundable(db, db.rows[m])
    ensures var t := RecoverAll(db, SendingIds(db.rows), fails).0;
      && (forall m: MessageId :: m in SendingIds(t.rows) <==> m in SendingIds(db.rows) && m in fails)
      && (fails == {} ==> RecoverAll(t, SendingIds(t.rows), {}) == (t, 0))
  {
    RecoveryRepairs(db, fails);
    var t := RecoverAll(db, SendingIds(db.rows), fails).0;
    HeadIsMember(SendingIds(t.rows));
  }

  /** Every row a run creates is refundable: the reservation debits an existing client a positive charge. */
  lemma {:induction false} RunRowsRefundable(cfg: Config, r: Run, k: nat, m: MessageId)
    requires IsRun(cfg, r) && k < |r.states| && m < |r.states[k].db.rows|
    ensures Refundable(r.states[k].db, r.states[k].db.rows[m])
  {
    if k > 0 {
      RunSolvent(cfg, r, k - 1);
      RunSolvent(cfg, r, k);
      if m < |r.states[k - 1].db.rows| {
        RunRowsRefundable(cfg, r, k - 1, m);
        StepRow(cfg, r.states[k - 1], r.steps[k - 1], m);
      } else {
        NewRowCharged(cfg, r.states[k - 1], r.steps[k - 1], m);
      }
    }
  }

  lemma NewRowCharged(cfg: Config, s: System, step: Step, m: MessageId)
    requires Enabled(cfg, s, step) && |s.db.rows| <= m < |Apply(cfg, s, step).db.rows|
    ensures Refundable(Apply(cfg, s, step).db, Apply(cfg, s, step).db.rows[m])
  {
  }

  /** So from any reachable state, a recovery in which no transaction fails leaves no row 'sending'. */
  lemma CrashIsRepaired(cfg: Config, r: Run, k: nat)
    requires IsRun(cfg, r) && k < |r.states|
    ensures var db := r.states[k].db; var t := RecoverAll(db, SendingIds(db.rows), {}).0;
      && SendingIds(t.rows) == []
      && forall c :: c in db.accounts ==>
        c in t.accounts && t.accounts[c].balance == db.accounts[c].balance + SendingCharges(db.rows, c)
  {
    var db := r.states[k].db;
    forall m: MessageId | m < |db.rows| ensures Refundable(db, db.rows[m]) { RunRowsRefundable(cfg, r, k, m); }
    RecoveryRepairs(db, {});
    RecoveryConverges(db, {});
    var t := RecoverAll(db, SendingIds(db.rows), {}).0;
    HeadIsMember(SendingIds(t.rows));
    forall c { NoneSending(t.rows, c); }
  }

  lemma {:induction false} NoneSending(rows: seq<Row>, c: ClientId)
    ensures SendingIds(rows) == [] ==> SendingCharges(rows, c) == 0
  {
    if rows != [] { NoneSending(rows[..|rows| - 1], c); }
  }

  // ---- the recovery loop is a run of the machine ----

  ghost predicate Recovering(s: System, v: nat, qs: seq<Claim>) {
    v in s.holders && s.holders[v] == Holder(BootRecovery, qs, Ready)
  }

  lemma RecoverOneFollows(cfg: Config, s: System, v: nat, q: Claim, sofar: (Db, nat), listed: Row, fails: bool)
    returns (step: Step)
    requires Working(s, v) && Recovering(s, v, s.holders[v].batch) && Head(s, v) == q && s.db == sofar.0
    requires q.client == listed.client && q.charge == listed.charge
    ensures Enabled(cfg, s, step)
    ensures var t := Apply(cfg, s, step);
      t.db == RecoverOne(sofar, q.id, listed, fails).0 && Recovering(t, v, s.holders[v].batch[1..]) && t.now == s.now
  {
    step := Undeliver(v, !fails && UndeliverTx(s.db, q.id, q.client, q.charge).Some?);
  }

  lemma {:induction false} RecoverRowsFollow(cfg: Config, s: System, v: nat, ids: seq<MessageId>, fails: set<MessageId>,
                                             k: nat)
    returns (steps: seq<Step>)
    requires k <= |ids| && forall i :: 0 <= i < |ids| ==> ids[i] < |s.db.rows|
    requires Recovering(s, v, RecoveryClaims(s.db.rows, ids, s.now))
    ensures var t := Follow(cfg, s, steps);
      && t.Some? && Recovering(t.value, v, RecoveryClaims(s.db.rows, ids, s.now)[k..])
      && t.value.db == RecoverAll(s.db, ids[..k], fails).0 && t.value.now == s.now
  {
    var qs := RecoveryClaims(s.db.rows, ids, s.now);
    if k == 0 {
      steps := [];
      assert qs[0..] == qs;
    } else {
      var front := RecoverRowsFollow(cfg, s, v, ids, fails, k - 1);
      var mid := Follow(cfg, s, front).value;
      var id := ids[k - 1];
      var step :=
        RecoverOneFollows(cfg, mid, v, qs[k - 1], RecoverAll(s.db, ids[..k - 1], fails), s.db.rows[id], id in fails);
      FollowOne(cfg, mid, step);
      FollowConcat(cfg, s, front, [step]);
      steps := front + [step];
      assert qs[k - 1..][1..] == qs[k..] && ids[..k][..k - 1] == ids[..k - 1];
    }
  }

  /** The boot recovery is a run: it lists, then undelivers row after row, whichever transactions fail. */
  lemma RecoveryIsARun(cfg: Config, s: System, v: nat, fails: set<MessageId>) returns (steps: seq<Step>)
    requires Enabled(cfg, s, ListStuck(v))
    ensures var t := Follow(cfg, s, steps);
      t.Some? && Free(t.value, v) && t.value.db == RecoverAll(s.db, SendingIds(s.db.rows), fails).0
  {
    var ids := SendingIds(s.db.rows);
    var listed := Apply(cfg, s, ListStuck(v));
    FollowOne(cfg, s, ListStuck(v));
    var rest := RecoverRowsFollow(cfg, listed, v, ids, fails, |ids|);
    FollowConcat(cfg, s, [ListStuck(v)], rest);
    steps := [ListStuck(v)] + rest;
    assert ids[..|ids|] == ids;
  }
}
