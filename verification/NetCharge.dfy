/**
 What a client has paid for. Conservation says where the money went; with each charge refunded at
 most once, the balance is also exactly what is left after paying for the messages not refunded.
 */
module NetCharge {
  import opened SmsRows
  import opened Pipeline
  import opened Conservation
  import opened Exclusivity

  function NetCharges(rows: seq<Row>, h: seq<Event>, c: ClientId): int {
    if rows == [] then 0
    else
      var n := |rows| - 1;
      NetCharges(rows[..n], h, c) + if rows[n].client == c && Count(h, Refunded, n) == 0 then rows[n].charge else 0
  }

  function RefundTotal(rows: seq<Row>, h: seq<Event>, c: ClientId): int {
    if rows == [] then 0
    else
      var n := |rows| - 1;
      RefundTotal(rows[..n], h, c) + if rows[n].client == c then rows[n].charge * Count(h, Refunded, n) else 0
  }

  /** Recording a refund of row m, or anything else when m is no row, moves the total by that row's charge. */
  lemma {:induction false} TotalMoves(rows: seq<Row>, rows': seq<Row>, h: seq<Event>, h': seq<Event>, m: MessageId,
                                      c: ClientId)
    requires SameCharges(rows, rows')
    requires forall n: MessageId :: n < |rows| ==>
      Count(h', Refunded, n) == Count(h, Refunded, n) + if n == m then 1 else 0
    ensures RefundTotal(rows', h', c)
         == RefundTotal(rows, h, c) + if m < |rows| && rows[m].client == c then rows[m].charge else 0
  {
    if rows != [] {
      var n := |rows| - 1;
      TotalMoves(rows[..n], rows'[..n], h, h', m, c);
      var k := Count(h, Refunded, n);
      assert rows[n].charge * (k + 1) == rows[n].charge * k + rows[n].charge;
    }
  }

  /** The row a step refunds, or an id beyond the table when it refunds none. */
  function RefundedRow(s: System, step: Step): MessageId
    requires RefundsHead(step) ==> Working(s, step.w)
  {
    if RefundsHead(step) then Head(s, step.w).id else |s.db.rows|
  }

  lemma StepOldRows(cfg: Config, s: System, step: Step, t: System, c: ClientId)
    requires Enabled(cfg, s, step) && t == Apply(cfg, s, step)
    ensures |s.db.rows| <= |t.db.rows|
    ensures RefundTotal(t.db.rows[..|s.db.rows|], t.hist, c) == RefundTotal(s.db.rows, s.hist, c)
      + var m := RefundedRow(s, step); if m < |s.db.rows| && s.db.rows[m].client == c then s.db.rows[m].charge else 0
  {
    assert |s.db.rows| <= |t.db.rows|;
    var old' := t.db.rows[..|s.db.rows|];
    var m := RefundedRow(s, step);
    forall n: MessageId | n < |s.db.rows|
      ensures old'[n].client == s.db.rows[n].client && old'[n].charge == s.db.rows[n].charge
      ensures Count(t.hist, Refunded, n) == Count(s.hist, Refunded, n) + if n == m then 1 else 0
    {
      StepRow(cfg, s, step, n);
      StepCount(cfg, s, step, Refunded, n);
    }
    TotalMoves(s.db.rows, old', s.hist, t.hist, m, c);
  }

  lemma TotalOfLonger(rows: seq<Row>, h: seq<Event>, n: nat, c: ClientId)
    requires |rows| == n || (|rows| == n + 1 && Count(h, Refunded, n) == 0)
    ensures RefundTotal(rows, h, c) == RefundTotal(rows[..n], h, c)
  {
    assert |rows| == n ==> rows[..n] == rows;
  }

  lemma AtMostOneNewRow(cfg: Config, s: System, step: Step)
    requires Enabled(cfg, s, step)
    ensures |s.db.rows| <= |Apply(cfg, s, step).db.rows| <= |s.db.rows| + 1
  {
  }

  /** The refund events move by exactly the refunded row's charge. */
  lemma StepRefundSum(cfg: Config, s: System, step: Step, c: ClientId)
    requires Enabled(cfg, s, step)
    requires RefundsHead(step) ==> Working(s, step.w) && ClaimOk(cfg, s, Head(s, step.w))
    ensures Sum(Apply(cfg, s, step).hist, Refunded, c) == Sum(s.hist, Refunded, c)
      + var m := RefundedRow(s, step); if m < |s.db.rows| && s.db.rows[m].client == c then s.db.rows[m].charge else 0
  {
    StepSums(cfg, s, step, c);
  }

  lemma StepRefundTotal(cfg: Config, s: System, step: Step, t: System, c: ClientId)
    requires Enabled(cfg, s, step) && t == Apply(cfg, s, step)
    requires RefundsHead(step) ==> Working(s, step.w) && ClaimOk(cfg, s, Head(s, step.w))
    requires Count(t.hist, Refunded, |s.db.rows|) == 0
    requires Sum(s.hist, Refunded, c) == RefundTotal(s.db.rows, s.hist, c)
    ensures Sum(t.hist, Refunded, c) == RefundTotal(t.db.rows, t.hist, c)
  {
    StepRefundSum(cfg, s, step, c);
    StepOldRows(cfg, s, step, t, c);
    AtMostOneNewRow(cfg, s, step);
    TotalOfLonger(t.db.rows, t.hist, |s.db.rows|, c);
  }

  lemma NewRowUnrefunded(cfg: Config, s: System, step: Step, t: System)
    requires Safe(cfg, s) && Enabled(cfg, s, step) && t == Apply(cfg, s, step)
    ensures Count(t.hist, Refunded, |s.db.rows|) == 0
  {
    HeadIsOk(cfg, s, step);
    assert RefundOk(s, |s.db.rows|);
    StepCount(cfg, s, step, Refunded, |s.db.rows|);
  }

  lemma SafeRefundTotal(cfg: Config, s: System, step: Step, t: System, c: ClientId)
    requires Safe(cfg, s) && Enabled(cfg, s, step) && t == Apply(cfg, s, step)
    requires Sum(s.hist, Refunded, c) == RefundTotal(s.db.rows, s.hist, c)
    ensures Sum(t.hist, Refunded, c) == RefundTotal(t.db.rows, t.hist, c)
  {
    HeadIsOk(cfg, s, step);
    NewRowUnrefunded(cfg, s, step, t);
    StepRefundTotal(cfg, s, step, t, c);
  }

  lemma {:induction false} RunRefundTotal(cfg: Config, r: Run, k: nat, c: ClientId)
    requires IsRun(cfg, r) && Leased(cfg, r) && QuietBoot(r) && k < |r.states|
    ensures Sum(r.states[k].hist, Refunded, c) == RefundTotal(r.states[k].db.rows, r.states[k].hist, c)
  {
    if k > 0 {
      RunSafe(cfg, r, k - 1);
      RunRefundTotal(cfg, r, k - 1, c);
      SafeRefundTotal(cfg, r.states[k - 1], r.steps[k - 1], r.states[k], c);
    }
  }

  lemma {:induction false} NetIsChargesLessRefunds(rows: seq<Row>, h: seq<Event>, c: ClientId)
    requires forall n: MessageId :: n < |rows| ==> Count(h, Refunded, n) <= 1
    ensures NetCharges(rows, h, c) == Charges(rows, c) - RefundTotal(rows, h, c)
  {
    if rows != [] {
      var n := |rows| - 1;
      NetIsChargesLessRefunds(rows[..n], h, c);
      assert Count(h, Refunded, n) == 0 || Count(h, Refunded, n) == 1;
    }
  }

  /** Under the lease and a quiet boot: balance == opening + payments - charges of the rows never refunded. */
  lemma ClientPaysForUnrefundedOnly(cfg: Config, r: Run, k: nat, c: ClientId)
    requires IsRun(cfg, r) && Leased(cfg, r) && QuietBoot(r) && k < |r.states| && c in cfg.opening
    ensures var s := r.states[k];
      && c in s.db.accounts
      && s.db.accounts[c].balance
           == cfg.opening[c] + Sum(s.hist, Payment, c) - NetCharges(s.db.rows, s.hist, c)
  {
    BalanceIsAccountedFor(cfg, r, k, c);
    RunRefundTotal(cfg, r, k, c);
    HeldOnceRefundedOnce(cfg, r, k);
    NetIsChargesLessRefunds(r.states[k].db.rows, r.states[k].hist, c);
  }
}
