/**
 The database functions of the send pipeline, carried out in place on a table of rows and the
 accounts. Each method is one statement, or one transaction that rolls both tables back when a
 statement raises or the commit fails; its contract ties the new contents to the statement's meaning
 in SmsRows.dfy, the same meaning the step machine interleaves.
 */
module SmsStore {
  import opened Options
  import opened Ledger
  import opened SmsRows
  import opened Pipeline

  datatype SubmitOutcome =
    | AcceptedMessage(id: MessageId, remaining: int)
    | InsufficientBalance(balance: int, required: int)
    | TemporaryUnavailable

  /** What a bill leaves of a carrier's account: the cost off the balance and onto the total, and one debit for it. */
  predicate Charged(was: CarrierAccount, now: CarrierAccount, cost: int, segments: nat) {
    && now.balance == was.balance - cost && now.spent == was.spent + cost
    && now.messages == was.messages + 1 && now.segments == was.segments + segments
    && now.entries == was.entries + [Entry(false, cost, was.balance, was.balance - cost)]
  }

  /** Which parts of a transaction go through: opening it, its statements, its commit. */
  datatype TxResult = TxResult(begin: bool, statements: bool, commit: bool) {
    predicate Ok() { begin && statements && commit }
  }

  /** Client c has the amount back, with one credit for it; other accounts are as they were. */
  predicate PaidBack(was: map<ClientId, Account>, now: map<ClientId, Account>, c: ClientId, amount: int) {
    && c in was && now.Keys == was.Keys && (forall d :: d in was && d != c ==> now[d] == was[d])
    && now[c] == Account(was[c].balance + amount,
                         was[c].entries + [Entry(true, amount, was[c].balance, was[c].balance + amount)])
  }

  /** Claim order: no due time first, then the earliest due, then the earliest received. */
  predicate Before(a: Row, b: Row) {
    if a.nextAttemptAt.None? || b.nextAttemptAt.None? then
      (a.nextAttemptAt.None? && b.nextAttemptAt.Some?)
      || (a.nextAttemptAt == b.nextAttemptAt && a.receivedAt < b.receivedAt)
    else
      a.nextAttemptAt.value < b.nextAttemptAt.value
      || (a.nextAttemptAt.value == b.nextAttemptAt.value && a.receivedAt < b.receivedAt)
  }

  /** Left behind rightly: claimed comes no later than left, by due time if both have one, then by receipt. */
  predicate NotEarlier(left: Row, claimed: Row) {
    match (claimed.nextAttemptAt, left.nextAttemptAt)
    case (None, Some(_)) => true
    case (Some(_), None) => false
    case (None, None) => claimed.receivedAt <= left.receivedAt
    case (Some(a), Some(b)) => a < b || (a == b && claimed.receivedAt <= left.receivedAt)
  }

  predicate Claimable(rows: seq<Row>, locked: set<MessageId>, now: int, m: MessageId) {
    m < |rows| && m !in locked && IsDue(rows[m], now)
  }

  function CountStuck(rows: seq<Row>, olderThan: int): nat {
    if rows == [] then 0
    else CountStuck(rows[..|rows| - 1], olderThan) + if IsStuck(rows[|rows| - 1], olderThan) then 1 else 0
  }

  function StuckIds(rows: seq<Row>, olderThan: int): set<MessageId> {
    set m: MessageId | m < |rows| && rows[m].status == Sending
                       && (rows[m].claimedAt.None? || rows[m].claimedAt.value < olderThan)
  }

  lemma {:induction false} CountIsNumber(rows: seq<Row>, olderThan: int)
    ensures CountStuck(rows, olderThan) == |StuckIds(rows, olderThan)|
  {
    if rows != [] {
      var n := |rows| - 1;
      CountIsNumber(rows[..n], olderThan);
      var before := StuckIds(rows[..n], olderThan);
      assert StuckIds(rows, olderThan) == if IsStuck(rows[n], olderThan) then before + {n} else before;
    }
  }

  class Store {
    var rows: seq<Row>
    var accounts: map<ClientId, Account>
    var carriers: map<nat, CarrierAccount>

    constructor (accounts: map<ClientId, Account>, carriers: map<nat, CarrierAccount>)
      ensures All() == Shared(Db([], accounts), carriers)
    {
      this.rows := [];
      this.accounts := accounts;
      this.carriers := carriers;
    }

    function All(): Shared
      reads this
    {
      Shared(View(), carriers)
    }

    /** Other connections to the database have left it like this. */
    method Meanwhile(found: Shared)
      modifies this
      ensures All() == found
    {
      rows, accounts, carriers := found.db.rows, found.db.accounts, found.carriers;
    }

    function View(): Db
      reads this
    {
      Db(rows, accounts)
    }

    /** deduct_client_balance: None when it raises. */
    method DeductClientBalance(c: ClientId, amount: int) returns (remaining: Option<int>)
      modifies this`accounts
      ensures remaining.Some? <==> c in old(accounts) && Debit(old(accounts[c]), amount).Some?
      ensures remaining.Some? <==> c in old(accounts) && 0 < amount <= old(accounts[c]).balance
      ensures remaining.Some? ==>
        var a := Debit(old(accounts[c]), amount).value;
        accounts == old(accounts)[c := a] && remaining.value == a.balance
      ensures remaining.Some? ==>
        var was, now := old(accounts[c]), accounts[c];
        && remaining.value == now.balance == was.balance - amount
        && now.entries == was.entries + [Entry(false, amount, was.balance, now.balance)]
      ensures remaining.None? ==> accounts == old(accounts)
    {
      if c !in accounts || accounts[c].balance < amount || amount <= 0 { return None; }
      var before := accounts[c].balance;
      accounts :=
        accounts[c := Account(before - amount, accounts[c].entries + [Entry(false, amount, before, before - amount)])];
      remaining := Some(before - amount);
    }

    /** credit_client_balance: None when it raises. */
    method CreditClientBalance(c: ClientId, amount: int) returns (remaining: Option<int>)
      modifies this`accounts
      ensures remaining.Some? <==> c in old(accounts) && Credit(old(accounts[c]), amount).Some?
      ensures remaining.Some? <==> c in old(accounts) && amount > 0
      ensures remaining.Some? ==>
        var a := Credit(old(accounts[c]), amount).value;
        accounts == old(accounts)[c := a] && remaining.value == a.balance
      ensures remaining.Some? ==>
        var was, now := old(accounts[c]), accounts[c];
        && remaining.value == now.balance == was.balance + amount
        && now.entries == was.entries + [Entry(true, amount, was.balance, now.balance)]
      ensures remaining.None? ==> accounts == old(accounts)
    {
      if c !in accounts || amount <= 0 { return None; }
      var before := accounts[c].balance;
      accounts :=
        accounts[c := Account(before + amount, accounts[c].entries + [Entry(true, amount, before, before + amount)])];
      remaining := Some(before + amount);
    }

    /** enqueue, from the balance lock to the commit. A zero charge passes the lock and fails the debit. */
    method Enqueue(c: ClientId, charge: int, dlr: bool, ttlConfig: int, now: int, tx: TxResult)
      returns (out: SubmitOutcome)
      modifies this`rows, this`accounts
      ensures var ttl := if ttlConfig <= 0 then 3600 else ttlConfig;
        var done := ReserveTx(old(View()), c, charge, QueuedRow(c, charge, dlr, ttl, now));
        && (out.AcceptedMessage? <==> tx.Ok() && done.Some?)
        && (out.AcceptedMessage? ==>
              View() == done.value && out.id == |old(rows)| && out.remaining == done.value.accounts[c].balance)
      ensures !out.AcceptedMessage? ==> View() == old(View())
      ensures out.InsufficientBalance? ==>
        c in old(accounts) && out.balance == old(accounts[c].balance) && out.required == charge
        && (out.balance < charge || charge <= 0)
      ensures out.AcceptedMessage? ==>
        var ttl := if ttlConfig > 0 then ttlConfig else 3600;
        && rows == old(rows) + [Row(c, charge, Queued, now, None, 0, Some(now), Some(now + ttl), dlr, None, None, None)]
        && out.remaining == accounts[c].balance == old(accounts[c]).balance - charge
      ensures tx.Ok() && c in old(accounts) ==>
        if 0 < charge <= old(accounts[c]).balance then out.AcceptedMessage? else out.InsufficientBalance?
    {
      var ttl := if ttlConfig <= 0 then 3600 else ttlConfig;
      if !tx.begin || c !in accounts { return TemporaryUnavailable; }
      var balance := accounts[c].balance;
      if balance < charge { return InsufficientBalance(balance, charge); }
      var saved, savedAccounts := rows, accounts;
      if !tx.statements { return TemporaryUnavailable; }
      rows := rows + [Row(c, charge, Queued, now, None, 0, None, None, dlr, None, None, None)];
      rows := rows[|saved| :=
        rows[|saved|].(status := Queued, nextAttemptAt := Some(now), expiresAt := Some(now + ttl))];
      var remaining := DeductClientBalance(c, charge);
      if remaining.None? {
        rows := saved;
        return InsufficientBalance(balance, charge);
      }
      if !tx.commit {
        rows := saved;
        accounts := savedAccounts;
        return TemporaryUnavailable;
      }
      assert rows == saved + [QueuedRow(c, charge, dlr, ttl, now)];
      out := AcceptedMessage(|saved|, remaining.value);
    }

    /** reserveSend: the same reservation for a synchronous send, whose row starts out 'sending'. */
    method ReserveSend(c: ClientId, charge: int, dlr: bool, ttlConfig: int, now: int, tx: TxResult)
      returns (out: SubmitOutcome)
      modifies this`rows, this`accounts
      ensures var ttl := if ttlConfig <= 0 then 3600 else ttlConfig;
        var done := ReserveTx(old(View()), c, charge, SendingRow(c, charge, dlr, ttl, now));
        && (out.AcceptedMessage? <==> tx.Ok() && done.Some?)
        && (out.AcceptedMessage? ==>
              View() == done.value && out.id == |old(rows)| && out.remaining == done.value.accounts[c].balance)
      ensures !out.AcceptedMessage? ==> View() == old(View())
      ensures out.InsufficientBalance? ==>
        c in old(accounts) && out.balance == old(accounts[c].balance) && out.required == charge
        && (out.balance < charge || charge <= 0)
      ensures out.AcceptedMessage? ==>
        var ttl := if ttlConfig > 0 then ttlConfig else 3600;
        && rows
           == old(rows) + [Row(c, charge, Sending, now, Some(now), 0, None, Some(now + ttl), dlr, None, None, None)]
        && out.remaining == accounts[c].balance == old(accounts[c]).balance - charge
      ensures tx.Ok() && c in old(accounts) ==>
        if 0 < charge <= old(accounts[c]).balance then out.AcceptedMessage? else out.InsufficientBalance?
    {
      var ttl := if ttlConfig <= 0 then 3600 else ttlConfig;
      if !tx.begin || c !in accounts { return TemporaryUnavailable; }
      var balance := accounts[c].balance;
      if balance < charge { return InsufficientBalance(balance, charge); }
      var saved, savedAccounts := rows, accounts;
      if !tx.statements { return TemporaryUnavailable; }
      rows := rows + [Row(c, charge, Sending, now, None, 0, None, None, dlr, None, None, None)];
      rows := rows[|saved| := rows[|saved|].(status := Sending, claimedAt := Some(now), expiresAt := Some(now + ttl))];
      var remaining := DeductClientBalance(c, charge);
      if remaining.None? {
        rows := saved;
        return InsufficientBalance(balance, charge);
      }
      if !tx.commit {
        rows := saved;
        accounts := savedAccounts;
        return TemporaryUnavailable;
      }
      assert rows == saved + [SendingRow(c, charge, dlr, ttl, now)];
      out := AcceptedMessage(|saved|, remaining.value);
    }

    /** The claim statement: due, unlocked rows in claim order, at most `limit` of them. */
    method ClaimQueuedForSend(limit: nat, locked: set<MessageId>, now: int)
      returns (claimed: seq<Claim>, ghost ids: seq<MessageId>)
      modifies this`rows
      ensures |ids| <= limit && Distinct(ids)
      ensures forall i :: 0 <= i < |ids| ==> ids[i] < |old(rows)| && Claimable(old(rows), locked, now, ids[i])
      ensures rows == ClaimRows(old(rows), ids, now) && claimed == ClaimsFor(old(rows), ids, now)
      ensures forall m: MessageId :: Claimable(old(rows), locked, now, m) && m !in ids ==>
        |ids| == limit && forall i :: 0 <= i < |ids| ==> !Before(old(rows)[m], old(rows)[ids[i]])
      ensures forall i :: 0 <= i < |ids| ==>
        var r := old(rows)[ids[i]];
        && r.status == Queued && (r.nextAttemptAt.None? || r.nextAttemptAt.value <= now) && ids[i] !in locked
        && claimed[i] == Claim(ids[i], r.client, r.charge, r.attempts + 1,
                               r.expiresAt.Some? && r.expiresAt.value <= now, now)
        && rows[ids[i]] == r.(status := Sending, claimedAt := Some(now), attempts := r.attempts + 1)
      ensures |rows| == |old(rows)| && forall m :: 0 <= m < |rows| && m !in ids ==> rows[m] == old(rows)[m]
      ensures forall m: MessageId | m < |old(rows)| && m !in ids && m !in locked && old(rows)[m].status == Queued ::
        (old(rows)[m].nextAttemptAt.Some? && old(rows)[m].nextAttemptAt.value > now)
        || (|ids| == limit && forall i :: 0 <= i < |ids| ==> NotEarlier(old(rows)[m], old(rows)[ids[i]]))
    {
      claimed, ids := [], [];
      var picked: seq<MessageId> := [];
      var more := true;
      while more && |picked| < limit
        invariant |picked| <= limit && Distinct(picked) && rows == old(rows)
        invariant forall i :: 0 <= i < |picked| ==> picked[i] < |rows| && Claimable(rows, locked, now, picked[i])
        invariant forall m: MessageId :: Claimable(rows, locked, now, m) && m !in picked ==>
          more && forall i :: 0 <= i < |picked| ==> !Before(rows[m], rows[picked[i]])
        decreases limit - |picked|, more
      {
        var next := FirstDue(locked, now, picked);
        if next.None? { more := false; } else { picked := picked + [next.value]; }
      }
      ids := picked;
      claimed := ClaimsFor(rows, picked, now);
      rows := ClaimRows(rows, picked, now);
    }

    /** The first claimable row in claim order that is not yet picked. */
    method FirstDue(locked: set<MessageId>, now: int, picked: seq<MessageId>) returns (best: Option<MessageId>)
      ensures best.None? ==> forall m: MessageId :: Claimable(rows, locked, now, m) ==> m in picked
      ensures best.Some? ==> Claimable(rows, locked, now, best.value) && best.value !in picked
      ensures best.Some? ==> forall m: MessageId :: Claimable(rows, locked, now, m) && m !in picked ==>
        !Before(rows[m], rows[best.value])
    {
      best := None;
      for i := 0 to |rows|
        invariant best.None? ==> forall m: MessageId :: m < i && Claimable(rows, locked, now, m) ==> m in picked
        invariant best.Some? ==> best.value < i && Claimable(rows, locked, now, best.value) && best.value !in picked
        invariant best.Some? ==> forall m: MessageId :: m < i && Claimable(rows, locked, now, m) && m !in picked ==>
          !Before(rows[m], rows[best.value])
      {
        if i !in locked && IsDue(rows[i], now) && i !in picked && (best.None? || Before(rows[i], rows[best.value])) {
          best := Some(i);
        }
      }
    }

    method RequeueSMS(m: MessageId, next: int)
      modifies this`rows
      ensures rows == UpdateAt(old(rows), m, (x: Row) => RequeueRow(x, next))
      ensures if m < |old(rows)| && old(rows)[m].status == Sending
        then rows == old(rows)[m := old(rows)[m].(status := Queued, nextAttemptAt := Some(next), claimedAt := None)]
        else rows == old(rows)
    {
      if m < |rows| && rows[m].status == Sending {
        rows := rows[m := rows[m].(status := Queued, nextAttemptAt := Some(next), claimedAt := None)];
      }
    }

    /** The reaper's statement, and how many rows it returned to the queue. */
    method ReapStuckSending(now: int, olderThan: int) returns (n: nat)
      modifies this`rows
      ensures rows == ReapRows(old(rows), now, olderThan) && n == CountStuck(old(rows), olderThan)
      ensures |rows| == |old(rows)| && forall m :: 0 <= m < |rows| ==>
        var r := old(rows)[m];
        rows[m] == if r.status == Sending && (r.claimedAt.None? || r.claimedAt.value < olderThan)
                   then r.(status := Queued, nextAttemptAt := Some(now), claimedAt := None) else r
      ensures n == |StuckIds(old(rows), olderThan)|
    {
      n := 0;
      for i := 0 to |rows|
        invariant |rows| == |old(rows)| && rows[i..] == old(rows)[i..]
        invariant rows[..i] == ReapRows(old(rows), now, olderThan)[..i]
        invariant n == CountStuck(old(rows)[..i], olderThan)
      {
        assert old(rows)[..i + 1][..i] == old(rows)[..i] && rows[i] == rows[i..][0] == old(rows)[i..][0];
        if rows[i].status == Sending && (rows[i].claimedAt.None? || rows[i].claimedAt.value < olderThan) {
          rows := rows[i := rows[i].(status := Queued, nextAttemptAt := Some(now), claimedAt := None)];
          n := n + 1;
        }
      }
      assert old(rows)[..|rows|] == old(rows);
      CountIsNumber(old(rows), olderThan);
    }

    method ForceMarkAccepted(m: MessageId, carrier: nat)
      modifies this`rows
      ensures rows == UpdateAt(old(rows), m, (x: Row) => ForceAcceptRow(x, carrier))
      ensures if m < |old(rows)| && old(rows)[m].status == Sending
        then rows == old(rows)[m := old(rows)[m].(status := Accepted, carrier := Some(carrier), claimedAt := None)]
        else rows == old(rows)
    {
      if m < |rows| && rows[m].status == Sending {
        rows := rows[m := rows[m].(status := Accepted, carrier := Some(carrier), claimedAt := None)];
      }
    }

    /** deduct_carrier_balance and increment_carrier_usage: false when a statement raises, as for an unknown carrier. */
    method DeductCarrierBalance(carrier: nat, cost: int, segments: nat) returns (ok: bool)
      modifies this`carriers
      ensures ok <==> carrier in old(carriers) && ChargeCarrier(old(carriers[carrier]), cost, segments).Some?
      ensures carriers == if ok then
        old(carriers)[carrier := ChargeCarrier(old(carriers[carrier]), cost, segments).value]
                          else old(carriers)
      ensures ok <==> carrier in old(carriers) && cost > 0
      ensures ok ==>
        carriers.Keys == old(carriers).Keys && Charged(old(carriers[carrier]), carriers[carrier], cost, segments)
      ensures forall c :: c in carriers && (!ok || c != carrier) ==>
        c in old(carriers) && carriers[c] == old(carriers)[c]
    {
      if carrier !in carriers || cost <= 0 { return false; }
      var a := carriers[carrier];
      var entry := Entry(false, cost, a.balance, a.balance - cost);
      carriers := carriers[carrier := a.(balance := a.balance - cost, entries := a.entries + [entry])];
      a := carriers[carrier];
      carriers :=
        carriers[carrier := a.(messages := a.messages + 1, segments := a.segments + segments, spent := a.spent + cost)];
      ok := true;
    }

    /** finalizeSent: bill the carrier and accept in one transaction, else force the row out of the queue. */
    method FinalizeSent(q: Claim, carrier: nat, cost: int, segments: nat, lookups: bool, tx: TxResult, forced: bool)
      returns (billed: bool)
      modifies this`rows, this`carriers
      ensures billed <==> lookups && tx.Ok() && cost > 0 && carrier in old(carriers)
      ensures carriers == if billed then
        old(carriers)[carrier := ChargeCarrier(old(carriers[carrier]), cost, segments).value]
                          else old(carriers)
      ensures rows == if billed then UpdateAt(old(rows), q.id, (x: Row) => AcceptRow(x, carrier))
                      else if forced then UpdateAt(old(rows), q.id, (x: Row) => ForceAcceptRow(x, carrier))
                      else old(rows)
      ensures billed ==>
        carriers.Keys == old(carriers).Keys && Charged(old(carriers[carrier]), carriers[carrier], cost, segments)
      ensures forall c :: c in carriers && (!billed || c != carrier) ==>
        c in old(carriers) && carriers[c] == old(carriers)[c]
      ensures q.id < |old(rows)| && billed ==>
        rows == old(rows)[q.id := old(rows)[q.id].(status := Accepted, carrier := Some(carrier))]
      ensures q.id < |old(rows)| && !billed && forced && old(rows)[q.id].status == Sending ==>
        rows == old(rows)[q.id := old(rows)[q.id].(status := Accepted, carrier := Some(carrier), claimedAt := None)]
      ensures !billed && (!forced || (q.id < |old(rows)| && old(rows)[q.id].status != Sending)) ==> rows == old(rows)
    {
      billed := false;
      if tx.begin {
        var saved, savedCarriers := rows, carriers;
        var charged := false;
        if tx.statements { charged := DeductCarrierBalance(carrier, cost, segments); }
        if q.id < |rows| { rows := rows[q.id := rows[q.id].(status := Accepted, carrier := Some(carrier))]; }
        if lookups && charged && tx.commit { return true; }
        rows, carriers := saved, savedCarriers;
      }
      if forced { ForceMarkAccepted(q.id, carrier); }
    }

    /** finalizeUndelivered: mark and refund in one transaction, or neither. */
    method FinalizeUndelivered(m: MessageId, c: ClientId, amount: int, tx: TxResult) returns (notify: bool)
      modifies this`rows, this`accounts
      ensures var done := UndeliverTx(old(View()), m, c, amount);
        && (notify <==> tx.Ok() && done.Some?)
        && View() == if notify then done.value else old(View())
      ensures notify <==> tx.Ok() && c in old(accounts) && amount > 0
      ensures notify && m < |old(rows)| ==>
        rows == old(rows)[m := old(rows)[m].(status := Undelivered, claimedAt := None)]
      ensures notify ==> PaidBack(old(accounts), accounts, c, amount)
    {
      if !tx.begin || !tx.statements { return false; }
      var saved, savedAccounts := rows, accounts;
      if m < |rows| { rows := rows[m := rows[m].(status := Undelivered, claimedAt := None)]; }
      var credited := CreditClientBalance(c, amount);
      if credited.None? || !tx.commit {
        rows := saved;
        accounts := savedAccounts;
        return false;
      }
      notify := true;
    }

    /** finalizeSendFailed: mark failed and refund when the setting says so. */
    method FinalizeSendFailed(m: MessageId, c: ClientId, amount: int, refund: bool, tx: TxResult) returns (done: bool)
      modifies this`rows, this`accounts
      ensures var t := FailTx(old(View()), m, c, amount, refund);
        && (done <==> tx.Ok() && t.Some?)
        && View() == if done then t.value else old(View())
      ensures done <==> tx.Ok() && (refund ==> c in old(accounts) && amount > 0)
      ensures done && m < |old(rows)| ==> rows == old(rows)[m := old(rows)[m].(status := Failed)]
      ensures done ==> if refund then PaidBack(old(accounts), accounts, c, amount) else accounts == old(accounts)
    {
      if !tx.begin || !tx.statements { return false; }
      var saved, savedAccounts := rows, accounts;
      if m < |rows| { rows := rows[m := rows[m].(status := Failed)]; }
      var raised := false;
      if refund {
        var credited := CreditClientBalance(c, amount);
        raised := credited.None?;
      }
      // A statement that raised poisons the transaction, so the commit fails too.
      if raised || !tx.commit {
        rows := saved;
        accounts := savedAccounts;
        return false;
      }
      done := true;
    }

    /** The first-final-wins guarded update. */
    method UpdateDLRReceived(m: MessageId, d: Dlr, now: int) returns (applied: bool)
      modifies this`rows
      ensures rows == UpdateAt(old(rows), m, (x: Row) => ReceiptRow(x, d, now))
      ensures applied <==> m < |old(rows)| && !HasFinal(old(rows)[m])
      ensures if applied then Receipted(old(rows), rows, m, d, now) else rows == old(rows)
    {
      if m >= |rows| || (rows[m].dlrStatus.Some? && rows[m].dlrStatus.value != DlrUnknown) { return false; }
      var r := rows[m].(dlrStatus := Some(d), dlrReceivedAt := Some(now));
      match d {
        case DlrDelivered => r := r.(status := Delivered);
        case DlrUndelivered => r := r.(status := Failed);
        case DlrRejected => r := r.(status := Rejected);
        case DlrUnknown =>
      }
      rows := rows[m := r];
      applied := true;
    }

    method AgeOutAcceptedNoDLR(m: MessageId, now: int) returns (applied: bool)
      modifies this`rows
      ensures rows == UpdateAt(old(rows), m, (x: Row) => AgeOutRow(x, now))
      ensures applied <==> m < |old(rows)| && old(rows)[m].status == Accepted
      ensures if !applied then rows == old(rows)
        else
          var r := old(rows)[m];
          rows == old(rows)[m := r.(status := Failed, dlrStatus := Some(DlrUndelivered),
                                    dlrReceivedAt := if r.dlrReceivedAt.None? then Some(now) else r.dlrReceivedAt)]
    {
      if m >= |rows| || rows[m].status != Accepted { return false; }
      var receivedAt := if rows[m].dlrReceivedAt.Some? then rows[m].dlrReceivedAt else Some(now);
      rows := rows[m := rows[m].(status := Failed, dlrStatus := Some(DlrUndelivered), dlrReceivedAt := receivedAt)];
      applied := true;
    }

    method ListStuckSending() returns (ids: seq<MessageId>)
      ensures ids == SendingIds(rows)
    {
      ids := [];
      for i := 0 to |rows|
        invariant ids == SendingIds(rows[..i])
      {
        assert rows[..i + 1][..i] == rows[..i];
        if rows[i].status == Sending { ids := ids + [i]; }
      }
      assert rows[..|rows|] == rows;
    }
  }
}
