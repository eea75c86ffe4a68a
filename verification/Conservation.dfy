/**
 Money over whole runs: no account is ever overdrawn and every balance is accounted for, whatever
 the interleaving, the crashes and the aborted transactions. No hypothesis on the run is used.
 */
module Conservation {
  import opened Options
  import opened Ledger
  import opened SmsRows
  import opened Pipeline

  /** What client c has been charged for the rows that exist. */
  function Charges(rows: seq<Row>, c: ClientId): int {
    if rows == [] then 0
    else
      var n := |rows| - 1;
      Charges(rows[..n], c) + if rows[n].client == c then rows[n].charge else 0
  }

  ghost predicate SameCharges(a: seq<Row>, b: seq<Row>) {
    |a| == |b| && forall i :: 0 <= i < |a| ==> a[i].client == b[i].client && a[i].charge == b[i].charge
  }

  lemma {:induction false} ChargesDepend(a: seq<Row>, b: seq<Row>, c: ClientId)
    requires SameCharges(a, b)
    ensures Charges(a, c) == Charges(b, c)
  {
    if a != [] {
      ChargesDepend(a[..|a| - 1], b[..|b| - 1], c);
    }
  }

  lemma {:induction false} FreshEventsAreFree(h: seq<Event>, rows: seq<Row>, ids: seq<MessageId>, now: int,
                                              kind: EventKind, c: ClientId)
    requires forall i :: 0 <= i < |ids| ==> ids[i] < |rows|
    requires kind != ClaimedFresh
    ensures Sum(h + FreshEvents(rows, ids, now), kind, c) == Sum(h, kind, c)
  {
    if ids == [] {
      assert h + [] == h;
    } else {
      var n := |ids| - 1;
      var front := FreshEvents(rows, ids[..n], now);
      FreshEventsAreFree(h, rows, ids[..n], now, kind, c);
      if !IsExpired(rows[ids[n]], now) {
        var e := Event(ClaimedFresh, ids[n], rows[ids[n]].client, 0);
        SumAppend(h + front, e, kind, c);
        assert h + (front + [e]) == (h + front) + [e];
      }
    }
  }

  function Owed(opening: int, s: System, c: ClientId): int {
    opening + Sum(s.hist, Payment, c) - Charges(s.db.rows, c) + Sum(s.hist, Refunded, c)
  }

  ghost predicate Solvent(cfg: Config, s: System) {
    && s.db.accounts.Keys == cfg.opening.Keys
    && forall c :: c in cfg.opening ==>
         Chained(cfg.opening[c], s.db.accounts[c]) && s.db.accounts[c].balance == Owed(cfg.opening[c], s, c)
  }

  lemma StepKeepsCharges(cfg: Config, s: System, step: Step)
    requires Enabled(cfg, s, step) && !step.Enqueue? && !step.SyncReserve?
    ensures SameCharges(s.db.rows, Apply(cfg, s, step).db.rows)
  {
  }

  /** Either rows keep their clients and charges, or one charged row was appended. */
  lemma StepCharges(cfg: Config, s: System, step: Step, c: ClientId)
    requires Enabled(cfg, s, step)
    ensures var t := Apply(cfg, s, step);
      Charges(t.db.rows, c) == Charges(s.db.rows, c) +
        if (step.Enqueue? || step.SyncReserve?) && step.c == c then step.charge else 0
  {
    var t := Apply(cfg, s, step);
    if step.Enqueue? || step.SyncReserve? {
      assert t.db.rows[..|s.db.rows|] == s.db.rows;
    } else {
      StepKeepsCharges(cfg, s, step);
      ChargesDepend(s.db.rows, t.db.rows, c);
    }
  }

  lemma StepSums(cfg: Config, s: System, step: Step, c: ClientId)
    requires Enabled(cfg, s, step)
    ensures var t := Apply(cfg, s, step);
      && Sum(t.hist, Payment, c) == Sum(s.hist, Payment, c) + (if step.Pay? && step.c == c then step.amount else 0)
      && Sum(t.hist, Refunded, c) == Sum(s.hist, Refunded, c) +
           if ((step.Undeliver? && step.commit) || (step.SyncFail? && step.commit && step.refund))
             && Head(s, step.w).client == c
           then Head(s, step.w).charge else 0
  {
    var t := Apply(cfg, s, step);
    forall kind, e | t.hist == s.hist + [e]
      ensures Sum(t.hist, kind, c) == Sum(s.hist, kind, c) + if e.kind == kind && e.client == c then e.amount else 0
    {
      SumAppend(s.hist, e, kind, c);
    }
    match step {
      case Dispatch(w, accepted) =>
        var sent := s.hist + [Note(Dispatched, Head(s, w), 0)];
        forall kind ensures Sum(sent, kind, c) == Sum(s.hist, kind, c) {
          SumAppend(s.hist, Note(Dispatched, Head(s, w), 0), kind, c);
        }
        SumAppend(sent, Note(CarrierAccepted, Head(s, w), 0), Payment, c);
        SumAppend(sent, Note(CarrierAccepted, Head(s, w), 0), Refunded, c);
      case TakeBatch(w, ids) =>
        FreshEventsAreFree(s.hist, s.db.rows, ids, s.now, Payment, c);
        FreshEventsAreFree(s.hist, s.db.rows, ids, s.now, Refunded, c);
      case _ =>
    }
  }

  /** The account of c went from a to b by postings that keep its chain and add delta to its balance. */
  ghost predicate Posted(opening: int, a: Account, b: Account, delta: int) {
    && (Chained(opening, a) ==> Chained(opening, b))
    && b.balance == a.balance + delta
    && a.entries <= b.entries
  }

  lemma ReservePosts(db: Db, d: ClientId, charge: int, row: Row, c: ClientId, opening: int)
    requires ReserveTx(db, d, charge, row).Some? && c in db.accounts
    ensures var t := ReserveTx(db, d, charge, row).value;
      t.accounts.Keys == db.accounts.Keys
      && Posted(opening, db.accounts[c], t.accounts[c], if c == d then -charge else 0)
  {
    if Chained(opening, db.accounts[d]) { PostingKeepsChain(opening, db.accounts[d], charge); }
  }

  lemma CreditPosts(db: Db, d: ClientId, amount: int, c: ClientId, opening: int)
    requires CreditTx(db, d, amount).Some? && c in db.accounts
    ensures var t := CreditTx(db, d, amount).value;
      t.accounts.Keys == db.accounts.Keys
      && Posted(opening, db.accounts[c], t.accounts[c], if c == d then amount else 0)
  {
    if Chained(opening, db.accounts[d]) { PostingKeepsChain(opening, db.accounts[d], amount); }
  }

  /** The client whose account a step writes, if any. */
  function Payee(s: System, step: Step): Option<ClientId>
    requires RefundsHead(step) ==> Working(s, step.w)
  {
    if step.Pay? || step.Enqueue? || step.SyncReserve? then Some(step.c)
    else if RefundsHead(step) then Some(Head(s, step.w).client)
    else None
  }

  lemma OthersKeepAccounts(cfg: Config, s: System, step: Step)
    requires Enabled(cfg, s, step)
    ensures Payee(s, step).None? ==> Apply(cfg, s, step).db.accounts == s.db.accounts
  {
  }

  /** How much a step adds to the balance of the client it pays or charges. */
  function Delta(s: System, step: Step): int
    requires RefundsHead(step) ==> Working(s, step.w)
  {
    if step.Pay? then step.amount
    else if step.Enqueue? || step.SyncReserve? then -step.charge
    else if RefundsHead(step) then Head(s, step.w).charge
    else 0
  }

  lemma StepWrites(cfg: Config, s: System, step: Step, c: ClientId, opening: int)
    requires Enabled(cfg, s, step) && c in s.db.accounts
    ensures var t := Apply(cfg, s, step);
      && t.db.accounts.Keys == s.db.accounts.Keys
      && Posted(opening, s.db.accounts[c], t.db.accounts[c], if Payee(s, step) == Some(c) then Delta(s, step) else 0)
  {
    match step {
      case Pay(d, amount) => CreditPosts(s.db, d, amount, c, opening);
      case Enqueue(d, charge, dlr) =>
        ReservePosts(s.db, d, charge, QueuedRow(d, charge, dlr, cfg.ttl, s.now), c, opening);
      case SyncReserve(_, d, charge, dlr) =>
        ReservePosts(s.db, d, charge, SendingRow(d, charge, dlr, cfg.ttl, s.now), c, opening);
      case Undeliver(w, commit) =>
        if commit {
          var q := Head(s, w);
          CreditPosts(s.db.(rows := UpdateAt(s.db.rows, q.id, (x: Row) => UndeliverRow(x))), q.client, q.charge, c,
            opening);
        }
      case SyncFail(w, refund, commit) =>
        if commit && refund {
          var q := Head(s, w);
          CreditPosts(s.db.(rows := UpdateAt(s.db.rows, q.id, (x: Row) => FailRow(x))), q.client, q.charge, c, opening);
        }
      case _ => OthersKeepAccounts(cfg, s, step);
    }
  }

  /** The balance moves by what the payments, refunds and charges on record moved by. */
  lemma StepPosts(cfg: Config, s: System, step: Step, t: System, c: ClientId, opening: int)
    requires Enabled(cfg, s, step) && t == Apply(cfg, s, step) && c in s.db.accounts
    ensures t.db.accounts.Keys == s.db.accounts.Keys
    ensures Posted(opening, s.db.accounts[c], t.db.accounts[c], Owed(opening, t, c) - Owed(opening, s, c))
  {
    StepCharges(cfg, s, step, c);
    StepSums(cfg, s, step, c);
    StepWrites(cfg, s, step, c, opening);
  }

  lemma StepKeys(cfg: Config, s: System, step: Step)
    requires Enabled(cfg, s, step)
    ensures Apply(cfg, s, step).db.accounts.Keys == s.db.accounts.Keys
  {
    if c :| c in s.db.accounts {
      StepWrites(cfg, s, step, c, 0);
    } else if Payee(s, step).None? {
      OthersKeepAccounts(cfg, s, step);
    }
  }

  lemma StepSolvent(cfg: Config, s: System, step: Step, t: System)
    requires Solvent(cfg, s) && Enabled(cfg, s, step) && t == Apply(cfg, s, step)
    ensures Solvent(cfg, t)
  {
    StepKeys(cfg, s, step);
    forall c | c in cfg.opening
      ensures Chained(cfg.opening[c], t.db.accounts[c]) && t.db.accounts[c].balance == Owed(cfg.opening[c], t, c)
    {
      StepPosts(cfg, s, step, t, c, cfg.opening[c]);
    }
  }

  lemma {:induction false} RunSolvent(cfg: Config, r: Run, k: nat)
    requires IsRun(cfg, r) && k < |r.states|
    ensures Solvent(cfg, r.states[k])
  {
    if k > 0 {
      RunSolvent(cfg, r, k - 1);
      StepSolvent(cfg, r.states[k - 1], r.steps[k - 1], r.states[k]);
    }
  }

  /**
   Conservation and no oversell. In every reachable state each balance is non-negative and equals
   opening + payments - charges of the rows created + refunds made, and it is also what replaying
   the ledger from the opening balance gives.
   */
  lemma BalanceIsAccountedFor(cfg: Config, r: Run, k: nat, c: ClientId)
    requires IsRun(cfg, r) && k < |r.states| && c in cfg.opening
    ensures var s := r.states[k];
      && c in s.db.accounts
      && 0 <= s.db.accounts[c].balance
      && s.db.accounts[c].balance
           == cfg.opening[c] + Sum(s.hist, Payment, c) - Charges(s.db.rows, c) + Sum(s.hist, Refunded, c)
      && Replay(cfg.opening[c], s.db.accounts[c].entries) == s.db.accounts[c].balance
      && (s.db.accounts[c].entries != [] ==>
            s.db.accounts[c].entries[|s.db.accounts[c].entries| - 1].after == s.db.accounts[c].balance)
  {
    RunSolvent(cfg, r, k);
    ChainedReplays(cfg.opening[c], r.states[k].db.accounts[c]);
  }

  /** The ledger is append-only over a run: every earlier ledger is a prefix of every later one. */
  lemma {:induction false} LedgerOnlyGrows(cfg: Config, r: Run, i: nat, j: nat, c: ClientId)
    requires IsRun(cfg, r) && i <= j < |r.states| && c in cfg.opening
    ensures c in r.states[i].db.accounts && c in r.states[j].db.accounts
    ensures r.states[i].db.accounts[c].entries <= r.states[j].db.accounts[c].entries
    decreases j - i
  {
    RunSolvent(cfg, r, i);
    if i < j {
      StepPosts(cfg, r.states[i], r.steps[i], r.states[i + 1], c, cfg.opening[c]);
      LedgerOnlyGrows(cfg, r, i + 1, j, c);
    }
  }
}
