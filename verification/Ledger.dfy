/** A generic optional value. */
module Options {
  datatype Option<+T> = None | Some(value: T)
}

/**
 Prepaid client accounts and their append-only ledger.

 Amounts are whole micro-units of currency: a numeric(18,6) value scaled by one million. The two
 operations are the stored procedures deduct_client_balance and credit_client_balance; None means
 the procedure raises, so that the enclosing transaction rolls back.
 */
module Ledger {
  import opened Options

  datatype Entry = Entry(credit: bool, amount: int, before: int, after: int)

  datatype Account = Account(balance: int, entries: seq<Entry>)

  // The balance guard comes first; the ledger's CHECK (amount > 0) then refuses a zero charge.
  function Debit(a: Account, amount: int): (r: Option<Account>) {
    if a.balance < amount || amount <= 0 then None
    else Some(Account(a.balance - amount,
                      a.entries + [Entry(false, amount, a.balance, a.balance - amount)]))
  }

  function Credit(a: Account, amount: int): (r: Option<Account>) {
    if amount <= 0 then None
    else Some(Account(a.balance + amount,
                      a.entries + [Entry(true, amount, a.balance, a.balance + amount)]))
  }

  /** The balance an entry sequence leads to from an opening balance. */
  function Replay(opening: int, entries: seq<Entry>): int {
    if entries == [] then opening
    else
      var e := entries[|entries| - 1];
      Replay(opening, entries[..|entries| - 1]) + if e.credit then e.amount else -e.amount
  }

  function BalanceBefore(opening: int, entries: seq<Entry>, i: nat): int
    requires i <= |entries|
  {
    if i == 0 then opening else entries[i - 1].after
  }

  ghost predicate EntryOk(opening: int, entries: seq<Entry>, i: nat)
    requires i < |entries|
  {
    var e := entries[i];
    && e.amount > 0
    && e.before == BalanceBefore(opening, entries, i)
    && e.after == e.before + (if e.credit then e.amount else -e.amount)
    && e.after >= 0
  }

  /** Every entry starts from the balance the previous one left, and no balance is negative. */
  ghost predicate Chained(opening: int, a: Account) {
    && opening >= 0
    && (forall i :: 0 <= i < |a.entries| ==> EntryOk(opening, a.entries, i))
    && a.balance == BalanceBefore(opening, a.entries, |a.entries|)
  }

  /** A chained account is never overdrawn, and replaying its ledger reproduces the stored balance. */
  lemma {:induction false} ChainedReplays(opening: int, a: Account)
    requires Chained(opening, a)
    ensures a.balance >= 0 && Replay(opening, a.entries) == a.balance
    decreases |a.entries|
  {
    if a.entries != [] {
      var n := |a.entries| - 1;
      assert EntryOk(opening, a.entries, n);
      var rest := Account(a.entries[n].before, a.entries[..n]);
      forall i | 0 <= i < n ensures EntryOk(opening, rest.entries, i) {
        assert EntryOk(opening, a.entries, i);
      }
      ChainedReplays(opening, rest);
    }
  }

  lemma ExtendChain(opening: int, a: Account, e: Entry)
    requires Chained(opening, a) && EntryOk(opening, a.entries + [e], |a.entries|)
    ensures Chained(opening, Account(e.after, a.entries + [e]))
  {
    forall i | 0 <= i < |a.entries| ensures EntryOk(opening, a.entries + [e], i) {
      assert EntryOk(opening, a.entries, i);
    }
  }

  lemma PostingKeepsChain(opening: int, a: Account, amount: int)
    requires Chained(opening, a)
    ensures Debit(a, amount).Some? ==> Chained(opening, Debit(a, amount).value)
    ensures Credit(a, amount).Some? ==> Chained(opening, Credit(a, amount).value)
  {
    ChainedReplays(opening, a);
    if Debit(a, amount).Some? {
      ExtendChain(opening, a, Entry(false, amount, a.balance, a.balance - amount));
    }
    if Credit(a, amount).Some? {
      ExtendChain(opening, a, Entry(true, amount, a.balance, a.balance + amount));
    }
  }

  // ---- the carriers' side ----

  /** A carrier's balance with its ledger, and its usage totals. The balance may be overdrawn. */
  datatype CarrierAccount = CarrierAccount(balance: int, entries: seq<Entry>, messages: nat, segments: nat, spent: int)

  /** deduct_carrier_balance and increment_carrier_usage; None when the ledger's CHECK refuses the amount. */
  function ChargeCarrier(a: CarrierAccount, amount: int, segments: nat): (r: Option<CarrierAccount>) {
    if amount <= 0 then None
    else Some(CarrierAccount(a.balance - amount, a.entries + [Entry(false, amount, a.balance, a.balance - amount)],
                             a.messages + 1, a.segments + segments, a.spent + amount))
  }

  /**
   A charge posts exactly its amount: off the balance, onto the total spent, and as one new debit that
   starts from the old balance; the ledger keeps replaying to the balance. Only a positive amount posts.
   */
  lemma ChargeIsAccountedFor(opening: int, a: CarrierAccount, amount: int, segments: nat)
    ensures ChargeCarrier(a, amount, segments).Some? <==> amount > 0
    ensures amount > 0 ==>
      var b := ChargeCarrier(a, amount, segments).value;
      && b.balance == a.balance - amount && b.spent == a.spent + amount
      && b.messages == a.messages + 1 && b.segments == a.segments + segments
      && |b.entries| == |a.entries| + 1 && b.entries[..|a.entries|] == a.entries
      && (var e := b.entries[|a.entries|];
        !e.credit && e.amount == amount && e.before == a.balance && e.after == b.balance)
      && (Replay(opening, a.entries) == a.balance ==> Replay(opening, b.entries) == b.balance)
  {
    var e := Entry(false, amount, a.balance, a.balance - amount);
    assert (a.entries + [e])[..|a.entries|] == a.entries;
  }
}
