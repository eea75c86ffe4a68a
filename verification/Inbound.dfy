/**
 One inbound receipt as it runs on the store, and what a client hears of receipts handled one after
 another: the first of them, and the first final one.
 */
module Inbound {
  import opened Options
  import opened SmsRows
  import opened SmsStore
  import opened Receipts

  /** HandleInbound: None when nothing is forwarded. An unknown message and a failed update are ignored. */
  method HandleInbound(store: Store, m: MessageId, d: Dlr, now: int, updateOk: bool) returns (sent: Option<Dlr>)
    modifies store`rows
    ensures store.rows
         == if updateOk then UpdateAt(old(store.rows), m, (x: Row) => ReceiptRow(x, d, now)) else old(store.rows)
    ensures updateOk && m < |old(store.rows)| && !HasFinal(old(store.rows)[m]) ==>
      Receipted(old(store.rows), store.rows, m, d, now)
    ensures !updateOk || m >= |old(store.rows)| || HasFinal(old(store.rows)[m]) ==> store.rows == old(store.rows)
    ensures sent == if updateOk && m < |old(store.rows)| then Forwarded(old(store.rows)[m], d) else None
  {
    sent := None;
    if m >= |store.rows| { return; }
    var row := store.rows[m];
    var hadPrior := row.dlrReceivedAt.Some?;
    if !updateOk { return; }
    var applied := store.UpdateDLRReceived(m, d, now);
    if !applied || !row.dlrRequested { return; }
    if ShouldForward(hadPrior, d) { sent := Some(d); }
  }

  function Forwarded(r: Row, d: Dlr): Option<Dlr> {
    if !HasFinal(r) && r.dlrRequested && ShouldForward(r.dlrReceivedAt.Some?, d) then Some(d) else None
  }

  /** The row and the forwards after receipts ds, one after another. */
  function Handled(r: Row, ds: seq<Dlr>, now: int): (Row, seq<Dlr>) {
    if ds == [] then (r, [])
    else
      var (before, sent) := Handled(r, ds[..|ds| - 1], now);
      var f := Forwarded(before, ds[|ds| - 1]);
      (ReceiptRow(before, ds[|ds| - 1], now), if f.Some? then sent + [f.value] else sent)
  }

  /** The position of the first final receipt, or the length. */
  function FirstFinal(ds: seq<Dlr>): (j: nat)
    ensures j <= |ds| && (j < |ds| ==> IsFinal(ds[j])) && forall i :: 0 <= i < j ==> !IsFinal(ds[i])
  {
    if ds == [] then 0
    else
      var j := FirstFinal(ds[..|ds| - 1]);
      if j < |ds| - 1 || IsFinal(ds[|ds| - 1]) then j else |ds|
  }

  /**
   What the client hears, in full: the first receipt, then the first final one if that is another,
   whatever else arrives before, between or after; and the first final one is what is stored.
   */
  lemma {:induction false} FirstAndFinalAreForwarded(r: Row, ds: seq<Dlr>, now: int)
    requires r.dlrRequested && r.dlrStatus.None? && r.dlrReceivedAt.None?
    ensures var (row, sent) := Handled(r, ds, now);
      var j := FirstFinal(ds);
      && sent == (if ds == [] then [] else [ds[0]]) + (if 0 < j < |ds| then [ds[j]] else [])
      && (HasFinal(row) <==> j < |ds|) && (j < |ds| ==> row.dlrStatus == Some(ds[j]))
      && (row.dlrReceivedAt.Some? <==> ds != []) && row.dlrRequested
  {
    if ds != [] { FirstAndFinalAreForwarded(r, ds[..|ds| - 1], now); }
  }

  /** The receipt has been read and is about to be applied. */
  ghost predicate HasSeen(s: State, t: State, p: nat, d: Dlr) {
    t == s.(actors := t.actors) && p in t.actors && t.actors[p] == Receiver(d, Seen(s.row.dlrReceivedAt.Some?))
  }

  lemma ArriveAndSee(s: State, p: nat, d: Dlr)
    requires p !in s.actors
    ensures Enabled(Apply(s, Arrive(p, d)), See(p)) && HasSeen(s, Apply(Apply(s, Arrive(p, d)), See(p)), p, d)
  {
  }

  lemma UpdateAndForward(s: State, t: State, p: nat, d: Dlr)
    requires HasSeen(s, t, p, d)
    ensures Enabled(t, Update(p))
    ensures var u := Apply(t, Update(p));
      && u.row == ReceiptRow(s.row, d, s.now)
      && (Forwarded(s.row, d).None? ==> u.actors[p].stage == Finished && u.forwards == s.forwards)
      && (Forwarded(s.row, d).Some? ==> Enabled(u, Forward(p)) && Apply(u, Forward(p)).forwards == s.forwards + [d])
  {
  }

  /** Undisturbed, one receipt takes the machine's steps to the same row and the same forward. */
  lemma InboundIsARun(s: State, p: nat, d: Dlr) returns (u: State)
    requires p !in s.actors
    ensures Enabled(Apply(s, Arrive(p, d)), See(p)) && Enabled(Apply(Apply(s, Arrive(p, d)), See(p)), Update(p))
    ensures u == Apply(Apply(Apply(s, Arrive(p, d)), See(p)), Update(p)) && u.row == ReceiptRow(s.row, d, s.now)
    ensures Forwarded(s.row, d).None? ==> u.actors[p].stage == Finished && u.forwards == s.forwards
    ensures Forwarded(s.row, d).Some? ==> Enabled(u, Forward(p)) && Apply(u, Forward(p)).forwards == s.forwards + [d]
  {
    ArriveAndSee(s, p, d);
    var t := Apply(Apply(s, Arrive(p, d)), See(p));
    UpdateAndForward(s, t, p, d);
    u := Apply(t, Update(p));
  }
}
