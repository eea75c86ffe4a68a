/**
 The age-out sweep over the store: it lists accepted messages whose receipt is overdue, then closes
 them one by one while receipts keep arriving. It touches no account.
 */
module Ageing {
  import opened Options
  import opened SmsRows
  import opened Pipeline
  import opened SmsStore
  import Receipts
  import ReceiptLimits

  /** The overdue candidates, earliest received first, at most `limit` of them. */
  method ListStuckAcceptedNoDLR(store: Store, olderThan: int, limit: nat) returns (ids: seq<MessageId>)
    ensures |ids| <= limit && Distinct(ids)
    ensures forall i :: 0 <= i < |ids| ==> ids[i] < |store.rows| && AgeCandidate(store.rows[ids[i]], olderThan)
    ensures forall i :: 0 <= i < |ids| ==>
      var r := store.rows[ids[i]]; r.status == Accepted && r.dlrRequested && r.receivedAt < olderThan
    ensures forall m: MessageId | m < |store.rows| && m !in ids && |ids| < limit ::
      var r := store.rows[m]; r.status != Accepted || !r.dlrRequested || r.receivedAt >= olderThan
    ensures forall i, j :: 0 <= i < j < |ids| ==> store.rows[ids[i]].receivedAt <= store.rows[ids[j]].receivedAt
    ensures forall m: MessageId :: m < |store.rows| && AgeCandidate(store.rows[m], olderThan) && m !in ids ==>
      |ids| == limit && forall i :: 0 <= i < |ids| ==> store.rows[ids[i]].receivedAt <= store.rows[m].receivedAt
  {
    ids := [];
    var more := true;
    while more && |ids| < limit
      invariant |ids| <= limit && Distinct(ids)
      invariant forall i :: 0 <= i < |ids| ==> ids[i] < |store.rows| && AgeCandidate(store.rows[ids[i]], olderThan)
      invariant forall i, j :: 0 <= i < j < |ids| ==> store.rows[ids[i]].receivedAt <= store.rows[ids[j]].receivedAt
      invariant forall m: MessageId :: m < |store.rows| && AgeCandidate(store.rows[m], olderThan) && m !in ids ==>
        more && forall i :: 0 <= i < |ids| ==> store.rows[ids[i]].receivedAt <= store.rows[m].receivedAt
      decreases limit - |ids|, more
    {
      var next := Earliest(store, olderThan, ids);
      if next.None? { more := false; } else { ids := ids + [next.value]; }
    }
  }

  method Earliest(store: Store, olderThan: int, picked: seq<MessageId>) returns (best: Option<MessageId>)
    ensures best.None? ==> forall m: MessageId :: m < |store.rows| && AgeCandidate(store.rows[m], olderThan) ==>
      m in picked
    ensures best.Some? ==>
      best.value < |store.rows| && AgeCandidate(store.rows[best.value], olderThan) && best.value !in picked
    ensures best.Some? ==>
      forall m: MessageId :: m < |store.rows| && AgeCandidate(store.rows[m], olderThan) && m !in picked ==>
        store.rows[best.value].receivedAt <= store.rows[m].receivedAt
  {
    best := None;
    for i := 0 to |store.rows|
      invariant best.None? ==> forall m: MessageId :: m < i && AgeCandidate(store.rows[m], olderThan) ==> m in picked
      invariant best.Some? ==>
        best.value < i && AgeCandidate(store.rows[best.value], olderThan) && best.value !in picked
      invariant best.Some? ==>
        forall m: MessageId :: m < i && AgeCandidate(store.rows[m], olderThan) && m !in picked ==>
          store.rows[best.value].receivedAt <= store.rows[m].receivedAt
    {
      if AgeCandidate(store.rows[i], olderThan) && i !in picked
         && (best.None? || store.rows[i].receivedAt < store.rows[best.value].receivedAt) {
        best := Some(i);
      }
    }
  }

  datatype Arrival = Arrival(id: MessageId, dlr: Dlr)

  /** One turn of the sweep: the receipts that land before it, its instant, and whether its mark goes through. */
  datatype Turn = Turn(arrivals: seq<Arrival>, now: int, marked: bool)

  /** Row m after the receipts that name it. */
  function Received(r: Row, m: MessageId, arrivals: seq<Arrival>, now: int): Row {
    if arrivals == [] then r
    else
      var before := Received(r, m, arrivals[..|arrivals| - 1], now);
      var a := arrivals[|arrivals| - 1];
      if a.id == m then ReceiptRow(before, a.dlr, now) else before
  }

  function AfterTurn(r: Row, m: MessageId, id: MessageId, turn: Turn): Row {
    var received := Received(r, m, turn.arrivals, turn.now);
    if id == m && turn.marked then AgeOutRow(received, turn.now) else received
  }

  /** Row m after the first k turns: aged at its own turn, or touched by receipts only. */
  function RowAfter(r: Row, m: MessageId, ids: seq<MessageId>, turns: seq<Turn>, k: nat): Row
    requires k <= |ids| <= |turns|
  {
    if k == 0 then r else AfterTurn(RowAfter(r, m, ids, turns, k - 1), m, ids[k - 1], turns[k - 1])
  }

  method Receive(store: Store, arrivals: seq<Arrival>, now: int)
    modifies store`rows
    ensures |store.rows| == |old(store.rows)|
    ensures forall m: MessageId :: m < |store.rows| ==> store.rows[m] == Received(old(store.rows)[m], m, arrivals, now)
  {
    for i := 0 to |arrivals|
      invariant |store.rows| == |old(store.rows)|
      invariant forall m: MessageId :: m < |store.rows| ==>
        store.rows[m] == Received(old(store.rows)[m], m, arrivals[..i], now)
    {
      assert arrivals[..i + 1][..i] == arrivals[..i];
      var _ := store.UpdateDLRReceived(arrivals[i].id, arrivals[i].dlr, now);
    }
    assert arrivals[..|arrivals|] == arrivals;
  }

  /** Receipts land, then the guarded close, unless the mark fails. */
  method TakeTurn(store: Store, id: MessageId, turn: Turn) returns (applied: bool)
    requires id < |store.rows|
    modifies store`rows
    ensures |store.rows| == |old(store.rows)|
    ensures forall m: MessageId :: m < |store.rows| ==> store.rows[m] == AfterTurn(old(store.rows)[m], m, id, turn)
    ensures applied == (turn.marked && AgeOutApplies(Received(old(store.rows)[id], id, turn.arrivals, turn.now)))
  {
    Receive(store, turn.arrivals, turn.now);
    applied := false;
    if turn.marked { applied := store.AgeOutAcceptedNoDLR(id, turn.now); }
  }

  ghost predicate Closes(r: Row, i: nat, ids: seq<MessageId>, turns: seq<Turn>)
    requires i < |ids| <= |turns|
  {
    turns[i].marked
      && AgeOutApplies(Received(RowAfter(r, ids[i], ids, turns, i), ids[i], turns[i].arrivals, turns[i].now))
  }

  /** Whom the first k turns notify, in order. */
  ghost function Notified(rows: seq<Row>, ids: seq<MessageId>, turns: seq<Turn>, k: nat): seq<MessageId>
    requires k <= |ids| <= |turns| && forall i :: 0 <= i < |ids| ==> ids[i] < |rows|
  {
    if k == 0 then []
    else Notified(rows, ids, turns, k - 1) + if Closes(rows[ids[k - 1]], k - 1, ids, turns) then [ids[k - 1]] else []
  }

  /** The sweep: any receipts may land before each turn, and each mark may fail. A shutdown is a run of failed marks. */
  method Sweep(store: Store, cutoff: int, batch: nat, turns: seq<Turn>)
    returns (notified: seq<MessageId>, ghost ids: seq<MessageId>)
    requires |turns| == batch
    modifies store`rows
    ensures |ids| <= batch && Distinct(ids) && |store.rows| == |old(store.rows)|
    ensures forall i :: 0 <= i < |ids| ==> ids[i] < |old(store.rows)| && AgeCandidate(old(store.rows)[ids[i]], cutoff)
    ensures forall m: MessageId :: m < |store.rows| ==>
      store.rows[m] == RowAfter(old(store.rows)[m], m, ids, turns, |ids|)
    ensures notified == Notified(old(store.rows), ids, turns, |ids|)
  {
    var listed := ListStuckAcceptedNoDLR(store, cutoff, batch);
    ids := listed;
    notified := [];
    for i := 0 to |listed|
      invariant |store.rows| == |old(store.rows)|
      invariant forall m: MessageId :: m < |store.rows| ==>
        store.rows[m] == RowAfter(old(store.rows)[m], m, ids, turns, i)
      invariant notified == Notified(old(store.rows), ids, turns, i)
    {
      var applied := TakeTurn(store, listed[i], turns[i]);
      if applied { notified := notified + [listed[i]]; }
    }
  }

  /** A final receipt for m is among these. */
  predicate HasFinalFor(arrivals: seq<Arrival>, m: MessageId) {
    exists i :: 0 <= i < |arrivals| && arrivals[i].id == m && IsFinal(arrivals[i].dlr)
  }

  /** A final receipt for m lands in one of the first k turns. */
  predicate FinalArrived(turns: seq<Turn>, m: MessageId, k: nat)
    requires k <= |turns|
  {
    exists j :: 0 <= j < k && HasFinalFor(turns[j].arrivals, m)
  }

  lemma {:induction false} ReceivedOpen(r: Row, m: MessageId, arrivals: seq<Arrival>, now: int)
    requires r.status == Accepted && !HasFinal(r)
    ensures var x := Received(r, m, arrivals, now);
      (x.status == Accepted <==> !HasFinalFor(arrivals, m)) && (HasFinal(x) <==> HasFinalFor(arrivals, m))
  {
    if arrivals != [] { ReceivedOpen(r, m, arrivals[..|arrivals| - 1], now); }
  }

  lemma {:induction false} ReceivedFinal(r: Row, m: MessageId, arrivals: seq<Arrival>, now: int)
    requires HasFinal(r)
    ensures Received(r, m, arrivals, now) == r
  {
    if arrivals != [] { ReceivedFinal(r, m, arrivals[..|arrivals| - 1], now); }
  }

  lemma {:induction false} BeforeItsTurn(r: Row, m: MessageId, ids: seq<MessageId>, turns: seq<Turn>, k: nat)
    requires k <= |ids| <= |turns| && m !in ids[..k]
    requires r.status == Accepted && !HasFinal(r)
    ensures var x := RowAfter(r, m, ids, turns, k);
      (x.status == Accepted <==> !FinalArrived(turns, m, k)) && (HasFinal(x) <==> FinalArrived(turns, m, k))
  {
    if k > 0 {
      assert ids[..k][k - 1] == ids[k - 1] && ids[..k][..k - 1] == ids[..k - 1];
      BeforeItsTurn(r, m, ids, turns, k - 1);
      var x := RowAfter(r, m, ids, turns, k - 1);
      if HasFinal(x) {
        ReceivedFinal(x, m, turns[k - 1].arrivals, turns[k - 1].now);
      } else {
        ReceivedOpen(x, m, turns[k - 1].arrivals, turns[k - 1].now);
      }
    }
  }

  /** Once a row has a final status no later turn changes it. */
  lemma {:induction false} FinalRowStays(r: Row, m: MessageId, ids: seq<MessageId>, turns: seq<Turn>, j: nat, k: nat)
    requires j <= k <= |ids| <= |turns|
    requires var x := RowAfter(r, m, ids, turns, j); HasFinal(x) && !AgeOutApplies(x)
    ensures RowAfter(r, m, ids, turns, k) == RowAfter(r, m, ids, turns, j)
  {
    if j < k {
      FinalRowStays(r, m, ids, turns, j, k - 1);
      ReceivedFinal(RowAfter(r, m, ids, turns, j), m, turns[k - 1].arrivals, turns[k - 1].now);
    }
  }

  /** A message is notified in its own turn or not at all. */
  lemma {:induction false} NotifiedWhenClosed(rows: seq<Row>, ids: seq<MessageId>, turns: seq<Turn>, k: nat, i: nat)
    requires i < |ids| && k <= |ids| <= |turns| && Distinct(ids)
    requires forall j :: 0 <= j < |ids| ==> ids[j] < |rows|
    ensures ids[i] in Notified(rows, ids, turns, k) <==> i < k && Closes(rows[ids[i]], i, ids, turns)
  {
    if k > 0 { NotifiedWhenClosed(rows, ids, turns, k - 1, i); }
  }

  /**
   A listed message without a receipt is closed as undelivered exactly when its mark succeeds and no
   final receipt came first; whichever came first is what the sweep leaves behind.
   */
  lemma ClosedUnlessReceipted(r: Row, i: nat, ids: seq<MessageId>, turns: seq<Turn>)
    requires i < |ids| <= |turns| && Distinct(ids)
    requires r.status == Accepted && !HasFinal(r)
    ensures var m := ids[i];
      var turn := Received(RowAfter(r, m, ids, turns, i), m, turns[i].arrivals, turns[i].now);
      var last := RowAfter(r, m, ids, turns, |ids|);
      && (AgeOutApplies(turn) <==> !FinalArrived(turns, m, i + 1))
      && (Closes(r, i, ids, turns) ==> last.status == Failed && last.dlrStatus == Some(DlrUndelivered))
      && (!AgeOutApplies(turn) ==> last == turn && HasFinal(last))
  {
    var m := ids[i];
    assert m !in ids[..i];
    BeforeItsTurn(r, m, ids, turns, i);
    var x := RowAfter(r, m, ids, turns, i);
    if HasFinal(x) {
      ReceivedFinal(x, m, turns[i].arrivals, turns[i].now);
    } else {
      ReceivedOpen(x, m, turns[i].arrivals, turns[i].now);
    }
    var after := RowAfter(r, m, ids, turns, i + 1);
    if HasFinal(after) && !AgeOutApplies(after) {
      FinalRowStays(r, m, ids, turns, i + 1, |ids|);
    }
  }

  // ---- the sweep, seen from one row, is a run of the receipts machine ----

  lemma {:induction false} ArrivalsLand(x: Receipts.State, m: MessageId, arrivals: seq<Arrival>)
    returns (y: Receipts.State)
    requires ReceiptLimits.Reachable(x, false)
    ensures ReceiptLimits.Reachable(y, false) && y.row == Received(x.row, m, arrivals, x.now) && y.now == x.now
    ensures forall q :: q in x.actors ==> q in y.actors && y.actors[q] == x.actors[q]
  {
    y := x;
    if arrivals != [] {
      var n := |arrivals| - 1;
      y := ArrivalsLand(x, m, arrivals[..n]);
      if arrivals[n].id == m {
        var p := ReceiptLimits.FreshActor(y.actors.Keys);
        y := ReceiptLimits.ReceiptLands(y, p, arrivals[n].dlr, false);
      }
    }
  }

  /** Sweep q has listed the row and not come to it yet. */
  predicate Listed(x: Receipts.State, q: nat) { Receipts.IsAt(x, q, false, Receipts.Waiting) }

  lemma TurnIsARun(x: Receipts.State, q: nat, m: MessageId, id: MessageId, turn: Turn) returns (y: Receipts.State)
    requires ReceiptLimits.Reachable(x, false) && x.now <= turn.now && q in x.actors && (id == m ==> Listed(x, q))
    ensures ReceiptLimits.Reachable(y, false) && y.row == AfterTurn(x.row, m, id, turn) && y.now == turn.now
    ensures q in y.actors && (id != m ==> y.actors[q] == x.actors[q])
    ensures id == m ==>
      (y.actors[q].stage == Receipts.Forwarding
       <==> turn.marked && AgeOutApplies(Received(x.row, m, turn.arrivals, turn.now)))
  {
    ReceiptLimits.Go(x, Receipts.Clock(turn.now - x.now), false);
    y := Receipts.Apply(x, Receipts.Clock(turn.now - x.now));
    y := ArrivalsLand(y, m, turn.arrivals);
    if id == m && turn.marked {
      ReceiptLimits.Go(y, Receipts.Mark(q), false);
      y := Receipts.Apply(y, Receipts.Mark(q));
    }
  }

  /** The turns come one after another in time, from this instant on. */
  ghost predicate InTime(turns: seq<Turn>, k: nat, start: int)
    requires k <= |turns|
  {
    && (forall i :: 0 <= i < k ==> start <= turns[i].now)
    && forall i, j :: 0 <= i < j < k ==> turns[i].now <= turns[j].now
  }

  /**
   k turns of the sweep, watched at row m: the machine reaches the row the sweep leaves, and its sweep
   is about to notify exactly when the row's own turn closed it.
   */
  lemma {:induction false} SweepIsARun(x: Receipts.State, q: nat, m: MessageId, ids: seq<MessageId>, turns: seq<Turn>,
                                       k: nat)
    returns (y: Receipts.State)
    requires k <= |ids| <= |turns| && Distinct(ids) && InTime(turns, k, x.now)
    requires ReceiptLimits.Reachable(x, false) && Listed(x, q)
    ensures ReceiptLimits.Reachable(y, false) && y.row == RowAfter(x.row, m, ids, turns, k)
    ensures y.now == (if k == 0 then x.now else turns[k - 1].now) && q in y.actors
    ensures m !in ids[..k] ==> Listed(y, q)
    ensures forall i :: 0 <= i < k && ids[i] == m ==>
      (y.actors[q].stage == Receipts.Forwarding <==> Closes(x.row, i, ids, turns))
  {
    y := x;
    if k > 0 {
      y := SweepIsARun(x, q, m, ids, turns, k - 1);
      assert forall i :: 0 <= i < k - 1 ==> ids[..k][i] == ids[i] && ids[..k - 1][i] == ids[i];
      assert ids[..k][k - 1] == ids[k - 1];
      if ids[k - 1] == m { assert m !in ids[..k - 1]; }
      y := TurnIsARun(y, q, m, ids[k - 1], turns[k - 1]);
    }
  }
}
