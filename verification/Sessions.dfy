/**
 The SMPP ingress session registry: a count per client, the set of live sessions and the delivery
 list per client, kept as views of one sequence, the live sessions in bind order.
 */
module Sessions {
  import opened Options

  datatype Mode = Tx | Rx | Trx {
    predicate CanSubmit() { this == Tx || this == Trx }
    predicate CanDeliver() { this == Rx || this == Trx }
  }

  /** `handle` stands for the address of the session record: sessions are compared by identity. */
  datatype Session = Session(handle: nat, client: string, mode: Mode)

  function CountOf(live: seq<Session>, c: string): nat {
    if live == [] then 0 else CountOf(live[..|live| - 1], c) + if live[|live| - 1].client == c then 1 else 0
  }

  predicate Delivers(s: Session, c: string) { s.client == c && s.mode.CanDeliver() }

  /** The live sessions of a client that can receive, in bind order. */
  function Deliverable(live: seq<Session>, c: string): seq<Session> {
    if live == [] then []
    else
      var s := live[|live| - 1];
      if Delivers(s, c) then Deliverable(live[..|live| - 1], c) + [s] else Deliverable(live[..|live| - 1], c)
  }

  function Without(live: seq<Session>, s: Session): seq<Session> {
    if live == [] then []
    else
      var x := live[|live| - 1];
      if x == s then Without(live[..|live| - 1], s) else Without(live[..|live| - 1], s) + [x]
  }

  ghost predicate NoRepeats(live: seq<Session>) {
    forall i, j :: 0 <= i < j < |live| ==> live[i] != live[j]
  }

  lemma {:induction false} WithoutIsExact(live: seq<Session>, s: Session)
    requires NoRepeats(live)
    ensures NoRepeats(Without(live, s))
    ensures forall x :: x in Without(live, s) <==> x in live && x != s
    ensures s !in live ==> Without(live, s) == live
  {
    if live != [] {
      WithoutIsExact(live[..|live| - 1], s);
      assert live == live[..|live| - 1] + [live[|live| - 1]];
      assert live[|live| - 1] !in live[..|live| - 1];
    }
  }

  lemma {:induction false} WithoutCounts(live: seq<Session>, s: Session, c: string)
    requires NoRepeats(live)
    ensures CountOf(Without(live, s), c) == CountOf(live, c) - if s in live && s.client == c then 1 else 0
  {
    if live != [] {
      var front, x := live[..|live| - 1], live[|live| - 1];
      WithoutCounts(front, s, c);
      LastMember(live, s);
      AddedCount(Without(front, s), x, c);
    }
  }

  /** It is the number of live sessions of the client. */
  lemma {:induction false} CountIsNumber(live: seq<Session>, c: string)
    requires NoRepeats(live)
    ensures CountOf(live, c) == |set s | s in live && s.client == c|
  {
    if live != [] {
      var front, x := live[..|live| - 1], live[|live| - 1];
      CountIsNumber(front, c);
      assert live == front + [x] && x !in front;
      Members(live, x, c);
    }
  }

  lemma Members(live: seq<Session>, x: Session, c: string)
    requires live != [] && live[|live| - 1] == x && x !in live[..|live| - 1]
    ensures var before := set s | s in live[..|live| - 1] && s.client == c;
      |set s | s in live && s.client == c| == |before| + if x.client == c then 1 else 0
  {
    var front := live[..|live| - 1];
    assert live == front + [x];
    var before := set s | s in front && s.client == c;
    assert (set s | s in live && s.client == c) == if x.client == c then before + {x} else before;
  }

  lemma AddedCount(live: seq<Session>, x: Session, c: string)
    ensures CountOf(live + [x], c) == CountOf(live, c) + if x.client == c then 1 else 0
  {
    assert (live + [x])[..|live|] == live;
  }

  lemma LastMember(live: seq<Session>, s: Session)
    requires live != [] && NoRepeats(live)
    ensures s in live <==> s in live[..|live| - 1] || s == live[|live| - 1]
    ensures live[|live| - 1] !in live[..|live| - 1]
  {
    assert live == live[..|live| - 1] + [live[|live| - 1]];
  }

  lemma {:induction false} WithoutDeliverable(live: seq<Session>, s: Session, c: string)
    ensures Deliverable(Without(live, s), c) == Without(Deliverable(live, c), s)
  {
    if live != [] {
      var front, x := live[..|live| - 1], live[|live| - 1];
      WithoutDeliverable(front, s, c);
      var w, d := Without(front, s), Deliverable(front, c);
      assert (w + [x])[..|w|] == w && (d + [x])[..|d|] == d;
    }
  }

  lemma {:induction false} DeliverableIsExact(live: seq<Session>, c: string)
    requires NoRepeats(live)
    ensures NoRepeats(Deliverable(live, c))
    ensures forall x :: x in Deliverable(live, c) <==> x in live && Delivers(x, c)
  {
    if live != [] {
      DeliverableIsExact(live[..|live| - 1], c);
      assert live == live[..|live| - 1] + [live[|live| - 1]];
    }
  }

  /** Cutting out position i removes exactly that element. */
  lemma {:induction false} CutIsWithout(list: seq<Session>, i: nat)
    requires NoRepeats(list) && i < |list|
    ensures list[..i] + list[i + 1..] == Without(list, list[i])
  {
    var front, n := list[..|list| - 1], |list| - 1;
    if i < n {
      CutIsWithout(front, i);
      assert list[..i] + list[i + 1..] == (front[..i] + front[i + 1..]) + [list[n]];
    } else {
      WithoutIsExact(front, list[i]);
    }
  }

  lemma {:induction false} FirstDeliverable(live: seq<Session>, c: string)
    ensures Deliverable(live, c) == [] <==> forall i :: 0 <= i < |live| ==> !Delivers(live[i], c)
    ensures Deliverable(live, c) != [] ==> exists k :: Oldest(live, c, k) && live[k] == Deliverable(live, c)[0]
  {
    if live != [] {
      var n := |live| - 1;
      var front := live[..n];
      FirstDeliverable(front, c);
      if Deliverable(front, c) != [] {
        var k :| Oldest(front, c, k) && front[k] == Deliverable(front, c)[0];
        assert Oldest(live, c, k);
      } else if Delivers(live[n], c) {
        assert forall i :: 0 <= i < n ==> live[i] == front[i];
        assert Oldest(live, c, n);
      }
    }
  }

  /** Position k holds the client's earliest-bound session that can receive. */
  ghost predicate Oldest(live: seq<Session>, c: string, k: int) {
    0 <= k < |live| && Delivers(live[k], c) && forall i :: 0 <= i < k ==> !Delivers(live[i], c)
  }

  /** The two per-client maps show client c's part of the live sessions, with no empty entries. */
  ghost predicate Shows(byClient: Counts, deliver: Lists, live: seq<Session>, c: string) {
    && (c in byClient <==> CountOf(live, c) > 0)
    && (c in byClient ==> byClient[c] == CountOf(live, c))
    && (c in deliver <==> Deliverable(live, c) != [])
    && (c in deliver ==> deliver[c] == Deliverable(live, c))
  }

  lemma AddedShows(live: seq<Session>, s: Session, c: string)
    ensures CountOf(live + [s], c) == CountOf(live, c) + if s.client == c then 1 else 0
    ensures Deliverable(live + [s], c) == if Delivers(s, c) then Deliverable(live, c) + [s] else Deliverable(live, c)
  {
    assert (live + [s])[..|live|] == live;
  }

  lemma RemovedShows(live: seq<Session>, s: Session, c: string)
    requires NoRepeats(live) && s in live
    ensures CountOf(Without(live, s), c) == CountOf(live, c) - if s.client == c then 1 else 0
    ensures Deliverable(Without(live, s), c)
         == if c == s.client then Without(Deliverable(live, c), s) else Deliverable(live, c)
    ensures c == s.client && s !in Deliverable(live, c) ==> Without(Deliverable(live, c), s) == Deliverable(live, c)
  {
    WithoutCounts(live, s, c);
    WithoutDeliverable(live, s, c);
    DeliverableIsExact(live, c);
    WithoutIsExact(Deliverable(live, c), s);
  }

  type Counts = map<string, nat>
  type Lists = map<string, seq<Session>>

  function CountAfterAdd(byClient: Counts, s: Session): Counts {
    byClient[s.client := (if s.client in byClient then byClient[s.client] else 0) + 1]
  }

  function ListsAfterAdd(deliver: Lists, s: Session): Lists {
    if s.mode.CanDeliver() then deliver[s.client := (if s.client in deliver then deliver[s.client] else []) + [s]]
    else deliver
  }

  function CountAfterRemove(byClient: Counts, s: Session): Counts {
    if s.client !in byClient then byClient
    else if byClient[s.client] > 1 then byClient[s.client := byClient[s.client] - 1]
    else byClient - {s.client}
  }

  function ListsAfterRemove(deliver: Lists, s: Session): Lists {
    if s.client !in deliver then deliver
    else
      var rest := Without(deliver[s.client], s);
      if rest == [] then deliver - {s.client} else deliver[s.client := rest]
  }

  lemma AddShows(byClient: Counts, deliver: Lists, live: seq<Session>, s: Session, c: string)
    requires Shows(byClient, deliver, live, c)
    ensures Shows(CountAfterAdd(byClient, s), ListsAfterAdd(deliver, s), live + [s], c)
  {
    AddedShows(live, s, c);
  }

  lemma RemoveShows(byClient: Counts, deliver: Lists, live: seq<Session>, s: Session, c: string)
    requires Shows(byClient, deliver, live, c) && NoRepeats(live) && s in live
    ensures Shows(CountAfterRemove(byClient, s), ListsAfterRemove(deliver, s), Without(live, s), c)
  {
    RemovedShows(live, s, c);
  }

  class SessionRegistry {
    var byClient: Counts
    var sessions: set<Session>
    var deliver: Lists
    ghost var live: seq<Session>

    /** The three fields are views of the live sessions in bind order. */
    ghost predicate Valid()
      reads this
    {
      && NoRepeats(live)
      && (forall s :: s in sessions <==> s in live)
      && (forall c :: Shows(byClient, deliver, live, c))
    }

    constructor ()
      ensures Valid() && live == []
    {
      byClient, sessions, deliver := map[], {}, map[];
      live := [];
    }

    /** The caller passes a session it has just allocated. */
    method Add(s: Session)
      requires Valid() && s !in sessions
      modifies this
      ensures Valid() && live == old(live) + [s]
    {
      forall c ensures Shows(CountAfterAdd(byClient, s), ListsAfterAdd(deliver, s), live + [s], c) {
        AddShows(byClient, deliver, live, s, c);
      }
      sessions := sessions + {s};
      byClient := byClient[s.client := (if s.client in byClient then byClient[s.client] else 0) + 1];
      if s.mode.CanDeliver() {
        deliver := deliver[s.client := (if s.client in deliver then deliver[s.client] else []) + [s]];
      }
      live := live + [s];
      assert byClient == CountAfterAdd(old(byClient), s) && deliver == ListsAfterAdd(old(deliver), s);
    }

    method Remove(s: Session) returns (present: bool)
      requires Valid()
      modifies this
      ensures Valid() && live == Without(old(live), s) && present == (s in old(live))
    {
      WithoutIsExact(live, s);
      if s !in sessions { return false; }
      forall c ensures Shows(CountAfterRemove(byClient, s), ListsAfterRemove(deliver, s), Without(live, s), c) {
        RemoveShows(byClient, deliver, live, s, c);
      }
      DropFromMaps(s);
      sessions := sessions - {s};
      live := Without(live, s);
      present := true;
    }

    /** The two per-client maps, with entries that become empty deleted. */
    method DropFromMaps(s: Session)
      requires Shows(byClient, deliver, live, s.client) && NoRepeats(live)
      modifies this`byClient, this`deliver
      ensures byClient == CountAfterRemove(old(byClient), s) && deliver == ListsAfterRemove(old(deliver), s)
    {
      if s.client in byClient && byClient[s.client] > 0 { byClient := byClient[s.client := byClient[s.client] - 1]; }
      if s.client in byClient && byClient[s.client] == 0 { byClient := byClient - {s.client}; }
      if s.client in deliver {
        DeliverableIsExact(live, s.client);
        var rest := CutOut(deliver[s.client], s);
        deliver := if rest == [] then deliver - {s.client} else deliver[s.client := rest];
      }
    }

    method BindCount(c: string) returns (n: nat)
      requires Valid()
      ensures n == CountOf(live, c)
    {
      assert Shows(byClient, deliver, live, c);
      n := if c in byClient then byClient[c] else 0;
    }

    method PickDeliver(c: string) returns (s: Option<Session>)
      requires Valid()
      ensures s.None? <==> forall i :: 0 <= i < |live| ==> !(live[i].client == c && live[i].mode in {Rx, Trx})
      ensures s.Some? ==>
        && s.value.client == c && s.value.mode in {Rx, Trx}
        && exists k :: 0 <= k < |live| && live[k] == s.value
             && forall i :: 0 <= i < k ==> !(live[i].client == c && live[i].mode in {Rx, Trx})
    {
      assert Shows(byClient, deliver, live, c);
      FirstDeliverable(live, c);
      s := if c !in deliver || deliver[c] == [] then None else Some(deliver[c][0]);
      if s.Some? {
        ghost var k :| Oldest(live, c, k) && live[k] == s.value;
      }
    }
  }

  /** The scan that drops the first occurrence of s from a delivery list. */
  method CutOut(list: seq<Session>, s: Session) returns (rest: seq<Session>)
    requires NoRepeats(list)
    ensures rest == Without(list, s)
  {
    for i := 0 to |list|
      invariant s !in list[..i]
    {
      if list[i] == s {
        CutIsWithout(list, i);
        return list[..i] + list[i + 1..];
      }
    }
    WithoutIsExact(list, s);
    rest := list;
  }

  // ---- add/remove runs ----

  datatype Op = Opened(s: Session) | Closed(s: Session)

  function PlayOp(live: seq<Session>, op: Op): seq<Session> {
    match op
    case Opened(s) => if s in live then live else live + [s]
    case Closed(s) => Without(live, s)
  }

  function Play(live: seq<Session>, ops: seq<Op>): seq<Session> {
    if ops == [] then live else PlayOp(Play(live, ops[..|ops| - 1]), ops[|ops| - 1])
  }

  /** How many removals of s found it. */
  function Found(live: seq<Session>, ops: seq<Op>, s: Session): nat {
    if ops == [] then 0
    else
      Found(live, ops[..|ops| - 1], s)
      + if ops[|ops| - 1] == Closed(s) && s in Play(live, ops[..|ops| - 1]) then 1 else 0
  }

  function Binds(live: seq<Session>, ops: seq<Op>, s: Session): nat {
    if ops == [] then 0
    else
      Binds(live, ops[..|ops| - 1], s)
      + if ops[|ops| - 1] == Opened(s) && s !in Play(live, ops[..|ops| - 1]) then 1 else 0
  }

  lemma {:induction false} PlayKeepsNoRepeats(live: seq<Session>, ops: seq<Op>)
    requires NoRepeats(live)
    ensures NoRepeats(Play(live, ops))
  {
    if ops != [] {
      var before := Play(live, ops[..|ops| - 1]);
      PlayKeepsNoRepeats(live, ops[..|ops| - 1]);
      if ops[|ops| - 1].Closed? { WithoutIsExact(before, ops[|ops| - 1].s); }
    }
  }

  /** Removal succeeds exactly once per bind: what was bound and is gone was found once, what is live never. */
  lemma {:induction false} RemovedOncePerBind(ops: seq<Op>, s: Session)
    ensures Binds([], ops, s) == Found([], ops, s) + if s in Play([], ops) then 1 else 0
  {
    if ops != [] {
      var front, op := ops[..|ops| - 1], ops[|ops| - 1];
      RemovedOncePerBind(front, s);
      PlayKeepsNoRepeats([], front);
      if op.Closed? { WithoutIsExact(Play([], front), op.s); }
    }
  }
}
