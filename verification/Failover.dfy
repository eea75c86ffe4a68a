/**
 Which carriers a message is tried on, in what order, and what the one mutable outcome record says
 afterwards. Transports are inputs: what each carrier would answer if contacted.
 */
module Failover {
  import opened Options
  import opened RoundRobin
  import opened InLoss
  import opened Eligibility

  datatype Mode = InOrder | Loadbalance | Overflow

  datatype Route = Route(
    entryId: string,
    primary: CarrierId, failover1: Option<CarrierId>, failover2: Option<CarrierId>,
    mode: Mode, weights: (int, int, int))

  /** The carrier in a slot of the route, if there is one. */
  function InSlot(r: Route, slot: nat): Option<CarrierId> {
    if slot == 0 then Some(r.primary)
    else if slot == 1 && Present(r.failover1) then r.failover1
    else if slot == 2 && Present(r.failover2) then r.failover2
    else None
  }

  function Candidates(r: Route): (cs: seq<Weighted>)
    ensures 1 <= |cs| <= 3 && cs[0] == Weighted(r.primary, 0, r.weights.0)
  {
    [Weighted(r.primary, 0, r.weights.0)]
      + (if Present(r.failover1) then [Weighted(r.failover1.value, 1, r.weights.1)] else [])
      + (if Present(r.failover2) then [Weighted(r.failover2.value, 2, r.weights.2)] else [])
  }

  function WeightOf(r: Route, slot: nat): int {
    if slot == 0 then r.weights.0 else if slot == 1 then r.weights.1 else r.weights.2
  }

  /** They are the carriers of the occupied slots, each once, in slot order and with the weight of its slot. */
  lemma CandidatesAreTheSlots(r: Route)
    ensures Ascending(Candidates(r))
    ensures forall i :: 0 <= i < |Candidates(r)| ==>
      var c := Candidates(r)[i]; InSlot(r, c.slot) == Some(c.id) && c.weight == WeightOf(r, c.slot)
    ensures forall slot, id :: InSlot(r, slot) == Some(id) ==> Weighted(id, slot, WeightOf(r, slot)) in Candidates(r)
  {
    var cs := Candidates(r);
    assert Present(r.failover1) ==> cs[1] == Weighted(r.failover1.value, 1, r.weights.1);
    assert Present(r.failover2) ==> cs[|cs| - 1] == Weighted(r.failover2.value, 2, r.weights.2);
    forall slot, id | InSlot(r, slot) == Some(id) ensures Weighted(id, slot, WeightOf(r, slot)) in cs {
      if slot == 0 { assert cs[0] in cs; }
    }
  }

  ghost predicate Ascending(cands: seq<Weighted>) {
    && (forall i :: 0 <= i < |cands| ==> cands[i].slot <= 2)
    && forall i, j :: 0 <= i < j < |cands| ==> cands[i].slot < cands[j].slot
  }

  function ByReadiness(cands: seq<Weighted>, ready: set<CarrierId>, wanted: bool): seq<Candidate> {
    if cands == [] then []
    else
      var c := cands[|cands| - 1];
      ByReadiness(cands[..|cands| - 1], ready, wanted) + if (c.id in ready) == wanted then [Strip(c)] else []
  }

  /** Every candidate once, with its own slot number. */
  ghost predicate SlotPermutation(out: seq<Candidate>, cands: seq<Weighted>) {
    multiset(out) == multiset(SlotOrder(cands))
  }

  lemma SlotOrderSplits(cands: seq<Weighted>, i: nat)
    requires i < |cands|
    ensures SlotOrder(cands) == SlotOrder(cands[..i]) + [Strip(cands[i])] + SlotOrder(cands[i + 1..])
  {
  }

  lemma LeadsIs(out: seq<Candidate>, cands: seq<Weighted>, i: nat)
    requires Leads(out, cands, i)
    ensures out == [Strip(cands[i])] + SlotOrder(cands[..i]) + SlotOrder(cands[i + 1..])
  {
    var other := [Strip(cands[i])] + SlotOrder(cands[..i]) + SlotOrder(cands[i + 1..]);
    assert |other| == |out|;
    forall j | 0 <= j < |out| ensures out[j] == other[j] {
      if 1 <= j <= i { assert other[j] == SlotOrder(cands[..i])[j - 1]; }
      if j > i { assert j == 0 || other[j] == SlotOrder(cands[i + 1..])[j - i - 1]; }
    }
  }

  lemma LeadsIsPermutation(out: seq<Candidate>, cands: seq<Weighted>, i: nat)
    requires Leads(out, cands, i)
    ensures SlotPermutation(out, cands)
  {
    LeadsIs(out, cands, i);
    SlotOrderSplits(cands, i);
  }

  lemma {:induction false} ReadinessIsPermutation(cands: seq<Weighted>, ready: set<CarrierId>)
    ensures SlotPermutation(ByReadiness(cands, ready, true) + ByReadiness(cands, ready, false), cands)
  {
    if cands != [] {
      var n := |cands| - 1;
      ReadinessIsPermutation(cands[..n], ready);
      SlotOrderSplits(cands, n);
      assert SlotOrder(cands[n + 1..]) == [];
    }
  }

  /** Slots rise along the order. */
  ghost predicate Rising(out: seq<Candidate>) { forall i, j :: 0 <= i < j < |out| ==> out[i].slot < out[j].slot }

  /** Ready carriers first, and slots rise within the ready and within the others. */
  ghost predicate ReadyFirst(out: seq<Candidate>, ready: set<CarrierId>) {
    forall i, j :: 0 <= i < j < |out| ==>
      && (out[j].id in ready ==> out[i].id in ready)
      && ((out[i].id in ready <==> out[j].id in ready) ==> out[i].slot < out[j].slot)
  }

  ghost predicate AllOf(part: seq<Candidate>, ready: set<CarrierId>, wanted: bool) {
    forall i :: 0 <= i < |part| ==> ((part[i].id in ready) == wanted)
  }

  ghost predicate Below(part: seq<Candidate>, slot: nat) { forall i :: 0 <= i < |part| ==> part[i].slot < slot }

  /** One part of the split: candidates of one kind, slots rising, and below any slot that all candidates are below. */
  lemma {:induction false} PartRises(cands: seq<Weighted>, ready: set<CarrierId>, wanted: bool, above: nat)
    requires Ascending(cands) && (cands != [] ==> cands[|cands| - 1].slot < above)
    ensures var part := ByReadiness(cands, ready, wanted);
      Rising(part) && AllOf(part, ready, wanted) && Below(part, above)
  {
    if cands != [] {
      var n := |cands| - 1;
      PartRises(cands[..n], ready, wanted, cands[n].slot);
    }
  }

  lemma SplitIsReadyFirst(cands: seq<Weighted>, ready: set<CarrierId>)
    requires Ascending(cands)
    ensures var out := ByReadiness(cands, ready, true) + ByReadiness(cands, ready, false);
      ReadyFirst(out, ready) && SlotPermutation(out, cands)
  {
    PartRises(cands, ready, true, 3);
    PartRises(cands, ready, false, 3);
    ReadinessIsPermutation(cands, ready);
  }

  method OrderOverflow(cands: seq<Weighted>, readyIds: set<CarrierId>) returns (out: seq<Candidate>)
    requires Ascending(cands)
    ensures ReadyFirst(out, readyIds) && SlotPermutation(out, cands)
  {
    var ready, down: seq<Candidate> := [], [];
    for i := 0 to |cands|
      invariant ready == ByReadiness(cands[..i], readyIds, true) && down == ByReadiness(cands[..i], readyIds, false)
    {
      assert cands[..i + 1][..i] == cands[..i];
      if cands[i].id in readyIds { ready := ready + [Strip(cands[i])]; } else { down := down + [Strip(cands[i])]; }
    }
    assert cands[..|cands|] == cands;
    out := ready + down;
    SplitIsReadyFirst(cands, readyIds);
  }

  /** The order of a route's candidates in each mode, given the route's counter after the call. */
  ghost predicate OrderedBy(out: seq<Candidate>, mode: Mode, cands: seq<Weighted>, counter: nat,
                            ready: set<CarrierId>) {
    match mode
    case InOrder => Rising(out)
    case Overflow => ReadyFirst(out, ready)
    case Loadbalance => Balanced(out, cands, counter)
  }

  /** In whatever order, a load-balanced route too tries each of its carriers once, with its own slot. */
  lemma BalancedIsPermutation(out: seq<Candidate>, cands: seq<Weighted>, counter: nat)
    requires Balanced(out, cands, counter)
    ensures SlotPermutation(out, cands)
  {
    if Total(cands) == 0 {
      assert out == SlotOrder(cands);
    } else {
      var i: nat :| Owns(cands, i, counter % Total(cands)) && Leads(out, cands, i);
      LeadsIsPermutation(out, cands, i);
    }
  }

  lemma TailOf(a: seq<Candidate>, ready: set<CarrierId>)
    requires a != [] && ReadyFirst(a, ready)
    ensures a == [a[0]] + a[1..] && multiset(a[1..]) == multiset(a) - multiset{a[0]} && ReadyFirst(a[1..], ready)
  {
    assert a == [a[0]] + a[1..];
  }

  lemma HeadsAgree(a: seq<Candidate>, b: seq<Candidate>, ready: set<CarrierId>)
    requires a != [] && b != [] && ReadyFirst(a, ready) && ReadyFirst(b, ready) && multiset(a) == multiset(b)
    ensures a[0] == b[0]
  {
    assert a[0] in multiset(a) && b[0] in multiset(b);
    var i :| 0 <= i < |b| && b[i] == a[0];
    var j :| 0 <= j < |a| && a[j] == b[0];
  }

  lemma {:induction false} ReadyFirstIsUnique(a: seq<Candidate>, b: seq<Candidate>, ready: set<CarrierId>)
    requires ReadyFirst(a, ready) && ReadyFirst(b, ready) && multiset(a) == multiset(b)
    ensures a == b
    decreases |a|
  {
    assert |a| == |multiset(a)| == |multiset(b)| == |b|;
    if a != [] {
      HeadsAgree(a, b, ready);
      TailOf(a, ready);
      TailOf(b, ready);
      ReadyFirstIsUnique(a[1..], b[1..], ready);
    }
  }

  lemma BalancedIsUnique(a: seq<Candidate>, b: seq<Candidate>, cands: seq<Weighted>, counter: nat)
    requires Balanced(a, cands, counter) && Balanced(b, cands, counter)
    ensures a == b
  {
    if Total(cands) == 0 {
      assert a == SlotOrder(cands) && b == SlotOrder(cands);
    } else {
      var i: nat :| Owns(cands, i, counter % Total(cands)) && Leads(a, cands, i);
      var j: nat :| Owns(cands, j, counter % Total(cands)) && Leads(b, cands, j);
      OwnerIsUnique(cands, i, j, counter % Total(cands));
      LeadsIs(a, cands, i);
      LeadsIs(b, cands, i);
    }
  }

  /** What is said of an order leaves only one: the mode's rule and that it is a permutation of the carriers. */
  lemma OrderIsDetermined(a: seq<Candidate>, b: seq<Candidate>, mode: Mode, cands: seq<Weighted>, counter: nat,
                          ready: set<CarrierId>)
    requires SlotPermutation(a, cands) && OrderedBy(a, mode, cands, counter, ready)
    requires SlotPermutation(b, cands) && OrderedBy(b, mode, cands, counter, ready)
    ensures a == b
  {
    match mode {
      case InOrder => ReadyFirstIsUnique(a, b, {});
      case Overflow => ReadyFirstIsUnique(a, b, ready);
      case Loadbalance => BalancedIsUnique(a, b, cands, counter);
    }
  }

  method OrderCarriers(rr: RouteCounters, route: Route, failoverEnabled: bool, ready: set<CarrierId>)
    returns (out: seq<Candidate>)
    modifies rr
    ensures !failoverEnabled ==> out == [Candidate(route.primary, 0)] && rr.counts == old(rr.counts)
    ensures failoverEnabled ==>
      var cands := Candidates(route);
      && SlotPermutation(out, cands)
      && OrderedBy(out, if |cands| == 1 then InOrder else route.mode, cands, rr.Current(route.entryId), ready)
  {
    if !failoverEnabled { return [Candidate(route.primary, 0)]; }
    var cands := [Weighted(route.primary, 0, route.weights.0)];
    if Present(route.failover1) { cands := cands + [Weighted(route.failover1.value, 1, route.weights.1)]; }
    if Present(route.failover2) { cands := cands + [Weighted(route.failover2.value, 2, route.weights.2)]; }
    assert cands == Candidates(route);
    CandidatesAreTheSlots(route);
    var mode := if |cands| == 1 then InOrder else route.mode;
    match mode {
      case Loadbalance =>
        out := OrderLoadbalance(rr, route.entryId, cands);
        BalancedIsPermutation(out, cands, rr.Current(route.entryId));
      case Overflow => out := OrderOverflow(cands, ready);
      case InOrder => out := SlotOrder(cands);
    }
  }

  // ---- one carrier ----

  datatype Transport = Smpp | Http

  /** What a contacted carrier answers. Quiet failures set no response code. */
  datatype Reply =
    | Quiet(body: string)                                   // not configured, template or headers missing
    | NoResult                                              // SMPP: neither a result nor an error
    | TransportError(error: string)
    // SMPP status or HTTP code other than success; SMPP may hand it over as an error
    | Refused(code: int, body: string, messageId: string, asError: bool)
    | Accepted(code: int, body: string, messageId: string)

  /** Everything the loop reads about one carrier while it handles one message. */
  datatype CarrierEnv = CarrierEnv(
    known: bool, active: bool, eligibility: Verdict,
    sentFrom: string, sentTo: string, numbering: (int, int, int, int),
    transport: Transport, reply: Reply)

  predicate Contacted(e: CarrierEnv) { e.known && e.active && e.eligibility.Eligible? }

  predicate Accepts(e: CarrierEnv) { Contacted(e) && e.reply.Accepted? }

  predicate SkippedByPolicy(e: CarrierEnv) { e.known && e.active && e.eligibility.Skipped? }

  /** Handling this carrier leaves a response code in the record. */
  predicate SetsCode(e: CarrierEnv) {
    !(SkippedByPolicy(e) || (Contacted(e) && (e.reply.Quiet? || e.reply.NoResult?)))
  }

  /** The code and the body a failed turn leaves as the last ones. */
  function FailureOf(last: (Option<int>, string), e: CarrierEnv): (Option<int>, string) {
    if !e.known || !e.active then (Some(503), "carrier not found")
    else
      match e.eligibility
      case CheckFailed(error) => (Some(503), error)
      case Skipped(_) => last
      case Eligible(_) =>
        match e.reply
        case Quiet(body) => (last.0, body)
        case NoResult => last
        case TransportError(error) => (Some(503), error)
        case Refused(code, body, _, _) => (Some(code), body)
        case Accepted(code, body, _) => (Some(code), body)
  }

  /** What is reported of a failed turn: 503 for a carrier that could not be asked, otherwise what it answered. */
  lemma FailureIsReported(last: (Option<int>, string), e: CarrierEnv)
    ensures !e.known || !e.active ==> FailureOf(last, e) == (Some(503), "carrier not found")
    ensures e.known && e.active && e.eligibility.CheckFailed? ==> FailureOf(last, e) == (Some(503), e.eligibility.error)
    ensures e.known && e.active && e.eligibility.Skipped? ==> FailureOf(last, e) == last
    ensures Contacted(e) ==>
      && (e.reply.TransportError? ==> FailureOf(last, e) == (Some(503), e.reply.error))
      && (e.reply.Refused? ==> FailureOf(last, e) == (Some(e.reply.code), e.reply.body))
      && (e.reply.Quiet? ==> FailureOf(last, e) == (last.0, e.reply.body))
      && (e.reply.NoResult? ==> FailureOf(last, e) == last)
  {
  }

  function FailuresOf(order: seq<Candidate>, env: CarrierId -> CarrierEnv, n: nat): (Option<int>, string)
    requires n <= |order|
  {
    if n == 0 then (None, "") else FailureOf(FailuresOf(order, env, n - 1), env(order[n - 1].id))
  }

  class Outcome {
    var carrier: Option<CarrierId>
    var slot: nat
    var statusCode: int
    var carrierMessageId: string
    var lastCode: Option<int>
    var lastBody: string
    var lastBodyText: string
    var skips: seq<CarrierId>
    var numbering: Option<(int, int, int, int)>
    var egress: Option<Transport>
    var dispatchedSender: string
    var dispatchedDestination: string

    constructor ()
      ensures carrier.None? && lastCode.None? && lastBody == "" && skips == [] && egress.None? && numbering.None?
    {
      carrier, slot, statusCode, carrierMessageId := None, 0, 0, "";
      lastCode, lastBody, lastBodyText, skips := None, "", "", [];
      numbering, egress, dispatchedSender, dispatchedDestination := None, None, "", "";
    }

    /** Every field that is billed, stored or answered describes carrier c and its reply, and nothing else. */
    predicate Describes(c: Candidate, e: CarrierEnv)
      reads this
      requires e.reply.Accepted?
    {
      && carrier == Some(c.id) && slot == c.slot
      && statusCode == e.reply.code && carrierMessageId == e.reply.messageId
      && lastCode == Some(e.reply.code) && lastBody == e.reply.body && lastBodyText == e.reply.body
      && numbering == Some(e.numbering) && egress == Some(e.transport)
      && dispatchedSender == e.sentFrom && dispatchedDestination == e.sentTo
    }

    /** trySMPPDispatch and tryHTTPDispatch: what each reply writes into the record. */
    method TryDispatch(e: CarrierEnv) returns (ok: bool)
      modifies this
      ensures ok <==> e.reply.Accepted?
      ensures carrier == old(carrier) && slot == old(slot) && skips == old(skips) && numbering == old(numbering)
      ensures dispatchedSender == old(dispatchedSender) && dispatchedDestination == old(dispatchedDestination)
      ensures ok ==>
        && statusCode == e.reply.code && carrierMessageId == e.reply.messageId && egress == Some(e.transport)
        && lastCode == Some(e.reply.code) && lastBody == e.reply.body && lastBodyText == e.reply.body
      ensures e.reply.Quiet? || e.reply.NoResult? || e.reply.TransportError? ==>
        && lastCode == old(lastCode) && lastBodyText == old(lastBodyText)
        && statusCode == old(statusCode) && carrierMessageId == old(carrierMessageId) && egress == old(egress)
        && lastBody == if e.reply.Quiet? then e.reply.body
                       else if e.reply.TransportError? && e.transport.Smpp? then e.reply.error else old(lastBody)
      ensures e.reply.Refused? ==>
        && lastCode == Some(e.reply.code) && lastBody == e.reply.body && lastBodyText == e.reply.body
        && statusCode == (if e.transport.Smpp? then e.reply.code else old(statusCode))
        && carrierMessageId == (if e.transport.Smpp? then e.reply.messageId else old(carrierMessageId))
        && egress == if e.transport.Smpp? && e.reply.asError then Some(Smpp) else old(egress)
    {
      ok := false;
      match e.reply {
        case Quiet(body) => lastBody := body;
        case NoResult =>
        case TransportError(error) =>
          if e.transport.Smpp? { lastBody := error; }
        case Refused(code, body, messageId, asError) =>
          lastCode, lastBody, lastBodyText := Some(code), body, body;
          if e.transport.Smpp? {
            statusCode, carrierMessageId := code, messageId;
            if asError { egress := Some(Smpp); }
          }
        case Accepted(code, body, messageId) =>
          lastCode, lastBody, lastBodyText := Some(code), body, body;
          statusCode, carrierMessageId, egress := code, messageId, Some(e.transport);
          ok := true;
      }
    }

    /** One turn of the failover loop. */
    method HandleCarrier(c: Candidate, e: CarrierEnv) returns (accepted: bool, contacted: bool)
      requires carrier.None?
      modifies this
      ensures contacted == Contacted(e) && accepted == Accepts(e)
      ensures skips == old(skips) + if SkippedByPolicy(e) then [c.id] else []
      ensures accepted ==> Describes(c, e)
      ensures !accepted ==> carrier.None? && (lastCode, lastBody) == FailureOf((old(lastCode), old(lastBody)), e)
    {
      accepted, contacted := false, false;
      if !e.known || !e.active {
        lastCode, lastBody := Some(503), "carrier not found";
        return;
      }
      match e.eligibility {
        case CheckFailed(error) => lastCode, lastBody := Some(503), error;
        case Skipped(_) => skips := skips + [c.id];
        case Eligible(_) =>
          contacted := true;
          dispatchedSender, dispatchedDestination := e.sentFrom, e.sentTo;
          accepted := TryDispatch(e);
          if accepted {
            carrier, slot, numbering := Some(c.id), c.slot, Some(e.numbering);
          } else if e.reply.TransportError? {
            lastCode, lastBody := Some(503), e.reply.error;
          }
      }
    }
  }

  /** The carriers among the first n of the order that are actually contacted. */
  function Contacts(order: seq<Candidate>, env: CarrierId -> CarrierEnv, n: nat): seq<Candidate>
    requires n <= |order|
  {
    if n == 0 then []
    else Contacts(order, env, n - 1) + if Contacted(env(order[n - 1].id)) then [order[n - 1]] else []
  }

  function Skips(order: seq<Candidate>, env: CarrierId -> CarrierEnv, n: nat): seq<CarrierId>
    requires n <= |order|
  {
    if n == 0 then []
    else Skips(order, env, n - 1) + if SkippedByPolicy(env(order[n - 1].id)) then [order[n - 1].id] else []
  }

  /** Exactly the known, active and eligible carriers are contacted, and exactly those a policy skips are skipped. */
  lemma {:induction false} ContactedExactly(order: seq<Candidate>, env: CarrierId -> CarrierEnv, n: nat, c: Candidate)
    requires n <= |order|
    ensures c in Contacts(order, env, n) <==>
      c in order[..n] && var e := env(c.id); e.known && e.active && e.eligibility.Eligible?
    ensures c in order[..n] ==>
      (c.id in Skips(order, env, n) <==> var e := env(c.id); e.known && e.active && e.eligibility.Skipped?)
  {
    if n > 0 {
      ContactedExactly(order, env, n - 1, c);
      assert order[..n] == order[..n - 1] + [order[n - 1]];
      SkippedOnes(order, env, n - 1, c.id);
    }
  }

  lemma {:induction false} SkippedOnes(order: seq<Candidate>, env: CarrierId -> CarrierEnv, n: nat, id: CarrierId)
    requires n <= |order|
    ensures id in Skips(order, env, n) ==> SkippedByPolicy(env(id))
  {
    if n > 0 { SkippedOnes(order, env, n - 1, id); }
  }

  /** The winner is the first contacted carrier that accepts. */
  lemma WinnerIsFirst(order: seq<Candidate>, env: CarrierId -> CarrierEnv)
    ensures var j := Winner(order, env);
      && (j < |order| ==> order[j] in Contacts(order, env, j + 1) && env(order[j].id).reply.Accepted?)
      && forall i :: 0 <= i < j ==> order[i] in Contacts(order, env, j) ==> !env(order[i].id).reply.Accepted?
  {
    var j := Winner(order, env);
    if j < |order| { ContactedExactly(order, env, j + 1, order[j]); }
    forall i | 0 <= i < j && order[i] in Contacts(order, env, j) ensures !env(order[i].id).reply.Accepted? {
      ContactedExactly(order, env, j, order[i]);
    }
  }

  /** The position of the first acceptance, or the length of the order. */
  function Winner(order: seq<Candidate>, env: CarrierId -> CarrierEnv): (j: nat)
    ensures j <= |order| && (j < |order| ==> Accepts(env(order[j].id)))
    ensures forall i :: 0 <= i < j ==> !Accepts(env(order[i].id))
  {
    if order == [] then 0
    else
      var n := |order| - 1;
      var w := Winner(order[..n], env);
      if w < n || Accepts(env(order[n].id)) then w else n + 1
  }

  lemma WinnerIs(order: seq<Candidate>, env: CarrierId -> CarrierEnv, j: nat)
    requires j < |order| && Accepts(env(order[j].id)) && forall i :: 0 <= i < j ==> !Accepts(env(order[i].id))
    ensures Winner(order, env) == j
  {
  }

  /**
   dispatchWithFailover. The carriers contacted are those of a prefix of the order, the prefix ends
   with the first acceptance, and on success the record describes that carrier alone, whatever the
   failed attempts before it had written.
   */
  method DispatchWithFailover(order: seq<Candidate>, env: CarrierId -> CarrierEnv)
    returns (out: Outcome, ok: bool, tried: seq<Candidate>)
    ensures fresh(out)
    ensures ok <==> Winner(order, env) < |order|
    ensures ok ==>
      var j := Winner(order, env);
      && tried == Contacts(order, env, j + 1) && out.skips == Skips(order, env, j + 1)
      && out.Describes(order[j], env(order[j].id))
    ensures !ok ==>
      tried == Contacts(order, env, |order|) && out.skips == Skips(order, env, |order|) && out.carrier.None?
    ensures !ok ==> (out.lastCode, out.lastBody) == FailuresOf(order, env, |order|)
    ensures !ok ==> (out.lastCode.None? <==> forall i :: 0 <= i < |order| ==> !SetsCode(env(order[i].id)))
  {
    out := new Outcome();
    tried := [];
    for i := 0 to |order|
      invariant fresh(out) && out.carrier.None?
      invariant forall k :: 0 <= k < i ==> !Accepts(env(order[k].id))
      invariant tried == Contacts(order, env, i) && out.skips == Skips(order, env, i)
      invariant (out.lastCode, out.lastBody) == FailuresOf(order, env, i)
      invariant out.lastCode.None? <==> forall k :: 0 <= k < i ==> !SetsCode(env(order[k].id))
    {
      var accepted, contacted := out.HandleCarrier(order[i], env(order[i].id));
      if contacted { tried := tried + [order[i]]; }
      if accepted {
        WinnerIs(order, env, i);
        return out, true, tried;
      }
    }
    ok := false;
  }

  // ---- what follows from it ----

  /**
   Whatever carrier wins, the operator does not lose on it: when every verdict is that of the check
   for this client, who may not be served at a loss, what is billed later is covered by the charge,
   though the billing reads the rates again.
   */
  lemma WinnerIsNotSoldAtALoss(order: seq<Candidate>, env: CarrierId -> CarrierEnv, asked: CarrierId -> Question,
                               billed: CarrierId -> CarrierRates, dst: string, clientRate: int, segments: nat)
    requires Winner(order, env) < |order|
    requires forall id :: IsVerdict(env(id).eligibility, asked(id))
    requires forall id :: !asked(id).allowInLoss && asked(id).destination == dst && asked(id).clientRate == clientRate
    requires forall id :: Protected(asked(id).rates, billed(id), dst)
    ensures CarrierCost(billed(order[Winner(order, env)].id), dst, clientRate) * segments <= clientRate * segments
  {
    var id := order[Winner(order, env)].id;
    assert IsVerdict(env(id).eligibility, asked(id));
    MarginIsNotNegative(asked(id).rates, billed(id), dst, clientRate, segments);
  }

  /** finalizeSendFailed reports "all carriers skipped" when something was skipped and no code is recorded. */
  predicate ReportsAllSkipped(order: seq<Candidate>, env: CarrierId -> CarrierEnv) {
    && (exists i :: 0 <= i < |order| && SkippedByPolicy(env(order[i].id)))
    && (forall i :: 0 <= i < |order| ==> !SetsCode(env(order[i].id)))
  }

  predicate AllSkipped(order: seq<Candidate>, env: CarrierId -> CarrierEnv) {
    order != [] && forall i :: 0 <= i < |order| ==> SkippedByPolicy(env(order[i].id))
  }

  /** A carrier that was contacted but failed without leaving a code. */
  predicate FailsQuietly(e: CarrierEnv) { Contacted(e) && (e.reply.Quiet? || e.reply.NoResult?) }

  /**
   Beside a skipped carrier, the report is right exactly when no contacted carrier failed quietly or
   somebody set a code.
   */
  lemma SkipReportIsExact(order: seq<Candidate>, env: CarrierId -> CarrierEnv)
    requires exists i :: 0 <= i < |order| && SkippedByPolicy(env(order[i].id))
    ensures (ReportsAllSkipped(order, env) <==> AllSkipped(order, env))
       <==> (forall i :: 0 <= i < |order| ==> !FailsQuietly(env(order[i].id)))
            || exists i :: 0 <= i < |order| && SetsCode(env(order[i].id))
  {
  }

  /** A skipped carrier and one without a template: reported as all skipped, though the second was tried. */
  lemma SkipReportCanBeWrong(a: CarrierId, b: CarrierId) returns (env: CarrierId -> CarrierEnv)
    requires a != b
    ensures ReportsAllSkipped([Candidate(a, 0), Candidate(b, 1)], env)
    ensures Contacts([Candidate(a, 0), Candidate(b, 1)], env, 2) == [Candidate(b, 1)]
  {
    var skipped := CarrierEnv(true, true, Skipped("in_loss"), "", "", (0, 0, 0, 0), Http, NoResult);
    var quiet := CarrierEnv(true, true, Eligible(""), "", "", (0, 0, 0, 0), Http, Quiet("carrier template missing"));
    env := (id: CarrierId) => if id == a then skipped else quiet;
    var order := [Candidate(a, 0), Candidate(b, 1)];
    assert SkippedByPolicy(env(order[0].id));
    assert Contacts(order, env, 1) == [];
  }
}
