/**
 The SMPP ingress: the order of the bind checks, and the loop that serves one connection while other
 connections open and close sessions between its reads. One connection's trace is compared with the
 session states of section 2.2 of SMPP v3.4.
 */
module SmppServer {
  import opened Options
  import opened BindThrottle
  import opened Sessions
  import ThrottleRace
  import BindLimit

  datatype BindStatus = ROK | RInvSysID | RBindFail | RThrottled

  /** What the client lookup and the credential checks say about a bind request. */
  datatype Profile = Profile(client: string, active: bool, addressAllowed: bool, passwordOk: bool, maxBinds: int) {
    predicate Admits() { active && addressAllowed && passwordOk }
  }

  datatype Answer = Found(profile: Profile) | UnknownSystem | LookupFailed

  datatype BindRequest = BindRequest(mode: Mode, systemId: string, password: string, key: string, answer: Answer,
                                     now: int)

  /** What the other connections do meanwhile: to the registry, and to the throttle, as they leave it. */
  datatype Meanwhile = Meanwhile(ops: seq<Op>, attempts: Option<Attempts>)

  /** During a bind others act twice: while the client is looked up, and between the count check and the add. */
  datatype Pdu =
    | Bind(req: BindRequest, lookup: Meanwhile, admit: Meanwhile)
    | SubmitSm | EnquireLink | Unbind | DeliverSmResp | Unsupported | NoPdu

  /** What happens next: other connections act, or this one reads a PDU. The end of the inputs is a read error. */
  datatype Input = Others(ops: seq<Op>) | Read(pdu: Pdu)

  datatype ConnEvent =
    | Bound(s: Session)
    | BindRefused(status: BindStatus)
    | Submitted(s: Session)
    | SubmitRefused
    | EnquireAnswered
    | UnbindAnswered
    | ReceiptAcknowledged
    | Nacked
    | Ended(s: Session, unbind: bool)

  datatype World = World(live: seq<Session>, attempts: Attempts)

  /** Before the lookup: a refusal, if there is one already, and the throttle entry. */
  function Screen(e: Option<Attempt>, r: BindRequest): (Option<BindStatus>, Option<Attempt>) {
    if r.systemId == "" || r.password == "" then (Some(RInvSysID), e)
    else if Blocked(e, r.now) then (Some(RBindFail), e)
    else (None, AfterCheck(e, r.now))
  }

  /** After the lookup, at the entry as it stands then, with this many sessions bound. */
  function Settle(e: Option<Attempt>, r: BindRequest, binds: nat): (BindStatus, Option<Attempt>) {
    match r.answer
    case LookupFailed => (RBindFail, e)
    case UnknownSystem => (RBindFail, Some(AfterFailure(e, r.now)))
    case Found(p) =>
      if !p.Admits() then (RBindFail, Some(AfterFailure(e, r.now)))
      else if p.maxBinds > 0 && binds >= p.maxBinds then (RThrottled, e)
      else (ROK, e)
  }

  /** A bind with a wrong credential of any kind: unknown system id, inactive client, address or password. */
  predicate Wrong(r: BindRequest) {
    && r.systemId != "" && r.password != ""
    && (r.answer.UnknownSystem? || (r.answer.Found? && !r.answer.profile.Admits()))
  }

  /**
   A wrong bind is one attempt of ThrottleRace: it passes exactly when the check does and leaves the
   entry the check leaves, and later, at whatever entry it finds, it is refused and marks its failure.
   */
  lemma WrongBindIsAnAttempt(s: ThrottleRace.State, t: ThrottleRace.State, i: nat, r: BindRequest, binds: nat)
    requires Wrong(r) && r.now == s.clock && i < |t.flying| && t.flying[i] == r.now
    ensures var u := ThrottleRace.Apply(s, ThrottleRace.Check);
      && Screen(s.entry, r).1 == u.entry
      && (Screen(s.entry, r).0.None? <==> u.flying == s.flying + [r.now])
      && (Screen(s.entry, r).0.Some? <==> u == s)
    ensures Settle(t.entry, r, binds) == (RBindFail, ThrottleRace.Apply(t, ThrottleRace.Mark(i)).entry)
  {
    assert |s.flying + [r.now]| != |s.flying|;
  }

  /** A right bind passes the count exactly when BindLimit admits it. */
  lemma RightBindIsAdmitted(live: seq<Session>, admitted: seq<Session>, e: Option<Attempt>, r: BindRequest, s: Session)
    requires r.answer.Found? && r.answer.profile.Admits() && r.answer.profile.maxBinds > 0
    requires s.client == r.answer.profile.client && s !in live && s !in admitted
    ensures var p := r.answer.profile;
      Settle(e, r, CountOf(live, p.client)).0 == ROK
      <==> BindLimit.Enabled(BindLimit.Limit(p.client, p.maxBinds), BindLimit.State(live, admitted), BindLimit.Admit(s))
  {
  }

  class Server {
    const registry: SessionRegistry
    const throttle: Throttle

    constructor ()
      ensures fresh(registry) && fresh(throttle) && registry.Valid()
      ensures registry.live == [] && throttle.attempts == map[]
    {
      registry := new SessionRegistry();
      throttle := new Throttle();
    }

    ghost function View(): World
      reads registry, throttle
    {
      World(registry.live, throttle.attempts)
    }

    /** Up to the lookup. */
    method BeginBind(r: BindRequest) returns (refused: Option<BindStatus>)
      modifies throttle
      ensures var (st, e) := Screen(Lookup(old(throttle.attempts), r.key), r);
        refused == st && throttle.attempts == Store(old(throttle.attempts), r.key, e)
    {
      StoreTwice(throttle.attempts, r.key, None, None);
      if r.systemId == "" || r.password == "" { return Some(RInvSysID); }
      var blocked := throttle.IsBindBlocked(r.key, r.now);
      refused := if blocked then Some(RBindFail) else None;
    }

    /** The credentials and the count. */
    method SettleBind(r: BindRequest) returns (status: BindStatus)
      requires registry.Valid()
      modifies throttle
      ensures var binds := if r.answer.Found? then CountOf(registry.live, r.answer.profile.client) else 0;
        var (st, e) := Settle(Lookup(old(throttle.attempts), r.key), r, binds);
        status == st && throttle.attempts == Store(old(throttle.attempts), r.key, e)
    {
      StoreTwice(throttle.attempts, r.key, None, None);
      match r.answer {
        case LookupFailed => status := RBindFail;
        case UnknownSystem =>
          throttle.MarkBindFailure(r.key, r.now);
          status := RBindFail;
        case Found(p) =>
          if !p.active || !p.addressAllowed || !p.passwordOk {
            throttle.MarkBindFailure(r.key, r.now);
            return RBindFail;
          }
          var binds := registry.BindCount(p.client);
          status := if p.maxBinds > 0 && binds >= p.maxBinds then RThrottled else ROK;
      }
    }

    method AcceptBind(key: string, s: Session)
      requires registry.Valid() && s !in registry.sessions
      modifies registry, throttle
      ensures registry.Valid() && registry.live == old(registry.live) + [s]
      ensures throttle.attempts == Store(old(throttle.attempts), key, None)
    {
      throttle.ClearBindFailures(key);
      registry.Add(s);
    }

    method HandleBind(r: BindRequest, lookup: Meanwhile, admit: Meanwhile, handle: nat)
      returns (sess: Option<Session>, status: BindStatus)
      requires registry.Valid() && NoneOf(registry.live, handle)
      requires OpsNotOurs(lookup.ops, handle) && OpsNotOurs(admit.ops, handle)
      modifies registry, throttle
      ensures registry.Valid() && (sess.None? ==> NoneOf(registry.live, handle))
      ensures (View(), sess, status) == BindStep(old(View()), r, lookup, admit, handle)
      ensures var found := Play(old(registry.live), lookup.ops);
        && (sess.Some? <==> Welcome(r, Lookup(old(throttle.attempts), r.key), found))
        && (sess.Some? ==> status == ROK && Opens(sess.value, r, handle) && r.key !in throttle.attempts)
        && (sess.None? ==> status == Refusal(r, Lookup(old(throttle.attempts), r.key)))
        && registry.live == Play(found, admit.ops) + if sess.Some? then [sess.value] else []
    {
      sess := None;
      BindIsDecided(View(), r, lookup, admit, handle);
      var refused := BeginBind(r);
      PlayKeepsOut(registry.live, lookup.ops, handle);
      Interfere(lookup, handle);
      if refused.Some? { status := refused.value; } else { status := SettleBind(r); }
      PlayKeepsOut(registry.live, admit.ops, handle);
      Interfere(admit, handle);
      if refused.None? && status == ROK && r.answer.Found? {
        var s := Session(handle, r.answer.profile.client, r.mode);
        AcceptBind(r.key, s);
        sess := Some(s);
      }
    }

    method Interfere(m: Meanwhile, handle: nat)
      requires registry.Valid() && OpsNotOurs(m.ops, handle)
      modifies registry, throttle
      ensures registry.Valid() && View() == Meet(old(View()), m)
    {
      PlayOthers(m.ops, handle);
      if m.attempts.Some? { throttle.attempts := m.attempts.value; }
    }

    method PlayOthers(ops: seq<Op>, handle: nat)
      requires registry.Valid() && OpsNotOurs(ops, handle)
      modifies registry
      ensures registry.Valid() && registry.live == Play(old(registry.live), ops)
    {
      for i := 0 to |ops|
        invariant registry.Valid() && registry.live == Play(old(registry.live), ops[..i])
      {
        assert ops[..i + 1][..i] == ops[..i];
        match ops[i] {
          case Opened(s) => if s !in registry.sessions { registry.Add(s); }
          case Closed(s) => var _ := registry.Remove(s);
        }
      }
      assert ops[..|ops|] == ops;
    }

    /** endSession: reports whether the session was still registered. */
    method EndSession(s: Session) returns (logged: bool)
      requires registry.Valid()
      modifies registry
      ensures registry.Valid() && logged == (s in old(registry.live)) && registry.live == Without(old(registry.live), s)
    {
      logged := registry.Remove(s);
    }

    /** One PDU of the loop; `done` when the loop returns. */
    method HandlePdu(pdu: Pdu, sess: Option<Session>, handle: nat)
      returns (next: Option<Session>, events: seq<ConnEvent>, done: bool)
      requires registry.Valid() && (sess.None? ==> NoneOf(registry.live, handle)) && PduNotOurs(pdu, handle)
      modifies registry, throttle
      ensures registry.Valid()
      ensures Served(View(), next, events, done) == PduStep(old(View()), sess, pdu, handle)
      ensures next.None? && !done ==> NoneOf(registry.live, handle)
    {
      next, events, done := sess, [], false;
      if pdu.NoPdu? { return; }
      if sess.None? {
        if !pdu.Bind? { return None, [], true; }
        var status;
        next, status := HandleBind(pdu.req, pdu.lookup, pdu.admit, handle);
        events := [if next.Some? then Bound(next.value) else BindRefused(status)];
        return;
      }
      match pdu {
        case Bind(_, lookup, admit) =>
          Interfere(lookup, handle);
          Interfere(admit, handle);
          events := [BindRefused(RBindFail)];
        case SubmitSm => events := [if sess.value.mode.CanSubmit() then Submitted(sess.value) else SubmitRefused];
        case EnquireLink => events := [EnquireAnswered];
        case Unbind =>
          var _ := EndSession(sess.value);
          next, events, done := None, [UnbindAnswered, Ended(sess.value, true)], true;
        case DeliverSmResp => events := [ReceiptAcknowledged];
        case _ => events := [Nacked];
      }
    }

    /** What happens between two rounds of the loop: others act, or a PDU is read and handled. */
    method Serve(input: Input, sess: Option<Session>, handle: nat)
      returns (next: Option<Session>, events: seq<ConnEvent>, done: bool)
      requires registry.Valid() && (sess.None? ==> NoneOf(registry.live, handle))
      requires InputNotOurs(input, handle)
      modifies registry, throttle
      ensures registry.Valid() && (next.None? && !done ==> NoneOf(registry.live, handle))
      ensures Served(View(), next, events, done) == Step(old(View()), sess, input, handle)
    {
      match input {
        case Others(ops) =>
          if sess.None? { PlayKeepsOut(registry.live, ops, handle); }
          PlayOthers(ops, handle);
          next, events, done := sess, [], false;
        case Read(pdu) => next, events, done := HandlePdu(pdu, sess, handle);
      }
    }

    method HandleConn(handle: nat, inputs: seq<Input>) returns (log: seq<ConnEvent>)
      requires registry.Valid() && NoneOf(registry.live, handle) && NotOurs(inputs, handle)
      modifies registry, throttle
      ensures registry.Valid()
      ensures var t := Conn(old(View()), None, handle, inputs); log == t.log && View() == t.world
      ensures Dialogue(None, handle, inputs, log)
    {
      ConnIsADialogue(View(), None, handle, inputs);
      log := [];
      var sess: Option<Session> := None;
      ghost var total := Conn(View(), None, handle, inputs);
      assert inputs[0..] == inputs;
      for i := 0 to |inputs|
        invariant registry.Valid()
        invariant sess.None? ==> NoneOf(registry.live, handle)
        invariant Remains(total, log, View(), sess, handle, inputs[i..])
      {
        ConnUnrolls(View(), sess, handle, inputs, i);
        var events, done;
        sess, events, done := Serve(inputs[i], sess, handle);
        log := log + events;
        if done { return; }
      }
      if sess.Some? {
        var _ := EndSession(sess.value);
        log := log + [Ended(sess.value, false)];
      }
    }
  }

  /** What is logged so far and what remains to be served make up the whole trace. */
  ghost predicate Remains(total: Trace, log: seq<ConnEvent>, w: World, sess: Option<Session>, handle: nat,
                          inputs: seq<Input>) {
    log + Conn(w, sess, handle, inputs).log == total.log && Conn(w, sess, handle, inputs).world == total.world
  }

  ghost predicate NoneOf(live: seq<Session>, handle: nat) {
    forall s :: s in live ==> s.handle != handle
  }

  /** The session record of this connection is known to no other connection. */
  ghost predicate NotOurs(inputs: seq<Input>, handle: nat) {
    forall i :: 0 <= i < |inputs| ==> InputNotOurs(inputs[i], handle)
  }

  ghost predicate InputNotOurs(input: Input, handle: nat) {
    match input
    case Others(ops) => OpsNotOurs(ops, handle)
    case Read(pdu) => PduNotOurs(pdu, handle)
  }

  ghost predicate PduNotOurs(pdu: Pdu, handle: nat) {
    pdu.Bind? ==> OpsNotOurs(pdu.lookup.ops, handle) && OpsNotOurs(pdu.admit.ops, handle)
  }

  ghost predicate OpsNotOurs(ops: seq<Op>, handle: nat) {
    forall j :: 0 <= j < |ops| ==> ops[j].s.handle != handle
  }

  lemma {:induction false} PlayKeepsOut(live: seq<Session>, ops: seq<Op>, handle: nat)
    requires NoRepeats(live) && NoneOf(live, handle) && OpsNotOurs(ops, handle)
    ensures NoneOf(Play(live, ops), handle)
  {
    if ops != [] {
      var n := |ops| - 1;
      PlayKeepsOut(live, ops[..n], handle);
      PlayKeepsNoRepeats(live, ops[..n]);
      if ops[n].Closed? { WithoutIsExact(Play(live, ops[..n]), ops[n].s); }
    }
  }

  function Meet(w: World, m: Meanwhile): World {
    World(Play(w.live, m.ops), if m.attempts.Some? then m.attempts.value else w.attempts)
  }

  /** A whole bind: its three critical sections, with the others' doings between them. */
  function BindStep(w: World, r: BindRequest, lookup: Meanwhile, admit: Meanwhile,
                    handle: nat): (World, Option<Session>, BindStatus) {
    var (refused, e) := Screen(Lookup(w.attempts, r.key), r);
    var w1 := Meet(w.(attempts := Store(w.attempts, r.key, e)), lookup);
    if refused.Some? then (Meet(w1, admit), None, refused.value)
    else
      var binds := if r.answer.Found? then CountOf(w1.live, r.answer.profile.client) else 0;
      var (status, e1) := Settle(Lookup(w1.attempts, r.key), r, binds);
      var w2 := Meet(w1.(attempts := Store(w1.attempts, r.key, e1)), admit);
      if status == ROK && r.answer.Found? then
        var s := Session(handle, r.answer.profile.client, r.mode);
        (World(w2.live + [s], Store(w2.attempts, r.key, None)), Some(s), ROK)
      else (w2, None, status)
  }

  /** The session a bind request asks for: its own mode, the client found, on this connection. */
  predicate Opens(s: Session, r: BindRequest, handle: nat) {
    r.answer.Found? && s.client == r.answer.profile.client && s.mode == r.mode && s.handle == handle
  }

  /**
   The requests that are accepted: with credentials, from a key that is not blocked, for a client found
   active, with an allowed address and the right password, and with room for another session when it has
   a limit at all.
   */
  predicate Welcome(r: BindRequest, e: Option<Attempt>, live: seq<Session>) {
    && r.systemId != "" && r.password != ""
    && !(e.Some? && e.value.blockedTil.Some? && r.now < e.value.blockedTil.value)
    && r.answer.Found?
    && var p := r.answer.profile;
      p.active && p.addressAllowed && p.passwordOk && (p.maxBinds <= 0 || CountOf(live, p.client) < p.maxBinds)
  }

  /** What the others are told; a right bind that finds no room is throttled. */
  function Refusal(r: BindRequest, e: Option<Attempt>): BindStatus {
    if r.systemId == "" || r.password == "" then RInvSysID
    else if e.Some? && e.value.blockedTil.Some? && r.now < e.value.blockedTil.value then RBindFail
    else if r.answer.Found? && r.answer.profile.active && r.answer.profile.addressAllowed && r.answer.profile.passwordOk
    then RThrottled
    else RBindFail
  }

  lemma BindIsDecided(w: World, r: BindRequest, lookup: Meanwhile, admit: Meanwhile, handle: nat)
    ensures var (w', sess, status) := BindStep(w, r, lookup, admit, handle);
      var e, found := Lookup(w.attempts, r.key), Play(w.live, lookup.ops);
      && (sess.Some? <==> Welcome(r, e, found))
      && (sess.Some? ==> status == ROK && Opens(sess.value, r, handle) && r.key !in w'.attempts)
      && (sess.None? ==> status == Refusal(r, e))
      && w'.live == Play(found, admit.ops) + if sess.Some? then [sess.value] else []
  {
  }

  /**
   What a bind that nobody disturbs does to the throttle: nothing before the lookup but the check, a failure
   recorded for a wrong credential of any kind and for nothing else, and the key forgotten on success.
   */
  lemma UndisturbedThrottle(w: World, r: BindRequest, lookup: Meanwhile, admit: Meanwhile, handle: nat)
    requires lookup.attempts.None? && admit.attempts.None?
    ensures var (w', sess, _) := BindStep(w, r, lookup, admit, handle);
      var e, checked := Lookup(w.attempts, r.key), AfterCheck(Lookup(w.attempts, r.key), r.now);
      var blank := r.systemId == "" || r.password == "";
      w'.attempts ==
        if sess.Some? then w.attempts - {r.key}
        else if blank || Blocked(e, r.now) then w.attempts
        else if Wrong(r) then w.attempts[r.key := AfterFailure(checked, r.now)]
        else Store(w.attempts, r.key, checked)
  {
    StoreTwice(w.attempts, r.key, None, None);
  }

  datatype Served = Served(world: World, sess: Option<Session>, events: seq<ConnEvent>, done: bool)

  ghost function PduStep(w: World, sess: Option<Session>, pdu: Pdu, handle: nat): Served {
    if pdu.NoPdu? then Served(w, sess, [], false)
    else if sess.None? then
      if !pdu.Bind? then Served(w, None, [], true)
      else
        var (w', sess', status) := BindStep(w, pdu.req, pdu.lookup, pdu.admit, handle);
        Served(w', sess', [if sess'.Some? then Bound(sess'.value) else BindRefused(status)], false)
    else
      var s := sess.value;
      match pdu
      case Bind(_, lookup, admit) => Served(Meet(Meet(w, lookup), admit), sess, [BindRefused(RBindFail)], false)
      case SubmitSm => Served(w, sess, [if s.mode.CanSubmit() then Submitted(s) else SubmitRefused], false)
      case EnquireLink => Served(w, sess, [EnquireAnswered], false)
      case Unbind => Served(w.(live := Without(w.live, s)), None, [UnbindAnswered, Ended(s, true)], true)
      case DeliverSmResp => Served(w, sess, [ReceiptAcknowledged], false)
      case _ => Served(w, sess, [Nacked], false)
  }

  ghost function Step(w: World, sess: Option<Session>, input: Input, handle: nat): Served {
    match input
    case Others(ops) => Served(w.(live := Play(w.live, ops)), sess, [], false)
    case Read(pdu) => PduStep(w, sess, pdu, handle)
  }

  /** The trace of one connection, the world it leaves, and how many inputs it consumed. */
  datatype Trace = Trace(log: seq<ConnEvent>, world: World, used: nat)

  ghost function Conn(w: World, sess: Option<Session>, handle: nat, inputs: seq<Input>): Trace
    decreases |inputs|
  {
    if inputs == [] then
      if sess.None? then Trace([], w, 0)
      else Trace([Ended(sess.value, false)], w.(live := Without(w.live, sess.value)), 0)
    else
      var r := Step(w, sess, inputs[0], handle);
      if r.done then Trace(r.events, r.world, 1)
      else
        var t := Conn(r.world, r.sess, handle, inputs[1..]);
        Trace(r.events + t.log, t.world, t.used + 1)
  }

  lemma ConnUnrolls(w: World, sess: Option<Session>, handle: nat, inputs: seq<Input>, i: nat)
    requires i < |inputs|
    ensures var t := Conn(w, sess, handle, inputs[i..]);
      var r := Step(w, sess, inputs[i], handle);
      && (r.done ==> t.log == r.events && t.world == r.world)
      && (!r.done ==> t.log == r.events + Conn(r.world, r.sess, handle, inputs[i + 1..]).log
                      && t.world == Conn(r.world, r.sess, handle, inputs[i + 1..]).world)
  {
    assert inputs[i..][0] == inputs[i] && inputs[i..][1..] == inputs[i + 1..];
  }

  // ---- what is read and what is answered ----

  /** The log answers the inputs: each PDU in turn, by its kind and by the session bound when it is read. */
  ghost predicate Dialogue(sess: Option<Session>, handle: nat, inputs: seq<Input>, log: seq<ConnEvent>)
    decreases |inputs|
  {
    if inputs == [] then log == if sess.None? then [] else [Ended(sess.value, false)]
    else if inputs[0].Others? || inputs[0].pdu.NoPdu? then Dialogue(sess, handle, inputs[1..], log)
    else if sess.None? && !inputs[0].pdu.Bind? then log == []
    else if sess.Some? && inputs[0].pdu.Unbind? then log == [UnbindAnswered, Ended(sess.value, true)]
    else
      && log != []
      && if sess.None? && log[0].Bound? then
           Opens(log[0].s, inputs[0].pdu.req, handle) && Dialogue(Some(log[0].s), handle, inputs[1..], log[1..])
         else Answers(log[0], inputs[0].pdu, sess) && Dialogue(sess, handle, inputs[1..], log[1..])
  }

  /** The answer to one PDU that neither opens nor ends the session. */
  ghost predicate Answers(e: ConnEvent, pdu: Pdu, sess: Option<Session>) {
    match pdu
    case Bind(_, _, _) => e.BindRefused? && e.status != ROK && (sess.Some? ==> e.status == RBindFail)
    case SubmitSm => sess.Some? && e == if sess.value.mode == Rx then SubmitRefused else Submitted(sess.value)
    case EnquireLink => e == EnquireAnswered
    case DeliverSmResp => e == ReceiptAcknowledged
    case Unsupported => e == Nacked
    case _ => false
  }

  lemma {:induction false} ConnIsADialogue(w: World, sess: Option<Session>, handle: nat, inputs: seq<Input>)
    ensures Dialogue(sess, handle, inputs, Conn(w, sess, handle, inputs).log)
    decreases |inputs|
  {
    if inputs != [] {
      var r := Step(w, sess, inputs[0], handle);
      if !r.done {
        var rest := Conn(r.world, r.sess, handle, inputs[1..]).log;
        ConnIsADialogue(r.world, r.sess, handle, inputs[1..]);
        assert r.events == [] ==> r.events + rest == rest;
        assert r.events != [] ==> (r.events + rest)[0] == r.events[0] && (r.events + rest)[1..] == rest;
        if inputs[0].Read? && inputs[0].pdu.Bind? && sess.None? {
          var pdu := inputs[0].pdu;
          BindIsDecided(w, pdu.req, pdu.lookup, pdu.admit, handle);
        }
      }
    }
  }

  /** Every session answers a bind PDU read in this connection, in the mode it asked for. */
  lemma {:induction false} EverySessionWasAskedFor(sess: Option<Session>, handle: nat, inputs: seq<Input>,
                                                   log: seq<ConnEvent>, s: Session)
    requires Dialogue(sess, handle, inputs, log) && Bound(s) in log
    ensures sess.None?
    ensures exists i: nat :: Asked(inputs, handle, s, i)
    decreases |inputs|
  {
    if inputs[0].Others? || inputs[0].pdu.NoPdu? {
      EverySessionWasAskedFor(sess, handle, inputs[1..], log, s);
      AskedLater(inputs, handle, s);
    } else if log[0] == Bound(s) {
      assert Asked(inputs, handle, s, 0);
    } else {
      assert Bound(s) in log[1..];
      EverySessionWasAskedFor(if log[0].Bound? then Some(log[0].s) else sess, handle, inputs[1..], log[1..], s);
      AskedLater(inputs, handle, s);
    }
  }

  /** The i-th input is a bind PDU that asks for session s. */
  predicate Asked(inputs: seq<Input>, handle: nat, s: Session, i: nat) {
    i < |inputs| && inputs[i].Read? && inputs[i].pdu.Bind? && Opens(s, inputs[i].pdu.req, handle)
  }

  lemma AskedLater(inputs: seq<Input>, handle: nat, s: Session)
    requires inputs != [] && exists i: nat :: Asked(inputs[1..], handle, s, i)
    ensures exists i: nat :: Asked(inputs, handle, s, i)
  {
    var i: nat :| Asked(inputs[1..], handle, s, i);
    assert Asked(inputs, handle, s, i + 1);
  }

  /** A receiver never submits: not in its session, and not in a connection whose session is one. */
  lemma {:induction false} ReceiverNeverSubmits(sess: Option<Session>, handle: nat, inputs: seq<Input>,
                                                log: seq<ConnEvent>)
    requires Dialogue(sess, handle, inputs, log)
    requires if sess.Some? then sess.value.mode == Rx else forall s :: Bound(s) in log ==> s.mode == Rx
    ensures Submits(log) == 0
    decreases |inputs|
  {
    if inputs == [] {
      if sess.Some? { assert [Ended(sess.value, false)][1..] == []; }
    } else if inputs[0].Others? || inputs[0].pdu.NoPdu? {
      ReceiverNeverSubmits(sess, handle, inputs[1..], log);
    } else if sess.None? && !inputs[0].pdu.Bind? {
    } else if sess.Some? && inputs[0].pdu.Unbind? {
      var last := [Ended(sess.value, true)];
      assert log[1..] == last && last[1..] == [] && Submits(last) == 0;
    } else if sess.None? && log[0].Bound? {
      assert Bound(log[0].s) in log;
      ReceiverNeverSubmits(Some(log[0].s), handle, inputs[1..], log[1..]);
    } else {
      ReceiverNeverSubmits(sess, handle, inputs[1..], log[1..]);
    }
  }

  // ---- the session states of SMPP v3.4 section 2.2 ----

  datatype State = OPEN | BOUND(s: Session) | UNBINDING(s: Session) | CLOSED

  /** A trace the protocol allows from a state, ending with no session left bound. */
  ghost predicate Legal(st: State, log: seq<ConnEvent>)
    decreases |log|
  {
    if log == [] then st == OPEN || st == CLOSED
    else
      var rest := log[1..];
      match (st, log[0])
      case (OPEN, Bound(s)) => Legal(BOUND(s), rest)
      case (OPEN, BindRefused(_)) => Legal(OPEN, rest)
      case (BOUND(s), BindRefused(status)) => status == RBindFail && Legal(st, rest)
      case (BOUND(s), Submitted(t)) => s == t && (s.mode == Tx || s.mode == Trx) && Legal(st, rest)
      case (BOUND(s), SubmitRefused) => s.mode == Rx && Legal(st, rest)
      case (BOUND(s), EnquireAnswered) => Legal(st, rest)
      case (BOUND(s), ReceiptAcknowledged) => Legal(st, rest)
      case (BOUND(s), Nacked) => Legal(st, rest)
      case (BOUND(s), UnbindAnswered) => Legal(UNBINDING(s), rest)
      case (BOUND(s), Ended(t, unbind)) => s == t && !unbind && Legal(CLOSED, rest)
      case (UNBINDING(s), Ended(t, unbind)) => s == t && unbind && Legal(CLOSED, rest)
      case _ => false
  }

  function StateOf(sess: Option<Session>): State { if sess.None? then OPEN else BOUND(sess.value) }

  /** Every connection's trace is legal, whatever its inputs and whatever the others do. */
  lemma {:induction false} ConnIsLegal(w: World, sess: Option<Session>, handle: nat, inputs: seq<Input>)
    ensures Legal(StateOf(sess), Conn(w, sess, handle, inputs).log)
    decreases |inputs|
  {
    if inputs != [] {
      var r := Step(w, sess, inputs[0], handle);
      if r.done {
        LastStepIsLegal(w, sess, inputs[0], handle);
      } else {
        ConnIsLegal(r.world, r.sess, handle, inputs[1..]);
        StepIsLegal(w, sess, inputs[0], handle, Conn(r.world, r.sess, handle, inputs[1..]).log);
      }
    } else if sess.Some? {
      assert [Ended(sess.value, false)][1..] == [];
    }
  }

  lemma LastStepIsLegal(w: World, sess: Option<Session>, input: Input, handle: nat)
    requires Step(w, sess, input, handle).done
    ensures Legal(StateOf(sess), Step(w, sess, input, handle).events)
  {
    var events := Step(w, sess, input, handle).events;
    assert events != [] ==> events[1..] == [Ended(sess.value, true)] && events[1..][1..] == [];
  }

  lemma StepIsLegal(w: World, sess: Option<Session>, input: Input, handle: nat, rest: seq<ConnEvent>)
    requires !Step(w, sess, input, handle).done && Legal(StateOf(Step(w, sess, input, handle).sess), rest)
    ensures Legal(StateOf(sess), Step(w, sess, input, handle).events + rest)
  {
    var events := Step(w, sess, input, handle).events;
    assert events == [] ==> events + rest == rest;
    assert events != [] ==> (events + rest)[1..] == rest;
  }

  /** The binds and the ends of a trace, in order. */
  function Lifecycle(log: seq<ConnEvent>): seq<ConnEvent> {
    if log == [] then [] else (if log[0].Bound? || log[0].Ended? then [log[0]] else []) + Lifecycle(log[1..])
  }

  lemma {:induction false} LegalPairs(st: State, log: seq<ConnEvent>)
    requires Legal(st, log)
    ensures st == OPEN ==> Lifecycle(log) == [] || exists s, u :: Lifecycle(log) == [Bound(s), Ended(s, u)]
    ensures st.BOUND? ==> exists u :: Lifecycle(log) == [Ended(st.s, u)]
    ensures st.UNBINDING? ==> Lifecycle(log) == [Ended(st.s, true)]
    ensures st == CLOSED ==> log == []
    decreases |log|
  {
    if log != [] {
      var next := match (st, log[0])
        case (OPEN, Bound(s)) => BOUND(s)
        case (BOUND(s), UnbindAnswered) => UNBINDING(s)
        case (_, Ended(_, _)) => CLOSED
        case _ => st;
      LegalPairs(next, log[1..]);
      assert Lifecycle(log) == (if log[0].Bound? || log[0].Ended? then [log[0]] else []) + Lifecycle(log[1..]);
      if st.BOUND? && log[0].Ended? { assert Lifecycle(log) == [Ended(st.s, log[0].unbind)]; }
      if st == OPEN && log[0].Bound? {
        var u :| Lifecycle(log[1..]) == [Ended(log[0].s, u)];
        assert Lifecycle(log) == [Bound(log[0].s), Ended(log[0].s, u)];
      }
    }
  }

  /** One connection makes at most one session, and each accepted bind is followed by exactly one end. */
  lemma BindIsEndedOnce(w: World, handle: nat, inputs: seq<Input>)
    ensures var l := Lifecycle(Conn(w, None, handle, inputs).log);
      l == [] || exists s, u :: l == [Bound(s), Ended(s, u)]
  {
    ConnIsLegal(w, None, handle, inputs);
    LegalPairs(OPEN, Conn(w, None, handle, inputs).log);
  }

  function SubmitPdus(inputs: seq<Input>): nat {
    if inputs == [] then 0 else (if inputs[0] == Read(SubmitSm) then 1 else 0) + SubmitPdus(inputs[1..])
  }

  function Submits(log: seq<ConnEvent>): nat {
    if log == [] then 0 else (if log[0].Submitted? then 1 else 0) + Submits(log[1..])
  }

  lemma StepSubmits(w: World, s: Session, input: Input, handle: nat, rest: seq<ConnEvent>)
    requires s.mode.CanSubmit() && !Step(w, Some(s), input, handle).done
    ensures Step(w, Some(s), input, handle).sess == Some(s)
    ensures Submits(Step(w, Some(s), input, handle).events + rest)
         == Submits(rest) + if input == Read(SubmitSm) then 1 else 0
  {
    var events := Step(w, Some(s), input, handle).events;
    assert events == [] ==> events + rest == rest;
    assert events != [] ==> (events + rest)[1..] == rest;
  }

  lemma LastStepSubmits(w: World, s: Session, input: Input, handle: nat)
    requires Step(w, Some(s), input, handle).done
    ensures input == Read(Unbind) && Submits(Step(w, Some(s), input, handle).events) == 0
  {
    var events := Step(w, Some(s), input, handle).events;
    var last := [Ended(s, true)];
    assert events[1..] == last && last[1..] == [] && Submits(last) == 0;
  }

  lemma SubmitPdusAre(inputs: seq<Input>, n: nat)
    requires inputs != [] && n < |inputs|
    ensures SubmitPdus(inputs[..n + 1]) == SubmitPdus(inputs[1..][..n]) + if inputs[0] == Read(SubmitSm) then 1 else 0
  {
    assert inputs[..n + 1][1..] == inputs[1..][..n];
  }

  /** In a transmit-capable session every submit_sm that is read is submitted, once. */
  lemma {:induction false} EverySubmitIsPassedOn(w: World, s: Session, handle: nat, inputs: seq<Input>)
    requires s.mode.CanSubmit()
    ensures var t := Conn(w, Some(s), handle, inputs);
      t.used <= |inputs| && Submits(t.log) == SubmitPdus(inputs[..t.used])
    decreases |inputs|
  {
    if inputs == [] {
      assert [Ended(s, false)][1..] == [];
    } else {
      var r := Step(w, Some(s), inputs[0], handle);
      if r.done {
        LastStepSubmits(w, s, inputs[0], handle);
        SubmitPdusAre(inputs, 0);
      } else {
        var t := Conn(r.world, r.sess, handle, inputs[1..]);
        StepSubmits(w, s, inputs[0], handle, t.log);
        EverySubmitIsPassedOn(r.world, s, handle, inputs[1..]);
        SubmitPdusAre(inputs, t.used);
      }
    }
  }

  // ---- one connection leaves no trace in the registry ----

  function OthersPlayed(live: seq<Session>, inputs: seq<Input>): seq<Session>
    decreases |inputs|
  {
    if inputs == [] then live
    else OthersPlayed(OthersDuring(live, inputs[0]), inputs[1..])
  }

  function OthersDuring(live: seq<Session>, input: Input): seq<Session> {
    match input
    case Others(ops) => Play(live, ops)
    case Read(Bind(_, lookup, admit)) => Play(Play(live, lookup.ops), admit.ops)
    case Read(_) => live
  }

  function Gone(live: seq<Session>, sess: Option<Session>): seq<Session> {
    if sess.None? then live else Without(live, sess.value)
  }

  lemma {:induction false} WithoutCommutes(live: seq<Session>, s: Session, x: Session)
    ensures Without(Without(live, x), s) == Without(Without(live, s), x)
  {
    if live != [] {
      var front, y := live[..|live| - 1], live[|live| - 1];
      WithoutCommutes(front, s, x);
      var a, b := Without(front, x), Without(front, s);
      assert (a + [y])[..|a|] == a && (b + [y])[..|b|] == b;
    }
  }

  lemma {:induction false} PlayWithout(live: seq<Session>, ops: seq<Op>, s: Session)
    requires NoRepeats(live) && OpsNotOurs(ops, s.handle)
    ensures Without(Play(live, ops), s) == Play(Without(live, s), ops)
  {
    if ops != [] {
      var n := |ops| - 1;
      var before := Play(live, ops[..n]);
      PlayWithout(live, ops[..n], s);
      PlayKeepsNoRepeats(live, ops[..n]);
      match ops[n] {
        case Opened(x) =>
          WithoutIsExact(before, s);
          assert (before + [x])[..|before|] == before;
        case Closed(x) => WithoutCommutes(before, s, x);
      }
    }
  }

  ghost predicate Holds(live: seq<Session>, sess: Option<Session>, handle: nat) {
    NoRepeats(live) && if sess.None? then NoneOf(live, handle) else sess.value.handle == handle
  }

  lemma OthersLeave(w: World, sess: Option<Session>, ops: seq<Op>, handle: nat)
    requires Holds(w.live, sess, handle) && OpsNotOurs(ops, handle)
    ensures Holds(Play(w.live, ops), sess, handle) && Gone(Play(w.live, ops), sess) == Play(Gone(w.live, sess), ops)
  {
    PlayKeepsNoRepeats(w.live, ops);
    if sess.None? { PlayKeepsOut(w.live, ops, handle); } else { PlayWithout(w.live, ops, sess.value); }
  }

  lemma BindLeaves(w: World, pdu: Pdu, handle: nat)
    requires pdu.Bind? && PduNotOurs(pdu, handle) && Holds(w.live, None, handle)
    ensures var t := BindStep(w, pdu.req, pdu.lookup, pdu.admit, handle);
      Holds(t.0.live, t.1, handle) && Gone(t.0.live, t.1) == OthersDuring(w.live, Read(pdu))
  {
    var (w', sess, _) := BindStep(w, pdu.req, pdu.lookup, pdu.admit, handle);
    var met := OthersDuring(w.live, Read(pdu));
    OthersLeave(w, None, pdu.lookup.ops, handle);
    OthersLeave(w.(live := Play(w.live, pdu.lookup.ops)), None, pdu.admit.ops, handle);
    if sess.Some? {
      assert w'.live == met + [sess.value] && sess.value !in met && w'.live[..|met|] == met;
      WithoutIsExact(met, sess.value);
    }
  }

  lemma PduLeaves(w: World, sess: Option<Session>, pdu: Pdu, handle: nat)
    requires Holds(w.live, sess, handle) && PduNotOurs(pdu, handle)
    ensures var r := PduStep(w, sess, pdu, handle);
      (!r.done ==> Holds(r.world.live, r.sess, handle))
        && Gone(r.world.live, r.sess) == OthersDuring(Gone(w.live, sess), Read(pdu))
  {
    if pdu.Bind? {
      if sess.None? {
        BindLeaves(w, pdu, handle);
      } else {
        OthersLeave(w, sess, pdu.lookup.ops, handle);
        OthersLeave(Meet(w, pdu.lookup), sess, pdu.admit.ops, handle);
      }
    }
  }

  /** When a connection is over the registry holds what the other connections alone would have left. */
  lemma {:induction false} ConnLeavesNoTrace(w: World, sess: Option<Session>, handle: nat, inputs: seq<Input>)
    requires Holds(w.live, sess, handle) && NotOurs(inputs, handle)
    ensures var t := Conn(w, sess, handle, inputs);
      t.used <= |inputs| && t.world.live == OthersPlayed(Gone(w.live, sess), inputs[..t.used])
    decreases |inputs|
  {
    if inputs != [] {
      var r := Step(w, sess, inputs[0], handle);
      match inputs[0] {
        case Others(ops) => OthersLeave(w, sess, ops, handle);
        case Read(pdu) => PduLeaves(w, sess, pdu, handle);
      }
      if !r.done {
        ConnLeavesNoTrace(r.world, r.sess, handle, inputs[1..]);
        var n := Conn(r.world, r.sess, handle, inputs[1..]).used;
        assert inputs[..n + 1][1..] == inputs[1..][..n] && inputs[..n + 1][0] == inputs[0];
      } else {
        assert inputs[..1][1..] == [] && inputs[..1][0] == inputs[0];
      }
    }
  }
}
