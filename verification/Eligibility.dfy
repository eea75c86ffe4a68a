/**
 Whether a carrier may be tried for a message: the sender policy first, then in-loss protection. Also
 the number of segments a message is charged for, on both sides.
 */
module Eligibility {
  import opened Options
  import opened Prefix
  import opened InLoss

  datatype Policy = AnySender | NoSender | NumericSender | E164Sender | ListedSender | UnknownPolicy

  /** What the lookup of the sender in the carrier's list says. */
  datatype Listing = OnList | OffList | ListUnavailable

  datatype Verdict = CheckFailed(error: string) | Skipped(reason: string) | Eligible(sender: string)

  datatype Question = Question(
    policy: Policy,
    sender: string,                   // the resolved sender, trimmed
    useDefault: bool,                 // its source is the carrier's default
    profileDefault: Option<string>,   // trimmed
    tableDefault: Option<string>,
    listing: Listing,
    allowInLoss: bool,
    rates: CarrierRates,
    destination: string,
    clientRate: int)

  predicate AllDigits(s: string) { forall i :: 0 <= i < |s| ==> IsDigit(s[i]) }

  /** One to fifteen digits. */
  predicate IsNumeric(s: string) { 1 <= |s| <= 15 && AllDigits(s) }

  /** A plus, a digit other than zero, six to fourteen more digits. */
  predicate IsE164(s: string) {
    8 <= |s| <= 16 && s[0] == '+' && IsDigit(s[1]) && s[1] != '0' && AllDigits(s[2..])
  }

  predicate Admits(p: Policy, sender: string, listing: Listing) {
    match p
    case AnySender => true
    case NoSender => true
    case NumericSender => IsNumeric(sender)
    case E164Sender => IsE164(sender)
    case ListedSender => listing == OnList
    case UnknownPolicy => false
  }

  predicate Present(s: Option<string>) { s.Some? && s.value != "" }

  /** The sender the carrier will see: its default replaces the resolved one when the default is asked for or forced. */
  function EffectiveSender(q: Question): string {
    if q.useDefault || q.policy == NoSender then
      if Present(q.profileDefault) then q.profileDefault.value
      else if q.tableDefault.Some? then q.tableDefault.value
      else q.sender
    else q.sender
  }

  /** The four outcomes, by what holds of the question. */
  ghost predicate IsVerdict(v: Verdict, q: Question) {
    var failed := q.policy == ListedSender && q.listing == ListUnavailable;
    var admitted := Admits(q.policy, EffectiveSender(q), q.listing);
    var refused := RefusedInLoss(q.allowInLoss, q.rates, q.destination, q.clientRate);
    && (v.CheckFailed? <==> failed)
    && (v == Skipped("sender_id_policy") <==> !failed && !admitted)
    && (v == Skipped("in_loss") <==> admitted && refused)
    && (v.Eligible? <==> admitted && !refused)
    && (v.Eligible? ==> v.sender == EffectiveSender(q))
  }

  /** Whom each policy lets send, in characters. */
  lemma AdmittedSenders(p: Policy, s: string, listing: Listing)
    ensures p == AnySender || p == NoSender ==> Admits(p, s, listing)
    ensures p == UnknownPolicy ==> !Admits(p, s, listing)
    ensures p == ListedSender ==> (Admits(p, s, listing) <==> listing.OnList?)
    ensures p == NumericSender ==>
      (Admits(p, s, listing) <==> 1 <= |s| <= 15 && forall i :: 0 <= i < |s| ==> '0' <= s[i] <= '9')
    ensures p == E164Sender ==>
      (Admits(p, s, listing)
       <==> 8 <= |s| <= 16 && s[0] == '+' && s[1] != '0' && forall i :: 1 <= i < |s| ==> '0' <= s[i] <= '9')
  {
    if p == E164Sender && |s| >= 2 {
      assert AllDigits(s[2..]) <==> forall i :: 2 <= i < |s| ==> IsDigit(s[i]) by {
        assert forall i :: 2 <= i < |s| ==> s[i] == s[2..][i - 2];
      }
    }
  }

  /** checkCarrierEligibility, with the sender the carrier sees and what the rates decide. */
  method CheckCarrierEligibility(q: Question) returns (v: Verdict)
    ensures IsVerdict(v, q)
    ensures v.Eligible? && !q.useDefault && q.policy != NoSender ==> v.sender == q.sender
    ensures v.Eligible? && (q.useDefault || q.policy == NoSender) ==>
      match (q.profileDefault, q.tableDefault)
      case (Some(d), None) => v.sender == if d != "" then d else q.sender
      case (Some(d), Some(e)) => v.sender == if d != "" then d else e
      case (None, Some(e)) => v.sender == e
      case (None, None) => v.sender == q.sender
    ensures q.allowInLoss || !q.rates.Group? ==> v != Skipped("in_loss")
    ensures v == Skipped("in_loss") ==>
      exists e :: IsChoice(q.rates.entries, q.destination, e) && e.value > q.clientRate
    ensures v.Eligible? && !q.allowInLoss && q.rates.Group? && OneRate(q.rates.entries, q.destination) ==>
      forall e :: IsChoice(q.rates.entries, q.destination, e) ==> e.value <= q.clientRate
  {
    if q.rates.Group? {
      ScanIsChoice(q.rates.entries, q.destination);
      ChooseIsChoice(q.rates.entries, q.destination);
    }
    var sender := q.sender;
    if q.useDefault || q.policy == NoSender {
      if Present(q.profileDefault) {
        sender := q.profileDefault.value;
      } else if q.tableDefault.Some? {
        sender := q.tableDefault.value;
      }
    }
    match q.policy {
      case AnySender =>
      case NoSender =>
      case NumericSender => if !IsNumeric(sender) { return Skipped("sender_id_policy"); }
      case E164Sender => if !IsE164(sender) { return Skipped("sender_id_policy"); }
      case ListedSender =>
        if q.listing == OffList { return Skipped("sender_id_policy"); }
        if q.listing == ListUnavailable { return CheckFailed("sender list lookup failed"); }
      case UnknownPolicy => return Skipped("sender_id_policy");
    }
    if !q.allowInLoss && q.rates.Group? {
      var rate := ScanCarrierRate(q.rates.entries, q.destination);
      if rate.Some? && rate.value > q.clientRate { return Skipped("in_loss"); }
    }
    v := Eligible(sender);
  }

  const GSM7_SIZE := 160
  const UCS2_SIZE := 70

  /** SegmentInfo: the least number of flat-sized segments that hold the message, and at least one. */
  method SegmentInfo(message: string, gsm7: set<char>) returns (ucs2: bool, segments: nat)
    ensures ucs2 <==> exists i :: 0 <= i < |message| && message[i] !in gsm7
    ensures var size := if ucs2 then 70 else 160;
      && segments >= 1 && |message| <= segments * size
      && (segments > 1 ==> (segments - 1) * size < |message|)
  {
    var size := GSM7_SIZE;
    ucs2 := false;
    for i := 0 to |message|
      invariant !ucs2 && size == GSM7_SIZE && forall j :: 0 <= j < i ==> message[j] in gsm7
    {
      if message[i] !in gsm7 {
        size, ucs2 := UCS2_SIZE, true;
        break;
      }
    }
    segments := (|message| + size - 1) / size;
    if segments < 1 { segments := 1; }
  }
}
