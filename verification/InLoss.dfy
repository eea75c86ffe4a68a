/**
 In-loss protection against the later billing. The eligibility check and the billing each query the
 carrier's rates, without an order, and each has its own loop. The check protects exactly when the
 rows that may answer for the destination all have one rate.
 */
module InLoss {
  import opened Options
  import opened Prefix

  /** One snapshot of a carrier's rates: no rate group, a group that cannot be read, or its active rows. */
  datatype CarrierRates = NoGroup | Unreadable | Group(entries: seq<Entry<int>>)

  function ScanResult(es: seq<Entry<int>>, dst: string): Option<int> {
    var b, l := BestMatch(es, dst), LastCatchAll(es);
    if b.Some? then Some(es[b.value].value) else if l.Some? then Some(es[l.value].value) else None
  }

  /**
   The scan of CheckCarrierEligibility: a catch-all counts until a prefix has matched, later ones
   replacing earlier.
   */
  method ScanCarrierRate(es: seq<Entry<int>>, prefix: string) returns (rate: Option<int>)
    ensures rate == ScanResult(es, prefix)
  {
    rate := None;
    var bestLen := -1;
    for i := 0 to |es|
      invariant rate == ScanResult(es[..i], prefix)
      invariant var b := BestMatch(es[..i], prefix); bestLen == if b.Some? then |es[b.value].prefix| else -1
    {
      assert es[..i + 1][..i] == es[..i];
      if es[i].prefix == "*" {
        if bestLen < 0 { rate := Some(es[i].value); }
      } else if StartsWith(prefix, es[i].prefix) && |es[i].prefix| > bestLen {
        bestLen := |es[i].prefix|;
        rate := Some(es[i].value);
      }
    }
    assert es[..|es|] == es;
  }

  /** The check itself; a group that cannot be read does not make the carrier ineligible. */
  predicate RefusedInLoss(allowInLoss: bool, rates: CarrierRates, dst: string, clientRate: int) {
    !allowInLoss && rates.Group? && ScanResult(rates.entries, dst).Some?
      && ScanResult(rates.entries, dst).value > clientRate
  }

  /** LookupCarrierCost: the client's own rate when the carrier has none for this destination. */
  function CarrierCost(rates: CarrierRates, dst: string, fallback: int): int {
    match rates
    case NoGroup => fallback
    case Unreadable => fallback
    case Group(es) => if Choose(es, dst).Some? then Choose(es, dst).value.value else fallback
  }

  /** The cost per segment is the rate of a row that may answer, or the client's own rate when none may. */
  lemma CostIsExact(rates: CarrierRates, dst: string, clientRate: int)
    ensures rates.Group? && (exists e :: IsChoice(rates.entries, dst, e)) ==>
      exists e :: IsChoice(rates.entries, dst, e) && CarrierCost(rates, dst, clientRate) == e.value
    ensures !(rates.Group? && exists e :: IsChoice(rates.entries, dst, e)) ==>
      CarrierCost(rates, dst, clientRate) == clientRate
  {
    if rates.Group? { ChooseIsChoice(rates.entries, dst); }
  }

  /** Every row that may answer for this destination has the same rate. */
  ghost predicate OneRate(es: seq<Entry<int>>, dst: string) {
    forall a, b :: IsChoice(es, dst, a) && IsChoice(es, dst, b) ==> a.value == b.value
  }

  lemma DistinctPrefixesHaveOneRate(es: seq<Entry<int>>, dst: string)
    requires DistinctPrefixes(es)
    ensures OneRate(es, dst)
  {
    DistinctPrefixesLeaveOneChoice(es, dst);
  }

  /** The scan answers with the rate of a possible choice, or not at all exactly when there is none. */
  lemma ScanIsChoice(es: seq<Entry<int>>, dst: string)
    ensures ScanResult(es, dst).Some? ==> exists e :: IsChoice(es, dst, e) && e.value == ScanResult(es, dst).value
    ensures ScanResult(es, dst).None? <==> Choose(es, dst).None?
  {
    var b, l := BestMatch(es, dst), LastCatchAll(es);
    if b.Some? {
      assert IsChoice(es, dst, es[b.value]);
    } else if l.Some? {
      assert IsChoice(es, dst, es[l.value]);
    }
  }

  /** Any possible choice is what the scan takes in some order of the rows. */
  lemma EveryChoiceIsScanned(es: seq<Entry<int>>, dst: string, a: Entry<int>) returns (fs: seq<Entry<int>>)
    requires IsChoice(es, dst, a)
    ensures multiset(fs) == multiset(es) && ScanResult(fs, dst) == Some(a.value)
  {
    if Matches(a, dst) {
      fs := EveryChoiceIsChosen(es, dst, a);
      ReorderedRows(es, fs);
      ChooseIsChoice(fs, dst);
    } else {
      var i :| 0 <= i < |es| && es[i] == a;
      var rest := es[..i] + es[i + 1..];
      fs := rest + [a];
      assert es == es[..i] + [a] + es[i + 1..];
      assert forall x :: x in fs ==> x in es;
      assert BestMatch(fs, dst).None? && fs[|fs| - 1] == a;
    }
  }

  /**
   Two reads of one group's rows, in whatever order, for which a carrier passes the check but costs more
   than the client pays.
   */
  predicate Loses(scan: seq<Entry<int>>, bill: seq<Entry<int>>, dst: string, clientRate: int) {
    !RefusedInLoss(false, Group(scan), dst, clientRate) && CarrierCost(Group(bill), dst, clientRate) > clientRate
  }

  lemma NoLossWithOneRate(scan: seq<Entry<int>>, bill: seq<Entry<int>>, dst: string, clientRate: int)
    requires multiset(scan) == multiset(bill) && OneRate(scan, dst)
    ensures !Loses(scan, bill, dst, clientRate)
  {
    ReorderedRows(scan, bill);
    ScanIsChoice(scan, dst);
    ChooseIsChoice(bill, dst);
    ChooseIsChoice(scan, dst);
    if Choose(bill, dst).Some? { assert IsChoice(scan, dst, Choose(bill, dst).value); }
  }

  /**
   The protection holds for every client rate and every order in which the two queries return the
   rows exactly when the rows that may answer have one rate.
   */
  lemma ProtectionIsExact(es: seq<Entry<int>>, dst: string)
    ensures (forall scan, bill, rate :: multiset(scan) == multiset(es) && multiset(bill) == multiset(es) ==>
               !Loses(scan, bill, dst, rate))
       <==> OneRate(es, dst)
  {
    if OneRate(es, dst) {
      forall scan, bill, rate | multiset(scan) == multiset(es) && multiset(bill) == multiset(es)
        ensures !Loses(scan, bill, dst, rate)
      {
        ReorderedRows(es, scan);
        assert forall e :: IsChoice(scan, dst, e) ==> IsChoice(es, dst, e);
        NoLossWithOneRate(scan, bill, dst, rate);
      }
    } else {
      var a, b :| IsChoice(es, dst, a) && IsChoice(es, dst, b) && a.value < b.value;
      var scan := EveryChoiceIsScanned(es, dst, a);
      var bill := EveryChoiceIsChosen(es, dst, b);
      assert Loses(scan, bill, dst, a.value);
    }
  }

  /** A check that could not read the rates protects exactly when the billing finds none either. */
  lemma UnreadableIsSafeExactly(bill: CarrierRates, dst: string)
    ensures (forall rate :: !RefusedInLoss(false, Unreadable, dst, rate) ==> CarrierCost(bill, dst, rate) <= rate)
       <==> (bill.Group? ==> Choose(bill.entries, dst).None?)
  {
    if bill.Group? && Choose(bill.entries, dst).Some? {
      var rate := Choose(bill.entries, dst).value.value - 1;
      assert !RefusedInLoss(false, Unreadable, dst, rate) && CarrierCost(bill, dst, rate) > rate;
    }
  }

  /** The reads of the check and of the billing: one group, the rows having one rate, or nothing to bill from. */
  ghost predicate Protected(scan: CarrierRates, bill: CarrierRates, dst: string) {
    bill.Group? && Choose(bill.entries, dst).Some? ==>
      scan.Group? && multiset(scan.entries) == multiset(bill.entries) && OneRate(scan.entries, dst)
  }

  /** What the carrier is billed for a message never exceeds what the client was charged for it. */
  lemma MarginIsNotNegative(scan: CarrierRates, bill: CarrierRates, dst: string, clientRate: int, segments: nat)
    requires Protected(scan, bill, dst) && !RefusedInLoss(false, scan, dst, clientRate)
    ensures CarrierCost(bill, dst, clientRate) * segments <= clientRate * segments
  {
    if bill.Group? && Choose(bill.entries, dst).Some? {
      NoLossWithOneRate(scan.entries, bill.entries, dst, clientRate);
    }
  }

  /** Two catch-all rows, even read in one order: the check takes the last, the billing the first. */
  lemma TwoCatchAllsCanLose(cheap: int, dear: int)
    requires cheap < dear
    ensures var es := [Entry("*", dear), Entry("*", cheap)]; Loses(es, es, "447", cheap)
  {
    var es := [Entry("*", dear), Entry("*", cheap)];
    assert es[..1] == [Entry("*", dear)] && es[..1][..0] == [];
    assert BestMatch(es[..1], "447").None?;
    assert FirstCatchAll(es[..1]) == Some(0);
  }

  /** A repeated prefix and no catch-all: the two queries return its rows in different orders. */
  lemma RepeatedPrefixCanLose(p: string, dst: string, cheap: int, dear: int)
    requires p != "*" && StartsWith(dst, p) && cheap < dear
    ensures Loses([Entry(p, cheap), Entry(p, dear)], [Entry(p, dear), Entry(p, cheap)], dst, cheap)
  {
    LongestAtFrontWins(Entry(p, cheap), [Entry(p, dear)], dst);
    LongestAtFrontWins(Entry(p, dear), [Entry(p, cheap)], dst);
    assert [Entry(p, cheap), Entry(p, dear)] == [Entry(p, cheap)] + [Entry(p, dear)];
    assert [Entry(p, dear), Entry(p, cheap)] == [Entry(p, dear)] + [Entry(p, cheap)];
  }
}
