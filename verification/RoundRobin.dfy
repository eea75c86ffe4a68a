/**
 Weighted round robin over a route's carriers: the per-route counter, the pick, and the exact share
 each carrier gets. The counter is unbounded here; the original's wraps after 2^64 calls.
 */
module RoundRobin {

  type CarrierId = string

  datatype Candidate = Candidate(id: CarrierId, slot: nat)

  datatype Weighted = Weighted(id: CarrierId, slot: nat, weight: int)

  function Share(c: Weighted): nat { if c.weight > 0 then c.weight else 0 }

  function Total(cands: seq<Weighted>): nat {
    if cands == [] then 0 else Total(cands[..|cands| - 1]) + Share(cands[|cands| - 1])
  }

  function Strip(c: Weighted): Candidate { Candidate(c.id, c.slot) }

  function SlotOrder(cands: seq<Weighted>): (out: seq<Candidate>)
    ensures InSlots(out, cands)
  {
    seq(|cands|, i requires 0 <= i < |cands| => Strip(cands[i]))
  }

  /** The candidates as they stand in the route. */
  ghost predicate InSlots(out: seq<Candidate>, cands: seq<Weighted>) {
    |out| == |cands| && forall j :: 0 <= j < |cands| ==> out[j].id == cands[j].id && out[j].slot == cands[j].slot
  }

  /** Candidate i is tried first, and behind it the others as they stand in the route. */
  ghost predicate Leads(out: seq<Candidate>, cands: seq<Weighted>, i: nat) {
    && i < |cands| && |out| == |cands| && out[0] == Candidate(cands[i].id, cands[i].slot)
    && forall j :: 1 <= j < |out| ==>
         var other := cands[if j <= i then j - 1 else j]; out[j].id == other.id && out[j].slot == other.slot
  }

  /** Position pos falls to candidate i: the running totals of the shares bracket it. */
  ghost predicate Owns(cands: seq<Weighted>, i: nat, pos: nat) {
    i < |cands| && Total(cands[..i]) <= pos < Total(cands[..i + 1])
  }

  lemma TotalStep(cands: seq<Weighted>, i: nat)
    requires i < |cands|
    ensures Total(cands[..i + 1]) == Total(cands[..i]) + Share(cands[i])
  {
    assert cands[..i + 1][..i] == cands[..i];
  }

  lemma {:induction false} TotalMonotone(cands: seq<Weighted>, i: nat, j: nat)
    requires i <= j <= |cands|
    ensures Total(cands[..i]) <= Total(cands[..j])
    decreases j - i
  {
    if i < j {
      TotalStep(cands, i);
      TotalMonotone(cands, i + 1, j);
    }
  }

  lemma OwnerIsUnique(cands: seq<Weighted>, i: nat, j: nat, pos: nat)
    requires Owns(cands, i, pos) && Owns(cands, j, pos)
    ensures i == j
  {
    if i < j { TotalMonotone(cands, i + 1, j); }
    if j < i { TotalMonotone(cands, j + 1, i); }
  }

  /** routeRR: one counter per route, incremented before it is read. */
  class RouteCounters {
    var counts: map<string, nat>

    constructor ()
      ensures counts == map[]
    {
      counts := map[];
    }

    function Current(route: string): nat
      reads this
    {
      if route in counts then counts[route] else 0
    }

    method Next(route: string) returns (v: nat)
      modifies this
      ensures v == old(Current(route)) + 1 && counts == old(counts)[route := v]
    {
      v := (if route in counts then counts[route] else 0) + 1;
      counts := counts[route := v];
    }
  }

  /** The weighted walk: consume weights until the position falls inside one. Somebody is always picked. */
  method WalkTo(cands: seq<Weighted>, start: nat) returns (pick: nat)
    requires start < Total(cands)
    ensures Owns(cands, pick, start)
  {
    var pos: int := start;
    pick := 0;
    assert cands[..|cands|] == cands;
    for i := 0 to |cands|
      invariant pos >= 0 && pos + Total(cands[..i]) == start
    {
      TotalStep(cands, i);
      if cands[i].weight > 0 {
        if pos < cands[i].weight { return i; }
        pos := pos - cands[i].weight;
      }
    }
    assert false;
  }

  method Fronted(cands: seq<Weighted>, pick: nat) returns (out: seq<Candidate>)
    requires pick < |cands|
    ensures Leads(out, cands, pick)
  {
    out := [Strip(cands[pick])];
    for j := 0 to |cands|
      invariant |out| == if j <= pick then j + 1 else j
      invariant out[0] == Candidate(cands[pick].id, cands[pick].slot)
      invariant forall k :: 1 <= k < |out| ==>
        var other := cands[if k <= pick then k - 1 else k]; out[k].id == other.id && out[k].slot == other.slot
    {
      if j != pick { out := out + [Strip(cands[j])]; }
    }
  }

  /** What a load-balanced route is tried in when its counter stands at this number. */
  ghost predicate Balanced(out: seq<Candidate>, cands: seq<Weighted>, counter: nat) {
    if Total(cands) == 0 then InSlots(out, cands)
    else exists i: nat :: Owns(cands, i, counter % Total(cands)) && Leads(out, cands, i)
  }

  /** orderLoadbalance: with no weight the slot order stands and the counter is left alone; otherwise
      the owner of the counter's residue goes first. The original's nobody-picked fallback is unreachable. */
  method OrderLoadbalance(rr: RouteCounters, route: string, cands: seq<Weighted>) returns (out: seq<Candidate>)
    modifies rr
    ensures rr.counts
         == if Total(cands) == 0 then old(rr.counts) else old(rr.counts)[route := old(rr.Current(route)) + 1]
    ensures Balanced(out, cands, rr.Current(route))
  {
    var total := 0;
    for i := 0 to |cands|
      invariant total == Total(cands[..i]) && rr.counts == old(rr.counts)
    {
      TotalStep(cands, i);
      if cands[i].weight > 0 { total := total + cands[i].weight; }
    }
    assert cands[..|cands|] == cands;
    if total == 0 { return SlotOrder(cands); }
    var v := rr.Next(route);
    var pick := WalkTo(cands, v % total);
    out := Fronted(cands, pick);
  }

  // ---- the exact share ----

  function Bit(b: bool): nat { if b then 1 else 0 }

  /** How many of these orders try the candidate first. */
  function Heads(outs: seq<seq<Candidate>>, c: Candidate): nat {
    if outs == [] then 0
    else Heads(outs[..|outs| - 1], c) + Bit(outs[|outs| - 1] != [] && outs[|outs| - 1][0] == c)
  }

  /** The orders that the calls numbered start + 1, start + 2, and so on, return. */
  ghost predicate Calls(outs: seq<seq<Candidate>>, cands: seq<Weighted>, start: nat) {
    forall j :: 0 <= j < |outs| ==> Balanced(outs[j], cands, start + 1 + j)
  }

  ghost predicate DistinctSlots(cands: seq<Weighted>) {
    forall i, j :: 0 <= i < j < |cands| ==> cands[i].slot != cands[j].slot
  }

  /** An order tries candidate i first exactly when i owns the counter's residue. */
  lemma HeadIsOwner(out: seq<Candidate>, cands: seq<Weighted>, counter: nat, i: nat)
    requires Total(cands) > 0 && i < |cands| && DistinctSlots(cands) && Balanced(out, cands, counter)
    ensures out != [] && (out[0] == Candidate(cands[i].id, cands[i].slot) <==> Owns(cands, i, counter % Total(cands)))
  {
    var k: nat :| Owns(cands, k, counter % Total(cands)) && Leads(out, cands, k);
    if Owns(cands, i, counter % Total(cands)) { OwnerIsUnique(cands, i, k, counter % Total(cands)); }
  }

  lemma EarlierCalls(outs: seq<seq<Candidate>>, cands: seq<Weighted>, start: nat, n: nat)
    requires n <= |outs| && Calls(outs, cands, start)
    ensures Calls(outs[..n], cands, start)
  {
  }

  lemma {:induction false} HeadsAreFirsts(outs: seq<seq<Candidate>>, cands: seq<Weighted>, i: nat, start: nat)
    requires Total(cands) > 0 && i < |cands| && DistinctSlots(cands) && Calls(outs, cands, start)
    ensures Heads(outs, Candidate(cands[i].id, cands[i].slot)) == Firsts(cands, i, start, |outs|)
  {
    if outs != [] {
      var n := |outs| - 1;
      EarlierCalls(outs, cands, start, n);
      HeadsAreFirsts(outs[..n], cands, i, start);
      assert Balanced(outs[n], cands, start + 1 + n);
      LastHead(outs[n], cands, start + |outs|, i);
    }
  }

  lemma LastHead(out: seq<Candidate>, cands: seq<Weighted>, counter: nat, i: nat)
    requires Total(cands) > 0 && i < |cands| && DistinctSlots(cands) && Balanced(out, cands, counter)
    ensures Bit(out != [] && out[0] == Candidate(cands[i].id, cands[i].slot)) ==
      Bit(Owns(cands, i, counter % Total(cands)))
  {
    HeadIsOwner(out, cands, counter, i);
  }

  /** How many of the positions of the calls numbered start + 1 .. start + n fall to candidate i. */
  ghost function Firsts(cands: seq<Weighted>, i: nat, start: nat, n: nat): nat
    requires Total(cands) > 0
  {
    if n == 0 then 0
    else Firsts(cands, i, start, n - 1) + Bit(Owns(cands, i, (start + n) % Total(cands)))
  }

  /** Positions below x, over whole turns of w, that fall in [lo, lo + k). */
  function Below(x: nat, w: nat, lo: nat, k: nat): int
    requires w > 0
  {
    var r := x % w;
    (x / w) * k + if r <= lo then 0 else if r <= lo + k then r - lo else k
  }

  lemma DivStep(x: nat, w: nat)
    requires w > 0
    ensures x % w == w - 1 ==> (x + 1) / w == x / w + 1 && (x + 1) % w == 0
    ensures x % w != w - 1 ==> (x + 1) / w == x / w && (x + 1) % w == x % w + 1
  {
    var q, r := x / w, x % w;
    assert x == q * w + r;
    if r == w - 1 {
      assert x + 1 == (q + 1) * w;
      DivUnique(x + 1, w, q + 1, 0);
    } else {
      DivUnique(x + 1, w, q, r + 1);
    }
  }

  lemma DivUnique(x: nat, w: nat, q: nat, r: nat)
    requires w > 0 && x == q * w + r && r < w
    ensures x / w == q && x % w == r
  {
    var d := x / w - q;
    assert d * w == r - x % w;
    assert d >= 1 ==> d * w >= w;
    assert d <= -1 ==> d * w + w <= 0;
  }

  lemma BelowStep(x: nat, w: nat, lo: nat, k: nat)
    requires w > 0 && lo + k <= w
    ensures Below(x + 1, w, lo, k) == Below(x, w, lo, k) + Bit(lo <= x % w < lo + k)
  {
    DivStep(x, w);
    assert (x / w + 1) * k == (x / w) * k + k;
  }

  lemma BelowTurn(x: nat, w: nat, lo: nat, k: nat)
    requires w > 0 && lo + k <= w
    ensures Below(x + w, w, lo, k) == Below(x, w, lo, k) + k
  {
    DivUnique(x + w, w, x / w + 1, x % w);
    assert (x / w + 1) * k == (x / w) * k + k;
  }

  lemma {:induction false} FirstsIsBelow(cands: seq<Weighted>, i: nat, start: nat, n: nat)
    requires Total(cands) > 0 && i < |cands|
    ensures var w, lo, k := Total(cands), Total(cands[..i]), Share(cands[i]);
      && lo + k <= w
      && Firsts(cands, i, start, n) == Below(start + 1 + n, w, lo, k) - Below(start + 1, w, lo, k)
  {
    TotalStep(cands, i);
    TotalMonotone(cands, i + 1, |cands|);
    assert cands[..|cands|] == cands;
    if n > 0 {
      FirstsIsBelow(cands, i, start, n - 1);
      BelowStep(start + n, Total(cands), Total(cands[..i]), Share(cands[i]));
    }
  }

  lemma {:induction false} FirstsSplit(cands: seq<Weighted>, i: nat, start: nat, a: nat, b: nat)
    requires Total(cands) > 0
    ensures Firsts(cands, i, start, a + b) == Firsts(cands, i, start, a) + Firsts(cands, i, start + a, b)
  {
    if b > 0 { FirstsSplit(cands, i, start, a, b - 1); }
  }

  lemma {:induction false} FirstsAtMost(cands: seq<Weighted>, i: nat, start: nat, n: nat)
    requires Total(cands) > 0
    ensures Firsts(cands, i, start, n) <= n
  {
    if n > 0 { FirstsAtMost(cands, i, start, n - 1); }
  }

  /** Any W consecutive calls try candidate i first exactly weight-many times. */
  lemma ExactShareOfATurn(outs: seq<seq<Candidate>>, cands: seq<Weighted>, i: nat, start: nat)
    requires Total(cands) > 0 && i < |cands| && DistinctSlots(cands) && Calls(outs, cands, start)
    requires |outs| == Total(cands)
    ensures Heads(outs, Candidate(cands[i].id, cands[i].slot)) == if cands[i].weight > 0 then cands[i].weight else 0
  {
    HeadsAreFirsts(outs, cands, i, start);
    TurnOfFirsts(cands, i, start);
  }

  lemma TurnOfFirsts(cands: seq<Weighted>, i: nat, start: nat)
    requires Total(cands) > 0 && i < |cands|
    ensures Firsts(cands, i, start, Total(cands)) == Share(cands[i])
  {
    FirstsIsBelow(cands, i, start, Total(cands));
    BelowTurn(start + 1, Total(cands), Total(cands[..i]), Share(cands[i]));
  }

  lemma OneMoreTime(q: nat, x: nat)
    requires q > 0
    ensures q * x == (q - 1) * x + x
  {
  }

  lemma {:induction false} WholeTurns(cands: seq<Weighted>, i: nat, start: nat, q: nat)
    requires Total(cands) > 0 && i < |cands|
    ensures Firsts(cands, i, start, q * Total(cands)) == q * Share(cands[i])
  {
    if q > 0 {
      WholeTurns(cands, i, start, q - 1);
      OneMoreTime(q, Total(cands));
      OneMoreTime(q, Share(cands[i]));
      FirstsSplit(cands, i, start, (q - 1) * Total(cands), Total(cands));
      TurnOfFirsts(cands, i, start + (q - 1) * Total(cands));
    }
  }

  /** Any n consecutive calls try candidate i first floor(n / W) * weight times, plus at most min(weight, n mod W). */
  lemma ShareOfAnyWindow(outs: seq<seq<Candidate>>, cands: seq<Weighted>, i: nat, start: nat)
    requires Total(cands) > 0 && i < |cands| && DistinctSlots(cands) && Calls(outs, cands, start)
    ensures var n, w := |outs|, Total(cands);
      var share := if cands[i].weight > 0 then cands[i].weight else 0;
      var extra := Heads(outs, Candidate(cands[i].id, cands[i].slot)) - (n / w) * share;
      0 <= extra <= share && extra <= n % w
  {
    HeadsAreFirsts(outs, cands, i, start);
    FirstsOfAnyWindow(cands, i, start, |outs|);
  }

  lemma FirstsOfAnyWindow(cands: seq<Weighted>, i: nat, start: nat, n: nat)
    requires Total(cands) > 0 && i < |cands|
    ensures var extra := Firsts(cands, i, start, n) - (n / Total(cands)) * Share(cands[i]);
      0 <= extra <= Share(cands[i]) && extra <= n % Total(cands)
  {
    var w := Total(cands);
    var q, r := n / w, n % w;
    assert n == q * w + r;
    WholeTurns(cands, i, start, q);
    FirstsSplit(cands, i, start, q * w, r);
    var s := start + q * w;
    FirstsAtMost(cands, i, s, r);
    FirstsSplit(cands, i, s, r, w - r);
    TurnOfFirsts(cands, i, s);
  }
}
