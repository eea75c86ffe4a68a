/**
 Longest-prefix choice. The rate, route, cache and simulator lookups run one loop; the route matcher
 filters by status first; the in-loss scan keeps a single value instead of two pointers. All are tied
 to one function, and that function to an order-free description.
 */
module Prefix {
  import opened Options

  datatype Entry<V> = Entry(prefix: string, value: V)

  predicate IsDigit(c: char) { '0' <= c <= '9' }

  function Digits(s: string): string {
    if s == "" then "" else Digits(s[..|s| - 1]) + if IsDigit(s[|s| - 1]) then [s[|s| - 1]] else ""
  }

  predicate IsCatchAll<V>(e: Entry<V>) { e.prefix == "*" }

  predicate StartsWith(dst: string, p: string) { |p| <= |dst| && dst[..|p|] == p }

  predicate Matches<V>(e: Entry<V>, dst: string) { !IsCatchAll(e) && StartsWith(dst, e.prefix) }

  /** Index of the first longest matching entry. */
  function BestMatch<V>(es: seq<Entry<V>>, dst: string): (r: Option<nat>)
    ensures r.Some? ==> r.value < |es| && Matches(es[r.value], dst)
    ensures r.Some? ==> forall i :: 0 <= i < |es| && Matches(es[i], dst) ==> |es[i].prefix| <= |es[r.value].prefix|
    ensures r.None? ==> forall i :: 0 <= i < |es| ==> !Matches(es[i], dst)
  {
    if es == [] then None
    else
      var n := |es| - 1;
      var b := BestMatch(es[..n], dst);
      if Matches(es[n], dst) && (b.None? || |es[n].prefix| > |es[b.value].prefix|) then Some(n) else b
  }

  function FirstCatchAll<V>(es: seq<Entry<V>>): (r: Option<nat>)
    ensures r.Some? ==> r.value < |es| && IsCatchAll(es[r.value]) && forall i :: 0 <= i < r.value ==> !IsCatchAll(es[i])
    ensures r.None? ==> forall i :: 0 <= i < |es| ==> !IsCatchAll(es[i])
  {
    if es == [] then None
    else
      var n := |es| - 1;
      var f := FirstCatchAll(es[..n]);
      if f.None? && IsCatchAll(es[n]) then Some(n) else f
  }

  function LastCatchAll<V>(es: seq<Entry<V>>): (r: Option<nat>)
    ensures r.Some? ==>
      r.value < |es| && IsCatchAll(es[r.value]) && forall i :: r.value < i < |es| ==> !IsCatchAll(es[i])
    ensures r.None? ==> forall i :: 0 <= i < |es| ==> !IsCatchAll(es[i])
  {
    if es == [] then None
    else if IsCatchAll(es[|es| - 1]) then Some(|es| - 1)
    else LastCatchAll(es[..|es| - 1])
  }

  /** The entry a lookup for a normalized destination returns. */
  function Choose<V>(es: seq<Entry<V>>, dst: string): Option<Entry<V>> {
    var b, f := BestMatch(es, dst), FirstCatchAll(es);
    if b.Some? then Some(es[b.value]) else if f.Some? then Some(es[f.value]) else None
  }

  // ---- the loops ----

  predicate IsSpace(c: char) { c == ' ' || c == '\t' || c == '\n' || c == '\r' }

  /** normalizeDestination and its two copies: trim, drop one leading plus, keep the digits. */
  method NormalizeDestination(destination: string) returns (digits: string)
    ensures digits == Digits(destination)
  {
    var lo, hi := 0, |destination|;
    while lo < hi && IsSpace(destination[lo])
      invariant lo <= hi == |destination| && Digits(destination[..lo]) == ""
    {
      lo := lo + 1;
      DigitsOfMore(destination, lo);
    }
    assert destination[..hi] == destination;
    while lo < hi && IsSpace(destination[hi - 1])
      invariant lo <= hi <= |destination| && Digits(destination[..hi]) == Digits(destination)
    {
      DigitsOfMore(destination, hi);
      hi := hi - 1;
    }
    if lo < hi && destination[lo] == '+' {
      lo := lo + 1;
      DigitsOfMore(destination, lo);
    }
    digits := "";
    for i := lo to hi
      invariant digits == Digits(destination[..i])
    {
      DigitsOfMore(destination, i + 1);
      if '0' <= destination[i] <= '9' { digits := digits + [destination[i]]; }
    }
    assert destination[..|destination|] == destination;
  }

  /** The digits of a text are those of its parts, and a single character counts exactly when it is 0 to 9. */
  lemma {:induction false} DigitsAreKept(a: string, b: string, c: char)
    ensures Digits(a + b) == Digits(a) + Digits(b)
    ensures Digits([c]) == if '0' <= c <= '9' then [c] else []
    decreases |b|
  {
    if b == "" {
      assert a + b == a;
    } else {
      var n := |b| - 1;
      assert (a + b)[..|a + b| - 1] == a + b[..n];
      DigitsAreKept(a, b[..n], c);
    }
    assert [c][..0] == "";
  }

  lemma DigitsOfMore(s: string, i: nat)
    requires 0 < i <= |s|
    ensures Digits(s[..i]) == Digits(s[..i - 1]) + if IsDigit(s[i - 1]) then [s[i - 1]] else ""
    ensures Digits(s[..|s|]) == Digits(s)
  {
    assert s[..i][..i - 1] == s[..i - 1];
    assert s[..|s|] == s;
  }

  lemma LastStep<V>(es: seq<Entry<V>>, i: nat, dst: string)
    requires i < |es|
    ensures BestMatch(es[..i + 1], dst) ==
      var b := BestMatch(es[..i], dst);
      if Matches(es[i], dst) && (b.None? || |es[i].prefix| > |es[b.value].prefix|) then Some(i) else b
    ensures FirstCatchAll(es[..i + 1]) ==
      if FirstCatchAll(es[..i]).None? && IsCatchAll(es[i]) then Some(i) else FirstCatchAll(es[..i])
  {
    assert es[..i + 1][..i] == es[..i];
  }

  /** The destination starts with this prefix. */
  predicate Begins(d: string, p: string) { |p| <= |d| && forall i :: 0 <= i < |p| ==> d[i] == p[i] }

  /**
   A lookup's answer among these rows: a row whose prefix the destination starts with and no other such
   row's is longer, else a catch-all, else nothing.
   */
  ghost predicate Answers<V>(best: Option<Entry<V>>, rows: seq<Entry<V>>, d: string) {
    && (best.Some? ==> best.value in rows)
    && (best.Some? && best.value.prefix != "*" ==>
          Begins(d, best.value.prefix)
          && forall e :: e in rows && e.prefix != "*" && Begins(d, e.prefix) ==> |e.prefix| <= |best.value.prefix|)
    && (best.None? || best.value.prefix == "*" ==> forall e :: e in rows && e.prefix != "*" ==> !Begins(d, e.prefix))
    && (best.None? ==> forall e :: e in rows ==> e.prefix != "*")
  }

  lemma ChooseAnswers<V>(es: seq<Entry<V>>, d: string)
    ensures Answers(Choose(es, d), es, d)
  {
    ChooseIsChoice(es, d);
    forall e | e in es ensures StartsWith(d, e.prefix) <==> Begins(d, e.prefix) {}
  }

  /** longestPrefixRate, longestPrefixRoute, longestPrefix and the simulator's copy. */
  method LongestPrefix<V>(es: seq<Entry<V>>, destination: string) returns (best: Option<Entry<V>>)
    ensures best == Choose(es, Digits(destination)) && Answers(best, es, Digits(destination))
  {
    ChooseAnswers(es, Digits(destination));
    var dst := NormalizeDestination(destination);
    var catchAll, found: Option<nat> := None, None;
    var bestLen := -1;
    for i := 0 to |es|
      invariant found == BestMatch(es[..i], dst) && catchAll == FirstCatchAll(es[..i])
      invariant bestLen == if found.Some? then |es[found.value].prefix| else -1
    {
      LastStep(es, i, dst);
      if es[i].prefix == "*" {
        if catchAll.None? { catchAll := Some(i); }
      } else if StartsWith(dst, es[i].prefix) && |es[i].prefix| > bestLen {
        found := Some(i);
        bestLen := |es[i].prefix|;
      }
    }
    assert es[..|es|] == es;
    if found.Some? { return Some(es[found.value]); }
    best := if catchAll.Some? then Some(es[catchAll.value]) else None;
  }

  datatype Listed<V> = Listed(entry: Entry<V>, active: bool)

  function Active<V>(ls: seq<Listed<V>>): seq<Entry<V>> {
    if ls == [] then []
    else Active(ls[..|ls| - 1]) + if ls[|ls| - 1].active then [ls[|ls| - 1].entry] else []
  }

  /** The rows of active listings, and no others. */
  lemma {:induction false} ActiveRows<V>(ls: seq<Listed<V>>, e: Entry<V>)
    ensures e in Active(ls) <==> exists l :: l in ls && l.active && l.entry == e
  {
    if ls != [] {
      var n := |ls| - 1;
      ActiveRows(ls[..n], e);
      assert ls == ls[..n] + [ls[n]];
      assert ls[n] in ls;
    }
  }

  function BestEntry<V>(es: seq<Entry<V>>, dst: string): Option<Entry<V>> {
    var b := BestMatch(es, dst);
    if b.Some? then Some(es[b.value]) else None
  }

  function CatchAllEntry<V>(es: seq<Entry<V>>): Option<Entry<V>> {
    var f := FirstCatchAll(es);
    if f.Some? then Some(es[f.value]) else None
  }

  lemma OneMore<V>(es: seq<Entry<V>>, e: Entry<V>, dst: string)
    ensures var b := BestEntry(es, dst);
      BestEntry(es + [e], dst) == if Matches(e, dst) && (b.None? || |e.prefix| > |b.value.prefix|) then Some(e) else b
    ensures var c := CatchAllEntry(es);
      CatchAllEntry(es + [e]) == if c.None? && IsCatchAll(e) then Some(e) else c
  {
    assert (es + [e])[..|es|] == es;
  }

  /** LongestPrefixMatch skips inactive entries inside the loop: the same as choosing among the active ones. */
  method LongestPrefixMatch<V>(ls: seq<Listed<V>>, destination: string) returns (best: Option<Entry<V>>)
    ensures best == Choose(Active(ls), Digits(destination))
    ensures Answers(best, Active(ls), Digits(destination))
  {
    ChooseAnswers(Active(ls), Digits(destination));
    var dst := NormalizeDestination(destination);
    var catchAll, found: Option<Entry<V>> := None, None;
    var bestLen := -1;
    for i := 0 to |ls|
      invariant found == BestEntry(Active(ls[..i]), dst) && catchAll == CatchAllEntry(Active(ls[..i]))
      invariant bestLen == if found.Some? then |found.value.prefix| else -1
    {
      assert ls[..i + 1][..i] == ls[..i];
      var e := ls[i].entry;
      OneMore(Active(ls[..i]), e, dst);
      assert Active(ls[..i]) + [] == Active(ls[..i]);
      if ls[i].active {
        if e.prefix == "*" {
          if catchAll.None? { catchAll := Some(e); }
        } else if StartsWith(dst, e.prefix) && |e.prefix| > bestLen {
          found := Some(e);
          bestLen := |e.prefix|;
        }
      }
    }
    assert ls[..|ls|] == ls;
    best := if found.Some? then found else catchAll;
  }

  // ---- what is chosen, without reference to the order of the rows ----

  /** e is a longest match, or the catch-all when nothing matches. */
  ghost predicate IsChoice<V>(es: seq<Entry<V>>, dst: string, e: Entry<V>) {
    && e in es
    && (if Matches(e, dst) then forall x :: x in es && Matches(x, dst) ==> |x.prefix| <= |e.prefix|
        else IsCatchAll(e) && forall x :: x in es ==> !Matches(x, dst))
  }

  lemma ChooseIsChoice<V>(es: seq<Entry<V>>, dst: string)
    ensures Choose(es, dst).Some? ==> IsChoice(es, dst, Choose(es, dst).value)
    ensures Choose(es, dst).None? <==> forall x :: x in es ==> !Matches(x, dst) && !IsCatchAll(x)
  {
  }

  ghost predicate DistinctPrefixes<V>(es: seq<Entry<V>>) {
    forall x, y :: x in es && y in es && x.prefix == y.prefix ==> x == y
  }

  /** Two matches of one length for one destination have the same prefix. */
  lemma ChoiceIsUnique<V>(es: seq<Entry<V>>, dst: string, a: Entry<V>, b: Entry<V>)
    requires DistinctPrefixes(es) && IsChoice(es, dst, a) && IsChoice(es, dst, b)
    ensures a == b
  {
    if Matches(a, dst) {
      assert a.prefix == dst[..|a.prefix|] && b.prefix == dst[..|b.prefix|];
    }
    assert a.prefix == b.prefix;
  }

  /** Only one row can be the answer for this destination. */
  ghost predicate OneChoice<V(!new)>(es: seq<Entry<V>>, dst: string) {
    forall a, b :: IsChoice(es, dst, a) && IsChoice(es, dst, b) ==> a == b
  }

  lemma DistinctPrefixesLeaveOneChoice<V(!new)>(es: seq<Entry<V>>, dst: string)
    requires DistinctPrefixes(es)
    ensures OneChoice(es, dst)
  {
    forall a, b | IsChoice(es, dst, a) && IsChoice(es, dst, b) ensures a == b { ChoiceIsUnique(es, dst, a, b); }
  }

  lemma {:induction false} LongestAtFrontWins<V>(a: Entry<V>, rest: seq<Entry<V>>, dst: string)
    requires Matches(a, dst) && forall x :: x in rest && Matches(x, dst) ==> |x.prefix| <= |a.prefix|
    ensures BestMatch([a] + rest, dst) == Some(0)
  {
    var es, n := [a] + rest, |rest|;
    if rest == [] {
      assert es[..0] == [];
    } else {
      assert es[..n] == [a] + rest[..n - 1];
      LongestAtFrontWins(a, rest[..n - 1], dst);
    }
  }

  lemma {:induction false} CatchAllAtFrontWins<V>(a: Entry<V>, rest: seq<Entry<V>>)
    requires IsCatchAll(a)
    ensures FirstCatchAll([a] + rest) == Some(0)
  {
    var es, n := [a] + rest, |rest|;
    if rest == [] {
      assert es[..0] == [];
    } else {
      assert es[..n] == [a] + rest[..n - 1];
      CatchAllAtFrontWins(a, rest[..n - 1]);
    }
  }

  /** Any row that may be the answer is the answer in some order of the rows. */
  lemma EveryChoiceIsChosen<V>(es: seq<Entry<V>>, dst: string, a: Entry<V>) returns (fs: seq<Entry<V>>)
    requires IsChoice(es, dst, a)
    ensures multiset(fs) == multiset(es) && Choose(fs, dst) == Some(a)
  {
    var i :| 0 <= i < |es| && es[i] == a;
    var rest := es[..i] + es[i + 1..];
    fs := [a] + rest;
    assert es == es[..i] + [a] + es[i + 1..];
    assert forall x :: x in rest ==> x in es;
    if Matches(a, dst) { LongestAtFrontWins(a, rest, dst); } else { CatchAllAtFrontWins(a, rest); }
  }

  /** With one possible answer it does not depend on the order the rows come in, nor on repetitions. */
  lemma OrderDoesNotMatter<V(!new)>(es: seq<Entry<V>>, fs: seq<Entry<V>>, dst: string)
    requires OneChoice(es, dst) && SameRows(es, fs)
    ensures Choose(es, dst) == Choose(fs, dst)
  {
    ChooseIsChoice(es, dst);
    ChooseIsChoice(fs, dst);
    if Choose(es, dst).Some? && Choose(fs, dst).Some? {
      assert IsChoice(es, dst, Choose(fs, dst).value);
    }
  }

  /** The answer is the same for every order of the rows exactly when only one row can be it. */
  lemma OrderIsIrrelevantExactly<V(!new)>(es: seq<Entry<V>>, dst: string)
    ensures (forall fs :: multiset(fs) == multiset(es) ==> Choose(fs, dst) == Choose(es, dst)) <==> OneChoice(es, dst)
  {
    if OneChoice(es, dst) {
      forall fs | multiset(fs) == multiset(es) ensures Choose(fs, dst) == Choose(es, dst) {
        ReorderedRows(es, fs);
        OrderDoesNotMatter(es, fs, dst);
      }
    } else {
      var a, b :| IsChoice(es, dst, a) && IsChoice(es, dst, b) && a != b;
      var fs := EveryChoiceIsChosen(es, dst, a);
      var gs := EveryChoiceIsChosen(es, dst, b);
      assert Choose(fs, dst) != Choose(gs, dst);
    }
  }

  ghost predicate SameRows<V(!new)>(es: seq<Entry<V>>, fs: seq<Entry<V>>) { forall x :: x in es <==> x in fs }

  lemma ReorderedRows<V(!new)>(es: seq<Entry<V>>, fs: seq<Entry<V>>)
    requires multiset(fs) == multiset(es)
    ensures SameRows(es, fs)
  {
    forall x ensures x in es <==> x in fs {
      assert x in es <==> x in multiset(es);
      assert x in fs <==> x in multiset(fs);
    }
  }

  /** Without it the order decides: two rows for one prefix, as overlapping validity dates allow, swap the answer. */
  lemma RepeatedPrefixDependsOnOrder(p: string, dst: string, u: int, v: int)
    requires p != "*" && StartsWith(dst, p) && u != v
    ensures Choose([Entry(p, u), Entry(p, v)], dst) != Choose([Entry(p, v), Entry(p, u)], dst)
  {
    assert [Entry(p, u), Entry(p, v)][..1] == [Entry(p, u)] && [Entry(p, v), Entry(p, u)][..1] == [Entry(p, v)];
    assert [Entry(p, u)][..0] == [] && [Entry(p, v)][..0] == [];
    assert BestMatch([Entry(p, u)], dst) == Some(0) && BestMatch([Entry(p, v)], dst) == Some(0);
  }
}
