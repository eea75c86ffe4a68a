/**
 Successive windows of failures, each a sequence of the times read by its failures in the order of
 their marks: how many of them ten minutes hold when the windows follow one another as those of a
 throttled key do.
 */
module ThrottleWindows {
  import opened Sequences
  import opened BindThrottle

  /** How much longer a block lasts than a window. */
  const SLACK := BLOCK_FOR - WINDOW

  // ---- counting ----

  function UpTo(xs: seq<int>, limit: int): nat {
    if xs == [] then 0 else UpTo(xs[..|xs| - 1], limit) + if xs[|xs| - 1] <= limit then 1 else 0
  }

  function UpToAll(ws: seq<seq<int>>, limit: int): nat {
    if ws == [] then 0 else UpToAll(ws[..|ws| - 1], limit) + UpTo(ws[|ws| - 1], limit)
  }

  function HitsAll(ws: seq<seq<int>>, lo: int): nat {
    if ws == [] then 0 else HitsAll(ws[..|ws| - 1], lo) + CountIn(ws[|ws| - 1], lo)
  }

  lemma AppendCounts(xs: seq<int>, x: int, limit: int)
    ensures UpTo(xs + [x], limit) == UpTo(xs, limit) + if x <= limit then 1 else 0
    ensures CountIn(xs + [x], limit) == CountIn(xs, limit) + if limit <= x <= limit + WINDOW then 1 else 0
  {
    assert (xs + [x])[..|xs|] == xs;
  }

  lemma AppendAll(ws: seq<seq<int>>, w: seq<int>, limit: int)
    ensures UpToAll(ws + [w], limit) == UpToAll(ws, limit) + UpTo(w, limit)
    ensures HitsAll(ws + [w], limit) == HitsAll(ws, limit) + CountIn(w, limit)
  {
    assert (ws + [w])[..|ws|] == ws;
  }

  lemma {:induction false} WithoutCounts(xs: seq<int>, i: nat, limit: int)
    requires i < |xs|
    ensures UpTo(RemoveAt(xs, i), limit) == UpTo(xs, limit) - if xs[i] <= limit then 1 else 0
    ensures CountIn(RemoveAt(xs, i), limit) == CountIn(xs, limit) - if limit <= xs[i] <= limit + WINDOW then 1 else 0
  {
    var n := |xs| - 1;
    if i == n {
      assert RemoveAt(xs, i) == xs[..n];
    } else {
      WithoutCounts(xs[..n], i, limit);
      assert RemoveAt(xs, i) == RemoveAt(xs[..n], i) + [xs[n]];
      AppendCounts(RemoveAt(xs[..n], i), xs[n], limit);
    }
  }

  lemma {:induction false} CountBounds(xs: seq<int>, lo: int)
    ensures CountIn(xs, lo) <= UpTo(xs, lo + WINDOW) <= |xs|
    ensures xs != [] && xs[0] < lo ==> CountIn(xs, lo) <= |xs| - 1
    ensures (forall i :: 0 <= i < |xs| ==> xs[i] < lo || xs[i] > lo + WINDOW) ==> CountIn(xs, lo) == 0
    ensures (forall i :: 0 <= i < |xs| ==> xs[i] > lo) ==> UpTo(xs, lo) == 0
  {
    if xs != [] { CountBounds(xs[..|xs| - 1], lo); }
  }

  lemma {:induction false} UpToGrows(xs: seq<int>, a: int, b: int)
    requires a <= b
    ensures UpTo(xs, a) <= UpTo(xs, b)
  {
    if xs != [] { UpToGrows(xs[..|xs| - 1], a, b); }
  }

  lemma {:induction false} AllBounds(ws: seq<seq<int>>, lo: int, limit: int)
    requires lo + WINDOW <= limit
    ensures HitsAll(ws, lo) <= UpToAll(ws, limit)
  {
    if ws != [] {
      AllBounds(ws[..|ws| - 1], lo, limit);
      CountBounds(ws[|ws| - 1], lo);
      UpToGrows(ws[|ws| - 1], lo + WINDOW, limit);
    }
  }

  lemma {:induction false} HitsSplit(ws: seq<seq<int>>, a: nat, lo: int)
    requires a <= |ws|
    ensures HitsAll(ws, lo) == HitsAll(ws[..a], lo) + HitsAll(ws[a..], lo)
  {
    if a == |ws| {
      assert ws[..a] == ws && ws[a..] == [];
    } else {
      var n := |ws| - 1;
      HitsSplit(ws[..n], a, lo);
      assert ws[..n][..a] == ws[..a] && ws[a..] == ws[..n][a..] + [ws[n]];
      AppendAll(ws[..n][a..], ws[n], lo);
    }
  }

  // ---- ten minutes of successive windows ----

  /** One entry's failures: the first opened it, none is beyond its window, and there are not too many. */
  predicate WindowOk(w: seq<int>, c: nat) {
    1 <= |w| <= MAX_ATTEMPTS - 1 + c && forall i :: 0 <= i < |w| ==> w[i] <= w[0] + WINDOW
  }

  /**
   Windows in order: the next opens hardly before one is over, and of what comes after little is as
   early as its end.
   */
  ghost predicate Successive(ws: seq<seq<int>>, c: nat, d: nat) {
    && (forall i :: 0 <= i < |ws| ==> WindowOk(ws[i], c))
    && (forall i: nat :: i < |ws| - 1 ==> Follows(ws, i, c, d))
    && (forall i, j :: 0 <= i < j < |ws| && |ws[i]| >= MAX_ATTEMPTS ==> Apart(ws[i], ws[j]))
  }

  ghost predicate Follows(ws: seq<seq<int>>, i: nat, c: nat, d: nat)
    requires i < |ws| - 1
  {
    && |ws[i]| >= 1 && |ws[i + 1]| >= 1 && ws[i + 1][0] > ws[i][0] + WINDOW - d
    && UpToAll(ws[i + 1..], ws[i][0] + WINDOW) <= c - 1
  }

  /** Everything in b is more than a window later than everything in a. */
  ghost predicate Apart(a: seq<int>, b: seq<int>) {
    forall i, j :: 0 <= i < |a| && 0 <= j < |b| ==> b[j] > a[i] + WINDOW
  }

  lemma HitMember(w: seq<int>, lo: int) returns (i: nat)
    requires CountIn(w, lo) > 0
    ensures i < |w| && lo <= w[i] <= lo + WINDOW
  {
    var n := |w| - 1;
    if lo <= w[n] <= lo + WINDOW { i := n; } else { i := HitMember(w[..n], lo); }
  }

  /** After a full window with a failure in the interval nothing more falls into it. */
  lemma {:induction false} NothingAfterFull(ws: seq<seq<int>>, i: nat, lo: int, n: nat)
    requires i < n <= |ws| && CountIn(ws[i], lo) > 0
    requires forall j :: i < j < |ws| ==> Apart(ws[i], ws[j])
    ensures HitsAll(ws[i + 1..n], lo) == 0
  {
    if i + 1 < n {
      NothingAfterFull(ws, i, lo, n - 1);
      assert ws[i + 1..n] == ws[i + 1..n - 1] + [ws[n - 1]];
      AppendAll(ws[i + 1..n - 1], ws[n - 1], lo);
      var k := HitMember(ws[i], lo);
      assert Apart(ws[i], ws[n - 1]);
      CountBounds(ws[n - 1], lo);
    }
  }

  lemma HeadHits(ws: seq<seq<int>>, a: nat, lo: int)
    requires a < |ws|
    ensures HitsAll(ws[a..], lo) == CountIn(ws[a], lo) + HitsAll(ws[a + 1..], lo)
  {
    var tail := ws[a..];
    HitsSplit(tail, 1, lo);
    assert tail[..1] == [] + [ws[a]] && tail[1..] == ws[a + 1..];
    AppendAll([], ws[a], lo);
  }

  /** After a full window with a failure in the interval, or at its end, little follows. */
  lemma AfterWindow(ws: seq<seq<int>>, a: nat, c: nat, d: nat, lo: int)
    requires Successive(ws, c, d) && c >= 1 && a < |ws|
    ensures |ws[a]| >= MAX_ATTEMPTS && CountIn(ws[a], lo) > 0 ==> HitsAll(ws[a + 1..], lo) == 0
    ensures ws[a][0] >= lo ==> HitsAll(ws[a + 1..], lo) <= c - 1
  {
    if a + 1 == |ws| {
      assert ws[a + 1..] == [];
    } else {
      assert Follows(ws, a, c, d);
      if ws[a][0] >= lo { AllBounds(ws[a + 1..], lo, ws[a][0] + WINDOW); }
      if |ws[a]| >= MAX_ATTEMPTS && CountIn(ws[a], lo) > 0 {
        NothingAfterFull(ws, a, lo, |ws|);
        assert ws[a + 1..|ws|] == ws[a + 1..];
      }
    }
  }

  /** From the first window that opens inside the interval on: itself, or fewer and what was in flight at its end. */
  lemma TailHits(ws: seq<seq<int>>, a: nat, c: nat, d: nat, lo: int)
    requires Successive(ws, c, d) && c >= 1 && a < |ws| && ws[a][0] >= lo
    ensures HitsAll(ws[a..], lo) <= MAX_ATTEMPTS - 1 + c
  {
    HeadHits(ws, a, lo);
    CountBounds(ws[a], lo);
    AfterWindow(ws, a, c, d, lo);
  }

  function SpreadBound(c: nat, d: nat): nat { if c <= 1 || d <= 1 then MAX_ATTEMPTS + 2 + c else MAX_ATTEMPTS + 5 + c }

  /** A window that opens before the interval adds three at most, unless it is full and then nothing follows. */
  lemma StepBack(ws: seq<seq<int>>, a: nat, c: nat, d: nat, lo: int, tail: nat)
    requires Successive(ws, c, d) && c >= 1 && a < |ws| && ws[a][0] < lo
    requires HitsAll(ws[a + 1..], lo) <= tail && c <= tail
    ensures HitsAll(ws[a..], lo) <= tail + 3
  {
    HeadHits(ws, a, lo);
    CountBounds(ws[a], lo);
    AfterWindow(ws, a, c, d, lo);
  }

  /** Windows whose ends lie before the interval contribute nothing. */
  lemma {:induction false} NothingBefore(ws: seq<seq<int>>, n: nat, c: nat, lo: int)
    requires n <= |ws| && forall i :: 0 <= i < n ==> WindowOk(ws[i], c) && ws[i][0] + WINDOW < lo
    ensures HitsAll(ws[..n], lo) == 0
  {
    if n > 0 {
      NothingBefore(ws, n - 1, c, lo);
      assert ws[..n][..n - 1] == ws[..n - 1];
      assert WindowOk(ws[n - 1], c);
      CountBounds(ws[n - 1], lo);
    }
  }

  ghost predicate OpensAt(ws: seq<seq<int>>, a: nat, lo: int)
    requires forall i :: 0 <= i < |ws| ==> |ws[i]| >= 1
  {
    a <= |ws| && (a < |ws| ==> ws[a][0] >= lo) && forall i :: 0 <= i < a ==> ws[i][0] < lo
  }

  lemma Opening(ws: seq<seq<int>>, lo: int) returns (a: nat)
    requires forall i :: 0 <= i < |ws| ==> |ws[i]| >= 1
    ensures OpensAt(ws, a, lo)
  {
    a := 0;
    while a < |ws| && ws[a][0] < lo
      invariant a <= |ws| && forall i :: 0 <= i < a ==> ws[i][0] < lo
    {
      a := a + 1;
    }
  }

  lemma {:induction false} FirstsGrow(ws: seq<seq<int>>, c: nat, d: nat, i: nat, j: nat)
    requires Successive(ws, c, d) && d <= WINDOW && i <= j < |ws|
    ensures |ws[i]| >= 1 && |ws[j]| >= 1 && ws[i][0] <= ws[j][0]
    decreases j - i
  {
    assert WindowOk(ws[i], c) && WindowOk(ws[j], c);
    if i < j {
      assert Follows(ws, i, c, d);
      FirstsGrow(ws, c, d, i + 1, j);
    }
  }

  function Back(d: nat): nat { if d <= 1 then 1 else 2 }

  /** Only so many windows that open before the interval reach into it. */
  lemma EarlierEnds(ws: seq<seq<int>>, c: nat, d: nat, lo: int, a: nat, i: nat)
    requires Successive(ws, c, d) && d < SLACK && i + Back(d) < a <= |ws|
    requires |ws[a - 1]| >= 1 && ws[a - 1][0] < lo
    ensures WindowOk(ws[i], c) && ws[i][0] + WINDOW < lo
  {
    FirstsGrow(ws, c, d, i + Back(d), a - 1);
    assert WindowOk(ws[i], c) && Follows(ws, i, c, d);
    if d > 1 { assert Follows(ws, i + 1, c, d); }
  }

  ghost predicate Opens(ws: seq<seq<int>>, c: nat, d: nat, a: nat, lo: int) {
    && Successive(ws, c, d) && c >= 1 && (forall i :: 0 <= i < |ws| ==> |ws[i]| >= 1)
    && OpensAt(ws, a, lo)
  }

  lemma FromOpening(ws: seq<seq<int>>, c: nat, d: nat, lo: int, a: nat)
    requires Opens(ws, c, d, a, lo)
    ensures HitsAll(ws[a..], lo) <= MAX_ATTEMPTS - 1 + c
  {
    if a < |ws| { TailHits(ws, a, c, d, lo); } else { assert ws[a..] == []; }
  }

  lemma FromOneBefore(ws: seq<seq<int>>, c: nat, d: nat, lo: int, a: nat)
    requires Opens(ws, c, d, a, lo) && a >= 1
    ensures HitsAll(ws[a - 1..], lo) <= MAX_ATTEMPTS + 2 + c
  {
    FromOpening(ws, c, d, lo, a);
    StepBack(ws, a - 1, c, d, lo, MAX_ATTEMPTS - 1 + c);
  }

  lemma FromTwoBefore(ws: seq<seq<int>>, c: nat, d: nat, lo: int, a: nat)
    requires Opens(ws, c, d, a, lo) && a >= 2
    ensures HitsAll(ws[a - 2..], lo) <= MAX_ATTEMPTS + 5 + c
  {
    FromOneBefore(ws, c, d, lo, a);
    StepBack(ws, a - 2, c, d, lo, MAX_ATTEMPTS + 2 + c);
  }

  lemma TailFrom(ws: seq<seq<int>>, c: nat, d: nat, lo: int, a: nat, b: nat)
    requires Opens(ws, c, d, a, lo) && (c == 1 ==> d == 0)
    requires b == (if a < Back(d) then 0 else a - Back(d)) && b <= |ws|
    ensures HitsAll(ws[b..], lo) <= SpreadBound(c, d)
  {
    if a == 0 {
      FromOpening(ws, c, d, lo, a);
    } else if a == 1 || d <= 1 {
      FromOneBefore(ws, c, d, lo, a);
    } else {
      FromTwoBefore(ws, c, d, lo, a);
    }
  }

  /** Successive windows put a bounded number of failures into any ten minutes. */
  lemma SuccessiveHits(ws: seq<seq<int>>, c: nat, d: nat, lo: int)
    requires Successive(ws, c, d) && c >= 1 && d < SLACK && (c == 1 ==> d == 0)
    ensures HitsAll(ws, lo) <= SpreadBound(c, d)
  {
    forall i: nat | i < |ws| ensures |ws[i]| >= 1 { assert WindowOk(ws[i], c); }
    var a := Opening(ws, lo);
    var b := if a < Back(d) then 0 else a - Back(d);
    TailFrom(ws, c, d, lo, a, b);
    forall i: nat | i < b ensures WindowOk(ws[i], c) && ws[i][0] + WINDOW < lo {
      EarlierEnds(ws, c, d, lo, a, i);
    }
    NothingBefore(ws, b, c, lo);
    HitsSplit(ws, b, lo);
  }
}
