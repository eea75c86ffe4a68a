/**
 The in-memory log hub: a bounded history per key and a buffered, non-blocking feed per viewer. A
 viewer that never falls a full buffer behind reads, after its snapshot, every line without a gap.
 */
module LogHub {
  const MAX_LINES := 500
  const SUBSCRIBER_BUFFER := 256

  function ReplaceAll(s: string, c: char): string {
    if s == "" then "" else ReplaceAll(s[..|s| - 1], c) + [if s[|s| - 1] == c then ' ' else s[|s| - 1]]
  }

  function Flatten(line: string): string { ReplaceAll(ReplaceAll(line, '\r'), '\n') }

  lemma {:induction false} ReplacedIsPointwise(s: string, c: char)
    ensures |ReplaceAll(s, c)| == |s|
    ensures forall i :: 0 <= i < |s| ==> ReplaceAll(s, c)[i] == if s[i] == c then ' ' else s[i]
  {
    if s != "" { ReplacedIsPointwise(s[..|s| - 1], c); }
  }

  /** One event stays one line: no break survives, and nothing else changes. */
  lemma FlattenedIsOneLine(line: string)
    ensures var f := Flatten(line);
      && '\r' !in f && '\n' !in f && |f| == |line|
      && forall i :: 0 <= i < |line| ==> f[i] == if line[i] in {'\r', '\n'} then ' ' else line[i]
  {
    ReplacedIsPointwise(line, '\r');
    ReplacedIsPointwise(ReplaceAll(line, '\r'), '\n');
  }

  /** The last n elements, or all when there are fewer. */
  function LastOf<T>(s: seq<T>, n: nat): (r: seq<T>)
    ensures |r| == (if |s| <= n then |s| else n) && forall i :: 0 <= i < |r| ==> r[i] == s[|s| - |r| + i]
  {
    if |s| <= n then s else s[|s| - n..]
  }

  /** The lines of a key; empty for a key the map does not hold. */
  function LinesOf(m: map<string, seq<string>>, key: string): seq<string> { if key in m then m[key] else [] }

  function Logged(log: map<string, seq<string>>, key: string, line: string): map<string, seq<string>> {
    log[key := LinesOf(log, key) + [line]]
  }

  function Subscribers(subs: map<string, set<nat>>, key: string): set<nat> { if key in subs then subs[key] else {} }

  /** A viewer's channel and what its reader has taken out of it. */
  datatype Feed = Feed(queue: seq<string>, received: seq<string>) {
    function Lines(): seq<string> { received + queue }
  }

  /** A subscription: its snapshot, the lines it spans, and the positions of those its channel took. */
  datatype View = View(key: string, snapshot: seq<string>, from: nat, until: nat, taken: seq<nat>)

  function Send(f: Feed, line: string): Feed {
    if |f.queue| < SUBSCRIBER_BUFFER then f.(queue := f.queue + [line]) else f
  }

  /** One more line has been appended; the channel takes it unless it is full. */
  function Extended(v: View, f: Feed): View {
    v.(until := v.until + 1, taken := if |f.queue| < SUBSCRIBER_BUFFER then v.taken + [v.until] else v.taken)
  }

  /** The positions are a subsequence of from .. until - 1. */
  ghost predicate Positions(taken: seq<nat>, from: nat, until: nat) {
    && (forall i :: 0 <= i < |taken| ==> from <= taken[i] < until)
    && (forall i, j :: 0 <= i < j < |taken| ==> taken[i] < taken[j])
  }

  /** The viewer has, in order, exactly the lines at the positions its channel took. */
  ghost predicate Kept(f: Feed, v: View, log: seq<string>) {
    && v.from <= v.until <= |log| && |f.queue| <= SUBSCRIBER_BUFFER
    && v.snapshot == LastOf(log[..v.from], MAX_LINES)
    && Positions(v.taken, v.from, v.until)
    && AreAt(f.Lines(), v.taken, log)
  }

  ghost predicate AreAt(lines: seq<string>, taken: seq<nat>, log: seq<string>) {
    |lines| == |taken| && forall i :: 0 <= i < |taken| ==> taken[i] < |log| && lines[i] == log[taken[i]]
  }

  lemma TakeOne(lines: seq<string>, taken: seq<nat>, log: seq<string>, from: nat, line: string)
    requires AreAt(lines, taken, log) && Positions(taken, from, |log|) && from <= |log|
    ensures AreAt(lines + [line], taken + [|log|], log + [line]) && Positions(taken + [|log|], from, |log| + 1)
    ensures AreAt(lines, taken, log + [line]) && Positions(taken, from, |log| + 1)
  {
  }

  /** Appending a line to a live subscription: sent, or dropped because the buffer is full. */
  lemma SendKeeps(f: Feed, v: View, log: seq<string>, line: string)
    requires Kept(f, v, log) && v.until == |log|
    ensures Kept(Send(f, line), Extended(v, f), log + [line])
  {
    assert (log + [line])[..v.from] == log[..v.from];
    TakeOne(f.Lines(), v.taken, log, v.from, line);
    assert Send(f, line).Lines() == if |f.queue| < SUBSCRIBER_BUFFER then f.Lines() + [line] else f.Lines();
  }

  lemma OtherLineKeeps(f: Feed, v: View, log: seq<string>, line: string)
    requires Kept(f, v, log)
    ensures Kept(f, v, log + [line])
  {
    assert (log + [line])[..v.from] == log[..v.from];
  }

  ghost predicate AllKept(feeds: map<nat, Feed>, views: map<nat, View>, log: map<string, seq<string>>) {
    && feeds.Keys == views.Keys
    && forall id :: id in feeds ==> Kept(feeds[id], views[id], LinesOf(log, views[id].key))
  }

  /** Every subscription is to an existing view of its key that has been sent everything so far. */
  ghost predicate SubsCurrent(subs: map<string, set<nat>>, views: map<nat, View>, log: map<string, seq<string>>) {
    forall key, id :: key in subs && id in subs[key] ==>
      id in views && views[id].key == key && views[id].until == |LinesOf(log, key)|
  }

  function SentAll(feeds: map<nat, Feed>, live: set<nat>, line: string): map<nat, Feed> {
    map id | id in feeds :: if id in live then Send(feeds[id], line) else feeds[id]
  }

  function ExtendedAll(views: map<nat, View>, feeds: map<nat, Feed>, live: set<nat>): map<nat, View>
    requires views.Keys == feeds.Keys
  {
    map id | id in views :: if id in live then Extended(views[id], feeds[id]) else views[id]
  }

  lemma AppendKeepsAll(feeds: map<nat, Feed>, views: map<nat, View>, log: map<string, seq<string>>,
                       key: string, live: set<nat>, line: string)
    requires AllKept(feeds, views, log)
    requires forall id :: id in live ==> id in views && views[id].key == key && views[id].until == |LinesOf(log, key)|
    ensures AllKept(SentAll(feeds, live, line), ExtendedAll(views, feeds, live), Logged(log, key, line))
  {
    forall id | id in feeds
      ensures var v := ExtendedAll(views, feeds, live)[id];
        Kept(SentAll(feeds, live, line)[id], v, LinesOf(Logged(log, key, line), v.key))
    {
      assert Kept(feeds[id], views[id], LinesOf(log, views[id].key));
      if id in live {
        SendKeeps(feeds[id], views[id], LinesOf(log, key), line);
      } else if views[id].key == key {
        OtherLineKeeps(feeds[id], views[id], LinesOf(log, key), line);
      }
    }
  }

  lemma AppendKeepsSubs(subs: map<string, set<nat>>, feeds: map<nat, Feed>, views: map<nat, View>,
                        log: map<string, seq<string>>, key: string, line: string)
    requires SubsCurrent(subs, views, log) && views.Keys == feeds.Keys
    ensures SubsCurrent(subs, ExtendedAll(views, feeds, Subscribers(subs, key)), Logged(log, key, line))
  {
  }

  lemma SubscribeKeeps(lines: seq<string>, key: string)
    ensures Kept(Feed([], []), View(key, LastOf(lines, MAX_LINES), |lines|, |lines|, []), lines)
  {
    assert lines[..|lines|] == lines;
  }

  lemma ReceiveKeeps(f: Feed, v: View, log: seq<string>)
    requires Kept(f, v, log) && f.queue != []
    ensures var g := Feed(f.queue[1..], f.received + [f.queue[0]]); g.Lines() == f.Lines() && Kept(g, v, log)
  {
    assert Feed(f.queue[1..], f.received + [f.queue[0]]).Lines() == f.Lines();
  }

  lemma {:induction false} NoRoomForGaps(taken: seq<nat>, from: nat, until: nat, i: nat)
    requires Positions(taken, from, until) && i < |taken| && |taken| == until - from
    ensures taken[i] == from + i
  {
    AtLeast(taken, from, until, i);
    AtMost(taken, from, until, i);
  }

  lemma {:induction false} AtLeast(taken: seq<nat>, from: nat, until: nat, i: nat)
    requires Positions(taken, from, until) && i < |taken|
    ensures taken[i] >= from + i
  {
    if i > 0 { AtLeast(taken, from, until, i - 1); }
  }

  lemma {:induction false} AtMost(taken: seq<nat>, from: nat, until: nat, i: nat)
    requires Positions(taken, from, until) && i < |taken|
    ensures taken[i] <= until - (|taken| - i)
    decreases |taken| - i
  {
    if i + 1 < |taken| { AtMost(taken, from, until, i + 1); }
  }

  /**
   A viewer's snapshot and lines together are the last lines of the log up to `until`, without a gap,
   exactly when its channel took as many lines as were appended: that is, when none was dropped.
   */
  lemma GapFreeExactly(f: Feed, v: View, log: seq<string>)
    requires Kept(f, v, log)
    ensures |v.taken| <= v.until - v.from
    ensures |v.taken| == v.until - v.from <==>
      v.snapshot + f.Lines() == LastOf(log[..v.until], |v.snapshot| + v.until - v.from)
  {
    if v.taken != [] { AtLeast(v.taken, v.from, v.until, |v.taken| - 1); }
    SnapshotPrecedes(v.snapshot, log, v.from, v.until);
    if |v.taken| == v.until - v.from { NoneMissing(f.Lines(), v.taken, log, v.from, v.until); }
  }

  lemma SnapshotPrecedes(snapshot: seq<string>, log: seq<string>, from: nat, until: nat)
    requires from <= until <= |log| && snapshot == LastOf(log[..from], MAX_LINES)
    ensures LastOf(log[..until], |snapshot| + until - from) == snapshot + log[from..until]
  {
    var had := from - |snapshot|;
    assert snapshot == log[had..from];
    assert log[..until][had..] == snapshot + log[from..until];
  }

  lemma NoneMissing(lines: seq<string>, taken: seq<nat>, log: seq<string>, from: nat, until: nat)
    requires from <= until <= |log| && Positions(taken, from, until) && AreAt(lines, taken, log)
    requires |taken| == until - from
    ensures lines == log[from..until]
  {
    forall i: nat | i < |lines| ensures lines[i] == log[from..until][i] {
      NoRoomForGaps(taken, from, until, i);
    }
  }

  ghost predicate Retained(history: map<string, seq<string>>, log: map<string, seq<string>>) {
    history.Keys == log.Keys && forall key :: key in log ==> history[key] == LastOf(log[key], MAX_LINES)
  }

  lemma HistoryGrows(history: map<string, seq<string>>, log: map<string, seq<string>>, key: string, line: string)
    requires Retained(history, log)
    ensures Retained(history[key := LastOf(LinesOf(history, key) + [line], MAX_LINES)], Logged(log, key, line))
  {
  }

  /** The key's log has this one more line, and the history holds the last 500 lines of it, or all of fewer. */
  ghost predicate LineKept(was: map<string, seq<string>>, now: map<string, seq<string>>,
                           history: map<string, seq<string>>, key: string, line: string) {
    && key in now && now == was[key := now[key]] && now[key] == (if key in was then was[key] else []) + [line]
    && key in history && |history[key]| == (if |now[key]| <= 500 then |now[key]| else 500)
    && history[key] == now[key][|now[key]| - |history[key]|..]
  }

  /** Every live channel with fewer than 256 lines queued takes the line; no other channel changes. */
  ghost predicate LineSent(was: map<nat, Feed>, now: map<nat, Feed>, live: set<nat>, line: string) {
    && was.Keys == now.Keys
    && forall id :: id in was ==>
         && now[id].received == was[id].received
         && now[id].queue == if id in live && |was[id].queue| < 256 then was[id].queue + [line] else was[id].queue
  }

  lemma LoggedIsKept(history: map<string, seq<string>>, log: map<string, seq<string>>, key: string, line: string)
    requires Retained(history, log)
    ensures forall h :: Retained(h, Logged(log, key, line)) ==> LineKept(log, Logged(log, key, line), h, key, line)
  {
  }

  lemma SentIsSent(feeds: map<nat, Feed>, live: set<nat>, line: string)
    ensures LineSent(feeds, SentAll(feeds, live, line), live, line)
  {
  }

  /** The hub's fields against the whole log and the views promised. */
  ghost predicate HubOk(history: map<string, seq<string>>, subs: map<string, set<nat>>, feeds: map<nat, Feed>,
                        nextId: nat, log: map<string, seq<string>>, views: map<nat, View>) {
    && Retained(history, log) && AllKept(feeds, views, log) && SubsCurrent(subs, views, log)
    && forall id :: id in feeds ==> id < nextId
  }

  lemma AppendOk(history: map<string, seq<string>>, subs: map<string, set<nat>>, feeds: map<nat, Feed>, nextId: nat,
                 log: map<string, seq<string>>, views: map<nat, View>, key: string, line: string)
    requires HubOk(history, subs, feeds, nextId, log, views)
    ensures feeds.Keys == views.Keys && Subscribers(subs, key) <= feeds.Keys
    ensures var live := Subscribers(subs, key);
      HubOk(history[key := LastOf(LinesOf(history, key) + [line], MAX_LINES)], subs, SentAll(feeds, live, line), nextId,
            Logged(log, key, line), ExtendedAll(views, feeds, live))
  {
    AppendKeepsAll(feeds, views, log, key, Subscribers(subs, key), line);
    AppendKeepsSubs(subs, feeds, views, log, key, line);
    HistoryGrows(history, log, key, line);
  }

  function Fresh(log: map<string, seq<string>>, key: string): View {
    View(key, LastOf(LinesOf(log, key), MAX_LINES), |LinesOf(log, key)|, |LinesOf(log, key)|, [])
  }

  lemma SubscribeOk(history: map<string, seq<string>>, subs: map<string, set<nat>>, feeds: map<nat, Feed>, nextId: nat,
                    log: map<string, seq<string>>, views: map<nat, View>, key: string)
    requires HubOk(history, subs, feeds, nextId, log, views)
    ensures nextId !in feeds && LinesOf(history, key) == LastOf(LinesOf(log, key), MAX_LINES)
    ensures HubOk(history, subs[key := Subscribers(subs, key) + {nextId}], feeds[nextId := Feed([], [])], nextId + 1,
                  log, views[nextId := Fresh(log, key)])
  {
    SubscribeKeeps(LinesOf(log, key), key);
  }

  class Hub {
    var history: map<string, seq<string>>
    var subs: map<string, set<nat>>
    var feeds: map<nat, Feed>
    var nextId: nat
    ghost var log: map<string, seq<string>>
    ghost var views: map<nat, View>

    ghost predicate Valid()
      reads this
    {
      HubOk(history, subs, feeds, nextId, log, views)
    }

    constructor ()
      ensures Valid() && log == map[] && views == map[]
    {
      history, subs, feeds, nextId := map[], map[], map[], 0;
      log, views := map[], map[];
    }

    method Append(key: string, line: string)
      requires Valid()
      modifies this
      ensures Valid() && subs == old(subs)
      ensures log == if key == "" then old(log) else Logged(old(log), key, Flatten(line))
      ensures feeds == if key == "" then old(feeds) else SentAll(old(feeds), Subscribers(subs, key), Flatten(line))
      ensures key != "" ==> LineKept(old(log), log, history, key, Flatten(line))
      ensures key != "" ==> LineSent(old(feeds), feeds, Subscribers(subs, key), Flatten(line))
    {
      if key == "" { return; }
      LoggedIsKept(history, log, key, Flatten(line));
      SentIsSent(feeds, Subscribers(subs, key), Flatten(line));
      Record(key, Flatten(line));
    }

    method Record(key: string, line: string)
      requires Valid()
      modifies this
      ensures Valid() && subs == old(subs) && log == Logged(old(log), key, line)
      ensures feeds == SentAll(old(feeds), Subscribers(subs, key), line)
    {
      AppendOk(history, subs, feeds, nextId, log, views, key, line);
      Extend(key, line);
      SendToAll(Subscribers(subs, key), line);
    }

    method Extend(key: string, line: string)
      requires views.Keys == feeds.Keys
      modifies this`history, this`log, this`views
      ensures history == old(history)[key := LastOf(LinesOf(old(history), key) + [line], MAX_LINES)]
      ensures log == Logged(old(log), key, line) && views == ExtendedAll(old(views), feeds, Subscribers(subs, key))
    {
      var buf := LinesOf(history, key) + [line];
      if |buf| > MAX_LINES { buf := buf[|buf| - MAX_LINES..]; }
      history := history[key := buf];
      log := Logged(log, key, line);
      views := ExtendedAll(views, feeds, Subscribers(subs, key));
    }

    /** One non-blocking send per subscriber, in any order. */
    method SendToAll(live: set<nat>, line: string)
      requires live <= feeds.Keys
      modifies this`feeds
      ensures feeds == SentAll(old(feeds), live, line)
    {
      var todo := live;
      while todo != {}
        invariant todo <= live && feeds == SentAll(old(feeds), live - todo, line)
      {
        var id :| id in todo;
        feeds := feeds[id := Send(feeds[id], line)];
        todo := todo - {id};
      }
      assert live - {} == live;
    }

    /** A viewer gets the history as it stands, and a channel of what follows. */
    method Subscribe(key: string) returns (snapshot: seq<string>, id: nat)
      requires Valid()
      modifies this
      ensures Valid() && log == old(log) && history == old(history)
      ensures id !in old(feeds) && feeds == old(feeds)[id := Feed([], [])]
      ensures snapshot == LastOf(LinesOf(log, key), MAX_LINES)
      ensures views == old(views)[id := Fresh(log, key)]
      ensures subs == old(subs)[key := Subscribers(old(subs), key) + {id}]
    {
      SubscribeOk(history, subs, feeds, nextId, log, views, key);
      snapshot := LinesOf(history, key);
      id := nextId;
      nextId := nextId + 1;
      subs := subs[key := Subscribers(subs, key) + {id}];
      feeds := feeds[id := Feed([], [])];
      views := views[id := Fresh(log, key)];
    }

    /** After cancel the channel is sent nothing more; what it holds can still be read. */
    method Cancel(key: string, id: nat)
      requires Valid()
      modifies this
      ensures Valid() && log == old(log) && feeds == old(feeds) && views == old(views)
      ensures forall k :: k in subs ==>
        k in old(subs) && subs[k] == if k == key then old(subs)[k] - {id} else old(subs)[k]
      ensures forall k :: k in old(subs) && (k == key ==> old(subs)[k] - {id} != {}) ==> k in subs
    {
      if key in subs {
        subs := subs[key := subs[key] - {id}];
        if subs[key] == {} { subs := subs - {key}; }
      }
    }

    /** The viewer takes the oldest line out of its channel. */
    method Receive(id: nat) returns (line: string)
      requires Valid() && id in feeds && feeds[id].queue != []
      modifies this
      ensures Valid() && log == old(log) && subs == old(subs) && views == old(views)
      ensures old(feeds)[id].queue == [line] + feeds[id].queue && feeds == old(feeds)[id := feeds[id]]
      ensures feeds[id].Lines() == old(feeds)[id].Lines() && feeds[id].received == old(feeds)[id].received + [line]
    {
      var f := feeds[id];
      line := f.queue[0];
      ReceiveKeeps(f, views[id], LinesOf(log, views[id].key));
      feeds := feeds[id := Feed(f.queue[1..], f.received + [line])];
    }
  }
}
