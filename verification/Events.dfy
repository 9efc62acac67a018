/** Realtime events, the filter of a subscription, and what the hub's bounded
    state must agree with: the unbounded log of everything ever published. */
module Events {
  import opened Cursors

  datatype Event = Event(
    cursor: string, name: string, workspaceId: string, channelId: string, memberId: string, terminalId: string,
    occurredAt: nat, payload: string)

  datatype Filter = Filter(
    workspaceId: string, families: set<string>, channelIds: set<string>, terminalIds: set<string>,
        memberIds: set<string>)

  function EventFamily(name: string): string {
    if name in ["chat.snapshot", "chat.delta", "chat.status", "chat.updated"] then "chat"
    else if name in ["presence.snapshot", "presence.delta", "presence.status", "presence.updated"] then "members"
    else if name in ["roadmap.snapshot", "roadmap.delta", "roadmap.status", "roadmap.updated"] then "roadmap"
    else if name in ["terminal.attach", "terminal.snapshot", "terminal.delta", "terminal.status"] then "terminal"
    else ""
  }

  predicate IsSnapshotEvent(name: string) {
    name in ["chat.snapshot", "terminal.snapshot", "presence.snapshot", "roadmap.snapshot", "node.snapshot"]
  }

  function SnapshotKey(e: Event): string {
    if e.name == "chat.snapshot" then e.name + ":" + e.workspaceId + ":" + e.channelId
    else if e.name == "terminal.snapshot" then e.name + ":" + e.workspaceId + ":" + e.terminalId
    else if e.name == "presence.snapshot" || e.name == "roadmap.snapshot" then e.name + ":" + e.workspaceId
    else e.name + ":" + e.workspaceId + ":" + e.memberId + ":" + e.terminalId + ":" + e.channelId
  }

  // ---- when the key tells streams apart ----

  /** The ids a key is made of, in order. */
  function Parts(e: Event): seq<string> {
    if e.name == "chat.snapshot" then [e.workspaceId, e.channelId]
    else if e.name == "terminal.snapshot" then [e.workspaceId, e.terminalId]
    else if e.name == "presence.snapshot" || e.name == "roadmap.snapshot" then [e.workspaceId]
    else [e.workspaceId, e.memberId, e.terminalId, e.channelId]
  }

  function Join(parts: seq<string>): string {
    if parts == [] then "" else if |parts| == 1 then parts[0] else parts[0] + ":" + Join(parts[1..])
  }

  lemma KeyIsJoined(e: Event)
    requires IsSnapshotEvent(e.name)
    ensures SnapshotKey(e) == e.name + ":" + Join(Parts(e)) && ':' !in e.name
  {
    hide Join;
    var w := e.workspaceId;
    if e.name == "chat.snapshot" {
      JoinTwo(w, e.channelId);
      Regroup(e.name, w, e.channelId);
    } else if e.name == "terminal.snapshot" {
      JoinTwo(w, e.terminalId);
      Regroup(e.name, w, e.terminalId);
    } else if e.name == "node.snapshot" {
      JoinFour(w, e.memberId, e.terminalId, e.channelId);
      RegroupFour(e.name, w, e.memberId, e.terminalId, e.channelId);
    } else {
      JoinOne(w);
    }
    NamesArePlain(e.name);
  }

  lemma NamesArePlain(name: string)
    requires IsSnapshotEvent(name)
    ensures ':' !in name
  {
  }

  lemma RegroupFour(n: string, a: string, b: string, c: string, d: string)
    ensures n + ":" + (a + ":" + b + ":" + c + ":" + d) == n + ":" + a + ":" + b + ":" + c + ":" + d
  {
    Regroup(n, a, b);
    Regroup(n, a + ":" + b, c);
    Regroup(n, a + ":" + b + ":" + c, d);
  }

  lemma JoinOne(a: string)
    ensures Join([a]) == a
  {
  }

  lemma JoinTwo(a: string, b: string)
    ensures Join([a, b]) == a + ":" + b
  {
    assert [a, b][1..] == [b];
  }

  lemma JoinFour(a: string, b: string, c: string, d: string)
    ensures Join([a, b, c, d]) == a + ":" + b + ":" + c + ":" + d
  {
    assert [a, b, c, d][1..] == [b, c, d] && [b, c, d][1..] == [c, d];
    JoinTwo(c, d);
    Regroup(b, c, d);
    Regroup(a, b, c + ":" + d);
    Regroup(a + ":" + b, c, d);
  }

  lemma Regroup(a: string, b: string, c: string)
    ensures a + ":" + (b + ":" + c) == a + ":" + b + ":" + c
  {
  }

  /** The two events are snapshots of one thing. */
  predicate SameStream(a: Event, b: Event) {
    && a.name == b.name && a.workspaceId == b.workspaceId
    && (a.name == "chat.snapshot" ==> a.channelId == b.channelId)
    && (a.name == "terminal.snapshot" ==> a.terminalId == b.terminalId)
    && (a.name == "node.snapshot" ==>
          a.memberId == b.memberId && a.terminalId == b.terminalId && a.channelId == b.channelId)
  }

  lemma StreamsByParts(a: Event, b: Event)
    requires IsSnapshotEvent(a.name)
    ensures SameStream(a, b) <==> a.name == b.name && Parts(a) == Parts(b)
  {
    if a.name == b.name && Parts(a) == Parts(b) {
      var k := |Parts(a)|;
      assert Parts(a)[0] == Parts(b)[0] && (k > 1 ==> Parts(a)[1] == Parts(b)[1]);
      assert k > 2 ==> Parts(a)[2] == Parts(b)[2] && Parts(a)[3] == Parts(b)[3];
    }
  }

  predicate Plain(parts: seq<string>) { forall i | 0 <= i < |parts| :: ':' !in parts[i] }

  /** No colon where the key has something behind it to keep apart. */
  predicate PlainIds(e: Event) { Plain(Parts(e)[..|Parts(e)| - 1]) }

  lemma SplitAtColon(p: string, q: string, r: string, s: string)
    requires ':' !in p && ':' !in r && p + ":" + q == r + ":" + s
    ensures p == r && q == s
  {
    var whole := p + ":" + q;
    assert whole[|p|] == ':' && whole[|r|] == ':';
    forall i | 0 <= i < |p| ensures whole[i] != ':' { assert whole[i] == p[i]; }
    forall i | 0 <= i < |r| ensures whole[i] != ':' { assert whole[i] == r[i]; }
    assert whole[..|p|] == p && whole[..|r|] == r && whole[|p| + 1..] == q && whole[|r| + 1..] == s;
  }

  /** Two snapshots whose ids hold no colon but in the last share a key exactly when they
      are of one stream. */
  lemma KeysTellStreamsApart(a: Event, b: Event)
    requires IsSnapshotEvent(a.name) && IsSnapshotEvent(b.name) && PlainIds(a) && PlainIds(b)
    ensures SnapshotKey(a) == SnapshotKey(b) <==> SameStream(a, b)
  {
    KeyIsJoined(a);
    KeyIsJoined(b);
    if SnapshotKey(a) == SnapshotKey(b) {
      SplitAtColon(a.name, Join(Parts(a)), b.name, Join(Parts(b)));
      PlainJoins(Parts(a), Parts(b));
    }
    StreamsByParts(a, b);
  }

  lemma {:induction false} PlainJoins(x: seq<string>, y: seq<string>)
    requires |x| == |y| > 0 && Plain(x[..|x| - 1]) && Plain(y[..|y| - 1]) && Join(x) == Join(y)
    ensures x == y
  {
    if |x| > 1 {
      assert x[..|x| - 1][0] == x[0] && y[..|y| - 1][0] == y[0];
      SplitAtColon(x[0], Join(x[1..]), y[0], Join(y[1..]));
      assert x[1..][..|x| - 2] == x[..|x| - 1][1..] && y[1..][..|y| - 2] == y[..|y| - 1][1..];
      PlainJoins(x[1..], y[1..]);
      assert x == [x[0]] + x[1..] && y == [y[0]] + y[1..];
    }
  }

  // ---- exactly when one key is one stream's own ----

  function Colons(s: string): nat { if s == "" then 0 else (if s[0] == ':' then 1 else 0) + Colons(s[1..]) }

  lemma {:induction false} ColonsConcat(s: string, t: string)
    ensures Colons(s + t) == Colons(s) + Colons(t)
  {
    if s == "" {
      assert s + t == t;
    } else {
      assert (s + t)[1..] == s[1..] + t;
      ColonsConcat(s[1..], t);
    }
  }

  lemma {:induction false} NoColons(s: string)
    requires ':' !in s
    ensures Colons(s) == 0
  {
    if s != "" { NoColons(s[1..]); }
  }

  /** Every separator is a colon, and plain parts bring no others. */
  lemma {:induction false} JoinColons(parts: seq<string>)
    requires parts != []
    ensures Colons(Join(parts)) >= |parts| - 1 && (Plain(parts) ==> Colons(Join(parts)) == |parts| - 1)
  {
    if |parts| == 1 {
      if Plain(parts) { NoColons(parts[0]); }
    } else {
      JoinColons(parts[1..]);
      ColonsConcat(parts[0] + ":", Join(parts[1..]));
      ColonsConcat(parts[0], ":");
      if Plain(parts) { NoColons(parts[0]); }
    }
  }

  /** A plain head is cut off at the right place if the rest has no colon to spare. */
  lemma SplitByCount(p: string, q: string, r: string, s: string)
    requires ':' !in p && p + ":" + q == r + ":" + s && Colons(q) <= Colons(s)
    ensures p == r && q == s
  {
    var whole := p + ":" + q;
    assert whole[|r|] == ':' && whole[..|p|] == p && whole[..|r|] == r;
    forall i | 0 <= i < |p| ensures whole[i] != ':' { assert whole[i] == p[i]; }
    assert whole[|p| + 1..] == q && whole[|r| + 1..] == s;
    if |r| > |p| {
      var k := |r| - |p| - 1;
      assert q[k] == whole[|r|] && q[k + 1..] == s;
      assert q == q[..k] + (":" + s);
      ColonsConcat(q[..k], ":" + s);
      ColonsConcat(":", s);
      assert false;
    }
  }

  /** Plain parts are the only ones to join to what they join to. */
  lemma {:induction false} PlainIsUnique(x: seq<string>, y: seq<string>)
    requires |x| == |y| > 0 && (Plain(x) || |x| == 1) && Join(x) == Join(y)
    ensures x == y
  {
    if |x| > 1 {
      JoinColons(x[1..]);
      JoinColons(y[1..]);
      SplitByCount(x[0], Join(x[1..]), y[0], Join(y[1..]));
      PlainIsUnique(x[1..], y[1..]);
      assert x == [x[0]] + x[1..] && y == [y[0]] + y[1..];
    }
  }

  lemma {:induction false} FirstColon(s: string) returns (u: string, v: string)
    requires ':' in s
    ensures s == u + ":" + v
  {
    if s[0] == ':' {
      u, v := "", s[1..];
    } else {
      u, v := FirstColon(s[1..]);
      u := [s[0]] + u;
    }
  }

  /** A colon in one of several parts can pass for a separator. */
  lemma {:induction false} JoinTwin(x: seq<string>, i: nat) returns (y: seq<string>)
    requires |x| > 1 && i < |x| && ':' in x[i]
    ensures |y| == |x| && y != x && Join(y) == Join(x)
  {
    if i == 0 {
      var u, v := FirstColon(x[0]);
      var rest := [v + ":" + x[1]] + x[2..];
      y := [u] + rest;
      JoinHead(v, x[1..]);
      assert y[1..] == rest && rest == [v + ":" + x[1..][0]] + x[1..][1..];
      assert Join(y) == u + ":" + (v + ":" + Join(x[1..]));
      assert |y[0]| < |x[0]|;
    } else if |x| > 2 {
      var rest := JoinTwin(x[1..], i - 1);
      y := [x[0]] + rest;
      assert y[1..] == rest;
    } else {
      var u, v := FirstColon(x[1]);
      y := [x[0] + ":" + u, v];
      assert y[1..] == [v] && x[1..] == [x[1]];
      assert |y[1]| < |x[1]|;
    }
  }

  lemma JoinHead(v: string, x: seq<string>)
    requires x != []
    ensures Join([v + ":" + x[0]] + x[1..]) == v + ":" + Join(x)
  {
    var y := [v + ":" + x[0]] + x[1..];
    assert y[1..] == x[1..];
    if |x| > 1 {
      var rest := Join(x[1..]);
      assert Join(x) == x[0] + ":" + rest && Join(y) == v + ":" + x[0] + ":" + rest;
      hide Join;
      Regroup(v, x[0], rest);
    }
  }

  function WithParts(e: Event, parts: seq<string>): Event
    requires |parts| == |Parts(e)|
  {
    if e.name == "chat.snapshot" then e.(workspaceId := parts[0], channelId := parts[1])
    else if e.name == "terminal.snapshot" then e.(workspaceId := parts[0], terminalId := parts[1])
    else if |parts| == 1 then e.(workspaceId := parts[0])
    else e.(workspaceId := parts[0], memberId := parts[1], terminalId := parts[2], channelId := parts[3])
  }

  /** No other stream's snapshot shares this one's key. */
  ghost predicate OwnsItsKey(a: Event) {
    forall b: Event | IsSnapshotEvent(b.name) && SnapshotKey(b) == SnapshotKey(a) :: SameStream(a, b)
  }

  /** A snapshot's key is its stream's own if and only if none of the ids it joins holds a
      colon, or there is only one. */
  lemma KeyIsOwnIff(a: Event)
    requires IsSnapshotEvent(a.name)
    ensures OwnsItsKey(a) <==> Plain(Parts(a)) || |Parts(a)| == 1
  {
    KeyIsJoined(a);
    if Plain(Parts(a)) || |Parts(a)| == 1 {
      forall b: Event | IsSnapshotEvent(b.name) && SnapshotKey(b) == SnapshotKey(a) ensures SameStream(a, b) {
        KeyIsJoined(b);
        SplitAtColon(a.name, Join(Parts(a)), b.name, Join(Parts(b)));
        PlainIsUnique(Parts(a), Parts(b));
        StreamsByParts(a, b);
      }
    } else {
      var i :| 0 <= i < |Parts(a)| && ':' in Parts(a)[i];
      var twin := JoinTwin(Parts(a), i);
      var b := WithParts(a, twin);
      KeyIsJoined(b);
      StreamsByParts(a, b);
      assert Parts(b) == twin && !SameStream(a, b);
    }
  }

  predicate Matches(f: Filter, e: Event) {
    && (f.workspaceId != "" ==> e.workspaceId == f.workspaceId)
    && (f.families != {} ==> EventFamily(e.name) != "" && EventFamily(e.name) in f.families)
    && (f.channelIds != {} ==> e.channelId in f.channelIds)
    && (f.terminalIds != {} ==> e.terminalId in f.terminalIds)
    && (f.memberIds != {} ==> e.memberId in f.memberIds)
  }

  /** The sequence an event carries; a cursor that does not parse reads as zero. */
  function SequenceOf(e: Event): nat {
    match ParseCursor(e.cursor)
    case Sequence(n) => n
    case Malformed => 0
  }

  // ---- the log ----

  /** The k-th event ever published carries the cursor of k. */
  ghost predicate Numbered(log: seq<Event>) {
    |log| <= MAX_UINT64 && forall k | 0 <= k < |log| :: log[k].cursor == NewCursor(k + 1)
  }

  lemma NumberedSequence(log: seq<Event>, k: nat)
    requires Numbered(log) && k < |log|
    ensures SequenceOf(log[k]) == k + 1
  {
    CursorRoundTrip(k + 1);
  }

  function Matching(f: Filter, events: seq<Event>): seq<Event>
    decreases |events|
  {
    if events == [] then []
    else
      var n := |events| - 1;
      Matching(f, events[..n]) + if Matches(f, events[n]) then [events[n]] else []
  }

  lemma {:induction false} MatchingConcat(f: Filter, a: seq<Event>, b: seq<Event>)
    ensures Matching(f, a + b) == Matching(f, a) + Matching(f, b)
    decreases |b|
  {
    if b == [] {
      assert a + b == a;
    } else {
      var n := |b| - 1;
      assert (a + b)[..|a + b| - 1] == a + b[..n];
      MatchingConcat(f, a, b[..n]);
    }
  }

  /** A filter drops what does not match, and nothing else. */
  lemma {:induction false} MatchingMembers(f: Filter, events: seq<Event>)
    ensures forall e :: e in Matching(f, events) <==> e in events && Matches(f, e)
    decreases |events|
  {
    hide Matches;
    if events != [] {
      var n := |events| - 1;
      MatchingMembers(f, events[..n]);
      assert events == events[..n] + [events[n]];
    }
  }

  /** A filter keeps the order. */
  lemma {:induction false} MatchingIncreases(f: Filter, events: seq<Event>)
    requires Increasing(events)
    ensures Increasing(Matching(f, events))
    decreases |events|
  {
    hide Matches, SequenceOf;
    if events != [] {
      var n := |events| - 1;
      var rest := events[..n];
      MatchingIncreases(f, rest);
      MatchingMembers(f, rest);
      var kept := Matching(f, rest);
      hide Matching;
      forall i | 0 <= i < |kept| ensures SequenceOf(kept[i]) < SequenceOf(events[n]) {
        assert kept[i] in kept && kept[i] in rest;
        var j :| 0 <= j < n && rest[j] == kept[i];
        assert events[j] == kept[i];
      }
    }
  }

  lemma NumberedIncreases(log: seq<Event>, from: nat)
    requires Numbered(log) && from <= |log|
    ensures Increasing(log[from..])
  {
    hide SequenceOf;
    forall k: nat | k < |log| ensures SequenceOf(log[k]) == k + 1 { NumberedSequence(log, k); }
  }

  lemma NothingMatchesNothing(f: Filter)
    ensures Matching(f, []) == []
  {
  }

  lemma MatchingFrom(f: Filter, log: seq<Event>, e: Event, from: nat)
    requires from <= |log|
    ensures Matching(f, (log + [e])[from..]) == Matching(f, log[from..]) + if Matches(f, e) then [e] else []
  {
    assert (log + [e])[from..] == log[from..] + [e];
    assert (log[from..] + [e])[..|log[from..]|] == log[from..];
  }

  lemma MatchingSplit(f: Filter, log: seq<Event>, from: nat, mid: nat)
    requires from <= mid <= |log|
    ensures Matching(f, log[from..]) == Matching(f, log[from..mid]) + Matching(f, log[mid..])
  {
    assert log[from..] == log[from..mid] + log[mid..];
    MatchingConcat(f, log[from..mid], log[mid..]);
  }

  /** The last match is an event of the log, and nothing after it matches. */
  lemma {:induction false} LastMatch(f: Filter, log: seq<Event>, from: nat, got: seq<Event>)
    requires Numbered(log) && from <= |log| && got == Matching(f, log[from..]) && got != []
    ensures from < SequenceOf(got[|got| - 1]) <= |log| && Matching(f, log[SequenceOf(got[|got| - 1])..]) == []
    decreases |log|
  {
    hide SequenceOf, Matches, NewCursor;
    if from == |log| { NothingMatchesNothing(f); }
    var n := |log| - 1;
    var rest, last := log[..n], log[n];
    assert log == rest + [last];
    MatchingFrom(f, rest, last, from);
    NumberedSequence(log, n);
    assert Numbered(rest);
    hide Matching, Numbered;
    if Matches(f, last) {
      assert log[|log|..] == [];
      NothingMatchesNothing(f);
    } else {
      LastMatch(f, rest, from, got);
      MatchingFrom(f, rest, last, SequenceOf(got[|got| - 1]));
    }
  }

  lemma QuietStretch(f: Filter, log: seq<Event>, later: seq<Event>, from: nat, q: nat)
    requires from <= |log| && q <= |log| && log <= later && Matching(f, log[q..]) == []
    ensures Matching(f, log[from..]) + Matching(f, later[q..]) == Matching(f, later[from..])
  {
    hide Matching;
    var n := |log|;
    assert later[from..n] == log[from..];
    assert later[q..n] == log[q..];
    MatchingSplit(f, later, from, n);
    MatchingSplit(f, later, q, n);
  }

  /** Whoever reconnects at the last event received misses nothing and sees nothing twice. */
  lemma ResumeIsSeamless(f: Filter, log: seq<Event>, later: seq<Event>, from: nat, q: nat)
    requires Numbered(log) && from <= |log| && log <= later
    requires Matching(f, log[from..]) != [] && q == SequenceOf(Matching(f, log[from..])[|Matching(f, log[from..])| - 1])
    ensures q <= |later| && Matching(f, log[from..]) + Matching(f, later[q..]) == Matching(f, later[from..])
  {
    hide Matching, SequenceOf;
    LastMatch(f, log, from, Matching(f, log[from..]));
    QuietStretch(f, log, later, from, q);
  }

  // ---- snapshots ----

  /** The k-th event is the last snapshot published under its key. */
  ghost predicate IsCurrent(log: seq<Event>, k: nat) {
    && k < |log| && IsSnapshotEvent(log[k].name)
    && forall j | k < j < |log| && IsSnapshotEvent(log[j].name) :: SnapshotKey(log[j]) != SnapshotKey(log[k])
  }

  /** The index holds, for each key, exactly the last snapshot ever published for it. */
  ghost predicate Indexes(index: map<string, Event>, log: seq<Event>) {
    && (forall k | k in index :: exists i: nat :: IsCurrent(log, i) && index[k] == log[i] && SnapshotKey(log[i]) == k)
    && (forall i: nat | IsCurrent(log, i) :: SnapshotKey(log[i]) in index && index[SnapshotKey(log[i])] == log[i])
  }

  /** Where no id but the last holds a colon, the current snapshots are those that no
      later snapshot of their stream replaced. */
  lemma CurrentIsLastOfStream(log: seq<Event>, k: nat)
    requires forall i | 0 <= i < |log| && IsSnapshotEvent(log[i].name) :: PlainIds(log[i])
    ensures IsCurrent(log, k) <==>
            && k < |log|
            && log[k].name in
                 {"chat.snapshot", "terminal.snapshot", "presence.snapshot", "roadmap.snapshot", "node.snapshot"}
            && forall j | k < j < |log| :: !SameStream(log[k], log[j])
  {
    hide PlainIds, SnapshotKey, SameStream;
    if k < |log| && IsSnapshotEvent(log[k].name) {
      forall j | k < j < |log|
        ensures SameStream(log[k], log[j]) <==>
                IsSnapshotEvent(log[j].name) && SnapshotKey(log[j]) == SnapshotKey(log[k])
      {
        if IsSnapshotEvent(log[j].name) {
          KeysTellStreamsApart(log[k], log[j]);
        } else {
          StreamsByParts(log[k], log[j]);
        }
      }
    }
  }

  function Index(index: map<string, Event>, e: Event): map<string, Event> {
    if IsSnapshotEvent(e.name) then index[SnapshotKey(e) := e] else index
  }

  lemma IndexFollowsLog(index: map<string, Event>, log: seq<Event>, e: Event)
    requires Indexes(index, log)
    ensures Indexes(Index(index, e), log + [e])
  {
    var after, longer := Index(index, e), log + [e];
    forall i | 0 <= i < |log| ensures IsCurrent(longer, i) <==>
      IsCurrent(log, i) && !(IsSnapshotEvent(e.name) && SnapshotKey(e) == SnapshotKey(log[i]))
    {
      assert longer[i] == log[i] && longer[|log|] == e;
      assert forall j | i < j < |log| :: longer[j] == log[j];
    }
    assert IsSnapshotEvent(e.name) ==> IsCurrent(longer, |log|);
    forall k | k in after
      ensures exists i: nat :: IsCurrent(longer, i) && after[k] == longer[i] && SnapshotKey(longer[i]) == k
    {
      if IsSnapshotEvent(e.name) && k == SnapshotKey(e) {
        assert longer[|log|] == e;
      } else {
        var i: nat :| IsCurrent(log, i) && index[k] == log[i] && SnapshotKey(log[i]) == k;
        assert longer[i] == log[i] && IsCurrent(longer, i);
      }
    }
  }

  lemma IndexedIsCurrent(index: map<string, Event>, log: seq<Event>, e: Event)
    requires Indexes(index, log)
    ensures (exists k :: k in index && index[k] == e) <==> exists i: nat :: IsCurrent(log, i) && log[i] == e
  {
    if k :| k in index && index[k] == e { assert exists i: nat :: IsCurrent(log, i) && index[k] == log[i]; }
    if i: nat :| IsCurrent(log, i) && log[i] == e { assert SnapshotKey(log[i]) in index; }
  }

  lemma DistinctKeysDistinctSequences(index: map<string, Event>, log: seq<Event>, a: string, b: string)
    requires Numbered(log) && Indexes(index, log) && a in index && b in index && a != b
    ensures SequenceOf(index[a]) != SequenceOf(index[b])
  {
    var i: nat :| IsCurrent(log, i) && index[a] == log[i] && SnapshotKey(log[i]) == a;
    var j: nat :| IsCurrent(log, j) && index[b] == log[j] && SnapshotKey(log[j]) == b;
    NumberedSequence(log, i);
    NumberedSequence(log, j);
  }

  ghost predicate Increasing(events: seq<Event>) {
    forall i, j | 0 <= i < j < |events| :: SequenceOf(events[i]) < SequenceOf(events[j])
  }

  /** The snapshot a filter asks for: its current events, oldest first. */
  ghost predicate IsSnapshot(events: seq<Event>, f: Filter, log: seq<Event>) {
    && Increasing(events)
    && forall e :: e in events <==> Matches(f, e) && exists i: nat :: IsCurrent(log, i) && log[i] == e
  }

  lemma SnapshotIsLogged(events: seq<Event>, f: Filter, log: seq<Event>)
    requires Numbered(log) && IsSnapshot(events, f, log) && events != []
    ensures SequenceOf(events[|events| - 1]) <= |log|
  {
    var e := events[|events| - 1];
    assert e in events;
    var i: nat :| IsCurrent(log, i) && log[i] == e;
    NumberedSequence(log, i);
  }

  lemma EmptyOrNot<T>(s: seq<T>)
    ensures s == [] || exists x :: x in s
  {
    assert s == [] || s[0] in s;
  }

  /** There is only one such list: the order in which a map yields its values cannot show. */
  lemma {:induction false} SnapshotIsUnique(a: seq<Event>, b: seq<Event>)
    requires Increasing(a) && Increasing(b) && forall e :: e in a <==> e in b
    ensures a == b
    decreases |a|
  {
    hide SequenceOf;
    EmptyOrNot(b);
    if a != [] {
      assert a[|a| - 1] in b;
      var m, n := |a| - 1, |b| - 1;
      assert b[n] in b;
      var i :| 0 <= i < |a| && a[i] == b[n];
      var j :| 0 <= j < |b| && b[j] == a[m];
      assert a[m] == b[n];
      forall e ensures e in a[..m] <==> e in b[..n] {
        if e in a[..m] { assert e in b; }
        if e in b[..n] { assert e in a; }
      }
      SnapshotIsUnique(a[..m], b[..n]);
    }
  }
}
