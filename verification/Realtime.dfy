/** The realtime hub: a bounded replay window, a snapshot index and live
    subscriptions, held against the log of everything ever published. */
module Realtime {
  import opened Cursors
  import opened Events

  datatype SubscribeRequest = SubscribeRequest(
    workspaceId: string, families: seq<string>, channelIds: seq<string>, terminalIds: seq<string>,
        memberIds: seq<string>,
    cursor: string)

  datatype Mode = Snapshot | Replay

  datatype SubscribeResult = SubscribeResult(
    mode: Mode, resyncRequired: bool, events: seq<Event>, latestCursor: string, subscription: Subscription)

  datatype Subscribed = Opened(result: SubscribeResult) | BadCursor | CursorAhead

  datatype Replayed = Window(events: seq<Event>) | OutsideWindow | AheadOfHead

  datatype Opening = Handed(mode: Mode, resyncRequired: bool, events: seq<Event>) | TooFar

  method ToSet(values: seq<string>) returns (s: set<string>)
    ensures s == set v | v in values && v != ""
  {
    s := {};
    for i := 0 to |values|
      invariant s == set v | v in values[..i] && v != ""
    {
      assert values[..i + 1] == values[..i] + [values[i]];
      if values[i] != "" { s := s + {values[i]}; }
    }
    assert values[..|values|] == values;
  }

  method NewFilter(req: SubscribeRequest) returns (f: Filter)
    ensures f == FilterOf(req)
  {
    var families := ToSet(req.families);
    var channels := ToSet(req.channelIds);
    var terminals := ToSet(req.terminalIds);
    var members := ToSet(req.memberIds);
    return Filter(req.workspaceId, families, channels, terminals, members);
  }

  // ---- what a request asks for ----

  /** No id listed, or this one; an empty entry lists nothing. */
  predicate Asks(ids: seq<string>, id: string) { (forall v | v in ids :: v == "") || (id != "" && id in ids) }

  /** The event is of one of the families listed, if any is. */
  predicate AsksFamily(families: seq<string>, name: string) {
    || (forall v | v in families :: v == "")
    || ("chat" in families && name in {"chat.snapshot", "chat.delta", "chat.status", "chat.updated"})
    || ("members" in families &&
        name in {"presence.snapshot", "presence.delta", "presence.status", "presence.updated"})
    || ("roadmap" in families && name in {"roadmap.snapshot", "roadmap.delta", "roadmap.status", "roadmap.updated"})
    || ("terminal" in families &&
        name in {"terminal.attach", "terminal.snapshot", "terminal.delta", "terminal.status"})
  }

  /** All that the request restricts, the event meets. */
  predicate WantedBy(req: SubscribeRequest, e: Event) {
    && (req.workspaceId == "" || e.workspaceId == req.workspaceId)
    && AsksFamily(req.families, e.name) && Asks(req.channelIds, e.channelId)
    && Asks(req.terminalIds, e.terminalId) && Asks(req.memberIds, e.memberId)
  }

  function FilterOf(req: SubscribeRequest): Filter {
    Filter(req.workspaceId,
           set v | v in req.families && v != "", set v | v in req.channelIds && v != "",
           set v | v in req.terminalIds && v != "", set v | v in req.memberIds && v != "")
  }

  lemma InSetIffAsked(ids: seq<string>, id: string)
    ensures var s := set v | v in ids && v != ""; (s != {} ==> id in s) <==> Asks(ids, id)
  {
    var s := set v | v in ids && v != "";
    if s == {} {
      forall v | v in ids ensures v == "" { assert v !in s; }
    }
  }

  lemma InFamiliesIffAsked(families: seq<string>, name: string)
    ensures var s := set v | v in families && v != "";
            (s != {} ==> EventFamily(name) != "" && EventFamily(name) in s) <==> AsksFamily(families, name)
  {
    var s := set v | v in families && v != "";
    if s == {} {
      forall v | v in families ensures v == "" { assert v !in s; }
    } else {
      var v :| v in s;
    }
  }

  /** The filter of a request lets through exactly what the request asks for. */
  lemma FilterKeepsRequest(req: SubscribeRequest, e: Event)
    ensures Matches(FilterOf(req), e) <==> WantedBy(req, e)
  {
    hide Asks, AsksFamily, EventFamily;
    InFamiliesIffAsked(req.families, e.name);
    InSetIffAsked(req.channelIds, e.channelId);
    InSetIffAsked(req.terminalIds, e.terminalId);
    InSetIffAsked(req.memberIds, e.memberId);
  }

  // ---- sorting by sequence ----

  function Insert(e: Event, events: seq<Event>): seq<Event> {
    if events == [] || SequenceOf(e) < SequenceOf(events[0]) then [e] + events
    else [events[0]] + Insert(e, events[1..])
  }

  /** The library sort, as an insertion sort. */
  function SortBySequence(events: seq<Event>): seq<Event> {
    if events == [] then [] else Insert(events[0], SortBySequence(events[1..]))
  }

  lemma {:induction false} InsertMembers(e: Event, events: seq<Event>, x: Event)
    ensures x in Insert(e, events) <==> x == e || x in events
  {
    if events != [] && SequenceOf(e) >= SequenceOf(events[0]) {
      InsertMembers(e, events[1..], x);
      assert events == [events[0]] + events[1..];
    }
  }

  lemma {:induction false} InsertKeepsIncreasing(e: Event, events: seq<Event>)
    requires Increasing(events) && forall x | x in events :: SequenceOf(x) != SequenceOf(e)
    ensures Increasing(Insert(e, events))
  {
    if events != [] && SequenceOf(e) >= SequenceOf(events[0]) {
      var rest := Insert(e, events[1..]);
      InsertKeepsIncreasing(e, events[1..]);
      forall j | 0 <= j < |rest| ensures SequenceOf(events[0]) < SequenceOf(rest[j]) {
        InsertMembers(e, events[1..], rest[j]);
      }
    }
  }

  ghost predicate AllDistinct(events: seq<Event>) {
    forall i, j | 0 <= i < j < |events| :: SequenceOf(events[i]) != SequenceOf(events[j])
  }

  lemma {:induction false} SortSorts(events: seq<Event>)
    requires AllDistinct(events)
    ensures Increasing(SortBySequence(events)) && forall x :: x in SortBySequence(events) <==> x in events
  {
    if events != [] {
      var e, rest := events[0], events[1..];
      SortSorts(rest);
      InsertKeepsIncreasing(e, SortBySequence(rest));
      forall x ensures x in SortBySequence(events) <==> x in events { InsertMembers(e, SortBySequence(rest), x); }
    }
  }

  // ---- subscriptions ----

  class Subscription {
    ghost const request: SubscribeRequest
    const filter: Filter
    /** The channel: what the hub has sent, in order. */
    var sent: seq<Event>
    var closed: bool
    var lastDelivered: nat
    var lastAcked: nat
    /** How long the log was when the subscription opened, and what it was handed then. */
    ghost var joined: nat
    ghost var first: seq<Event>
    ghost var mode: Mode
    ghost var after: nat

    constructor (filter: Filter, ghost request: SubscribeRequest)
      ensures this.filter == filter && this.request == request && sent == [] && !closed && lastDelivered == 0 &&
              lastAcked == 0
    {
      this.filter, this.request := filter, request;
      sent, closed, lastDelivered, lastAcked := [], false, 0, 0;
    }

    ghost function Received(): seq<Event> reads this { first + sent }

    /** In replay mode what was received is exactly the matching log after the cursor;
        otherwise it is the snapshot of its day followed by every later match. */
    ghost predicate Follows(log: seq<Event>) reads this {
      && filter == FilterOf(request)
      && joined <= |log| && sent == Matching(filter, log[joined..])
      && (mode.Replay? ==> after <= joined && Received() == Matching(filter, log[after..]))
      && (mode.Snapshot? ==> IsSnapshot(first, filter, log[..joined]))
      && lastDelivered == (if Received() == [] then 0 else SequenceOf(Received()[|Received()| - 1]))
      && lastAcked <= lastDelivered <= |log|
    }

    lemma Opens(log: seq<Event>)
      requires filter == FilterOf(request) && joined == |log| && sent == [] && lastAcked == 0
      requires lastDelivered == (if first == [] then 0 else SequenceOf(first[|first| - 1])) && lastDelivered <= |log|
      requires mode.Replay? ==> after <= |log| && first == Matching(filter, log[after..])
      requires mode.Snapshot? ==> IsSnapshot(first, filter, log)
      ensures Follows(log)
    {
      assert log[..|log|] == log && log[|log|..] == [];
      NothingMatchesNothing(filter);
      assert Received() == first;
    }

    /** Everything it was handed or sent is what its request asks for. On the channel, and
        from the cursor on in replay mode, are all such events, in order. */
    lemma ReceivesWhatItAskedFor(log: seq<Event>)
      requires Follows(log) && Numbered(log)
      ensures forall e | e in Received() :: WantedBy(request, e) && e in log
      ensures forall e :: e in sent <==> e in log[joined..] && WantedBy(request, e)
      ensures Increasing(sent)
      ensures mode.Replay? ==>
                Increasing(Received()) && forall e :: e in Received() <==> e in log[after..] && WantedBy(request, e)
    {
      hide Matches, WantedBy, SequenceOf, NewCursor;
      forall e ensures Matches(filter, e) <==> WantedBy(request, e) { FilterKeepsRequest(request, e); }
      MatchingMembers(filter, log[joined..]);
      NumberedIncreases(log, joined);
      MatchingIncreases(filter, log[joined..]);
      if mode.Replay? {
        MatchingMembers(filter, log[after..]);
        NumberedIncreases(log, after);
        MatchingIncreases(filter, log[after..]);
      } else {
        forall e | e in first ensures e in log {
          var i: nat :| IsCurrent(log[..joined], i) && log[..joined][i] == e;
          assert log[i] == e;
        }
      }
    }

    /** One event, sent if the request asks for it. */
    method Offer(event: Event, sequence: nat, ghost log: seq<Event>)
      requires Follows(log) && sequence == SequenceOf(event) == |log| + 1
      modifies this`sent, this`lastDelivered
      ensures Follows(log + [event])
      ensures sent == old(sent) + if WantedBy(request, event) then [event] else []
    {
      hide Matching, SequenceOf, IsSnapshot, Matches, WantedBy;
      FilterKeepsRequest(request, event);
      MatchingFrom(filter, log, event, joined);
      assert (log + [event])[..joined] == log[..joined];
      if mode.Replay? { MatchingFrom(filter, log, event, after); }
      if Matches(filter, event) {
        ghost var was := Received();
        sent := sent + [event];
        lastDelivered := sequence;
        assert Received() == was + [event];
      }
    }

    /** Acknowledges at most what was delivered; an older cursor moves the mark back. */
    method Ack(cursor: string) returns (ok: bool)
      modifies this`lastAcked
      ensures ok <==> ParseCursor(cursor).Sequence? && ParseCursor(cursor).n <= lastDelivered
      ensures lastAcked == if ok then ParseCursor(cursor).n else old(lastAcked)
      ensures forall log :: old(Follows(log)) ==> Follows(log)
    {
      var seqNo := ParseCursor(cursor);
      if seqNo.Malformed? || seqNo.n > lastDelivered { return false; }
      lastAcked := seqNo.n;
      ok := true;
    }
  }

  // ---- the hub ----

  /** What is kept of the log: its last events, and its current snapshots. */
  ghost predicate Remembers(capacity: nat, history: seq<Event>, snapshots: map<string, Event>, log: seq<Event>) {
    && Numbered(log) && Indexes(snapshots, log)
    && |history| == (if |log| < capacity then |log| else capacity)
    && history == log[|log| - |history|..]
  }

  lemma RememberedAt(capacity: nat, history: seq<Event>, snapshots: map<string, Event>, log: seq<Event>, i: nat)
    requires Remembers(capacity, history, snapshots, log) && i < |history|
    ensures |history| <= |log| && history[i] == log[|log| - |history| + i]
    ensures SequenceOf(history[i]) == |log| - |history| + i + 1
  {
    NumberedSequence(log, |log| - |history| + i);
  }

  function Trim(capacity: nat, history: seq<Event>): seq<Event> {
    if |history| > capacity then history[|history| - capacity..] else history
  }

  lemma RemembersOneMore(capacity: nat, history: seq<Event>, snapshots: map<string, Event>, log: seq<Event>, e: Event)
    requires capacity >= 1 && Remembers(capacity, history, snapshots, log)
    requires |log| < MAX_UINT64 && e.cursor == NewCursor(|log| + 1)
    ensures Remembers(capacity, Trim(capacity, history + [e]), Index(snapshots, e), log + [e])
    ensures SequenceOf(e) == |log| + 1
  {
    hide Indexes, NewCursor, ParseCursor;
    IndexFollowsLog(snapshots, log, e);
    CursorRoundTrip(|log| + 1);
    var longer, kept := log + [e], Trim(capacity, history + [e]);
    assert kept == longer[|longer| - |kept|..];
  }

  class Hub {
    const replayCapacity: nat
    var nextSequence: nat
    var history: seq<Event>
    var snapshots: map<string, Event>
    var subscribers: set<Subscription>
    /** Everything ever published. */
    ghost var log: seq<Event>

    ghost predicate Agrees() reads this {
      replayCapacity >= 1 && nextSequence == |log| && Remembers(replayCapacity, history, snapshots, log)
    }

    ghost predicate Valid()
      reads this, subscribers
    {
      Agrees() && forall sub | sub in subscribers :: !sub.closed && sub.Follows(log)
    }

    constructor (replayCapacity: int)
      ensures Valid() && log == [] && subscribers == {}
      ensures this.replayCapacity == if replayCapacity < 1 then 1 else replayCapacity
    {
      this.replayCapacity := if replayCapacity < 1 then 1 else replayCapacity;
      nextSequence, history, snapshots, subscribers, log := 0, [], map[], {}, [];
    }

    method Publish(event: Event, now: nat) returns (stored: Event)
      requires Valid() && |log| < MAX_UINT64
      modifies this, subscribers
      ensures Valid() && subscribers == old(subscribers) && log == old(log) + [stored]
      ensures stored ==
              event.(cursor := NewCursor(|log|), occurredAt := if event.occurredAt == 0 then now else event.occurredAt)
      ensures snapshots == if stored.name in
                   {"chat.snapshot", "terminal.snapshot", "presence.snapshot", "roadmap.snapshot", "node.snapshot"}
                 then old(snapshots)[SnapshotKey(stored) := stored] else old(snapshots)
      ensures forall sub | sub in subscribers ::
                && sub.sent == old(sub.sent) + (if WantedBy(sub.request, stored) then [stored] else [])
                && sub.first == old(sub.first) && sub.mode == old(sub.mode) && sub.after == old(sub.after)
    {
      hide Remembers, NewCursor, SequenceOf, Matching, Matches, IsSnapshot, WantedBy;
      nextSequence := nextSequence + 1;
      stored := event;
      if stored.occurredAt == 0 { stored := stored.(occurredAt := now); }
      stored := stored.(cursor := NewCursor(nextSequence));
      RemembersOneMore(replayCapacity, history, snapshots, log, stored);
      if IsSnapshotEvent(stored.name) { snapshots := snapshots[SnapshotKey(stored) := stored]; }
      history := history + [stored];
      if |history| > replayCapacity { history := history[|history| - replayCapacity..]; }
      ghost var before := log;
      log := log + [stored];
      Deliver(stored, before);
    }

    /** Send one event to every live subscription it matches. */
    method Deliver(event: Event, ghost before: seq<Event>)
      requires Agrees() && log == before + [event] && SequenceOf(event) == nextSequence
      requires forall sub | sub in subscribers :: !sub.closed && sub.Follows(before)
      modifies subscribers
      ensures Valid() && unchanged(this)
      ensures forall sub | sub in subscribers ::
                && sub.sent == old(sub.sent) + (if WantedBy(sub.request, event) then [event] else [])
                && sub.first == old(sub.first) && sub.mode == old(sub.mode) && sub.after == old(sub.after)
    {
      hide Matching, SequenceOf, Matches, WantedBy, Remembers, Subscription.Follows;
      var rest := subscribers;
      while rest != {}
        invariant rest <= subscribers
        invariant forall sub | sub in rest :: unchanged(sub)
        invariant forall sub | sub in subscribers - rest ::
                    && !sub.closed && sub.Follows(log)
                    && sub.sent == old(sub.sent) + (if WantedBy(sub.request, event) then [event] else [])
                    && sub.first == old(sub.first) && sub.mode == old(sub.mode) && sub.after == old(sub.after)
        decreases |rest|
      {
        var sub :| sub in rest;
        sub.Offer(event, nextSequence, before);
        rest := rest - {sub};
      }
    }

    method LatestCursor() returns (cursor: string)
      requires Valid()
      ensures ParseCursor(cursor) == Sequence(|log|)
    {
      CursorRoundTrip(nextSequence);
      cursor := NewCursor(nextSequence);
    }

    /** The matching part of the window after a cursor, if the window still reaches it. */
    method ReplayEvents(after: nat, f: Filter) returns (r: Replayed)
      requires Agrees()
      ensures r.AheadOfHead? <==> after > |log| > 0
      ensures r.Window? <==> after <= |log| && |log| - |history| <= after && (log == [] ==> after == 0)
      ensures r.Window? && log != [] ==> r.events == Matching(f, log[after..])
      ensures r.Window? && log == [] ==> r.events == []
    {
      if history == [] {
        if after == 0 { return Window([]); }
        return OutsideWindow;
      }
      hide Matching, SequenceOf, Numbered, Indexes;
      RememberedAt(replayCapacity, history, snapshots, log, 0);
      var oldest := SequenceOf(history[0]);
      if after > nextSequence { return AheadOfHead; }
      if after < oldest - 1 { return OutsideWindow; }
      var events := Scan(after, f);
      return Window(events);
    }

    method Scan(after: nat, f: Filter) returns (events: seq<Event>)
      requires Agrees() && |log| - |history| <= after <= |log|
      ensures events == Matching(f, log[after..])
    {
      hide Matching, SequenceOf, Matches, Numbered, Indexes;
      ghost var trimmed := |log| - |history|;
      events := [];
      NothingMatchesNothing(f);
      assert log[..after][after..] == [];
      for i := 0 to |history|
        invariant events == if trimmed + i <= after then [] else Matching(f, log[..trimmed + i][after..])
      {
        RememberedAt(replayCapacity, history, snapshots, log, i);
        assert log[..trimmed + i + 1] == log[..trimmed + i] + [history[i]];
        if SequenceOf(history[i]) > after {
          MatchingFrom(f, log[..trimmed + i], history[i], after);
          if Matches(f, history[i]) { events := events + [history[i]]; }
        }
      }
      assert log[..|log|] == log && log[|log|..] == [];
    }

    /** The snapshot index through a filter, oldest first, whatever order the map yields. */
    method SnapshotEvents(f: Filter) returns (events: seq<Event>)
      requires Agrees()
      ensures IsSnapshot(events, f, log)
    {
      hide Indexes, Numbered, SequenceOf, Matches;
      var found := [];
      var keys := snapshots.Keys;
      while keys != {}
        invariant keys <= snapshots.Keys
        invariant forall k | k in snapshots.Keys - keys && Matches(f, snapshots[k]) :: snapshots[k] in found
        invariant forall e | e in found :: Matches(f, e) && exists k :: k in snapshots.Keys - keys && snapshots[k] == e
        invariant AllDistinct(found)
        decreases |keys|
      {
        var key :| key in keys;
        var event := snapshots[key];
        if Matches(f, event) {
          forall i | 0 <= i < |found| ensures SequenceOf(found[i]) != SequenceOf(event) {
            assert found[i] in found;
            var k :| k in snapshots.Keys - keys && snapshots[k] == found[i];
            DistinctKeysDistinctSequences(snapshots, log, k, key);
          }
          found := found + [event];
        }
        keys := keys - {key};
      }
      SortSorts(found);
      events := SortBySequence(found);
      forall e ensures e in events <==> Matches(f, e) && exists i: nat :: IsCurrent(log, i) && log[i] == e {
        IndexedIsCurrent(snapshots, log, e);
      }
    }

    /** What a subscription is handed: the replay its cursor asks for, or else the snapshot. */
    method OpeningEvents(n: nat, f: Filter) returns (o: Opening)
      requires Agrees()
      ensures o.TooFar? <==> n > |log| > 0
      ensures o.Handed? ==>
                && (o.mode.Replay? <==> 0 < n <= |log| && |log| - |history| <= n)
                && (o.resyncRequired <==> n > 0 && (log == [] || n < |log| - |history|))
                && (o.mode.Replay? ==> o.events == Matching(f, log[n..]))
                && (o.mode.Snapshot? ==> IsSnapshot(o.events, f, log))
                && (o.events == [] || SequenceOf(o.events[|o.events| - 1]) <= |log|)
    {
      var mode, resync, events := Snapshot, false, [];
      hide Matching, IsSnapshot, SequenceOf, Numbered, Indexes;
      if n == 0 {
        events := SnapshotEvents(f);
      } else {
        var replay := ReplayEvents(n, f);
        match replay {
          case AheadOfHead => return TooFar;
          case Window(found) => mode, events := Replay, found;
          case OutsideWindow =>
            events := SnapshotEvents(f);
            resync := true;
        }
      }
      if events != [] {
        if mode.Replay? { LastMatch(f, log, n, events); } else { SnapshotIsLogged(events, f, log); }
      }
      return Handed(mode, resync, events);
    }

    /** There to be handed out: what followed the cursor, or a snapshot that still stands. */
    ghost predicate Available(mode: Mode, n: nat, e: Event) reads this {
      if mode.Replay? then n <= |log| && e in log[n..] else exists i: nat :: IsCurrent(log, i) && log[i] == e
    }

    method Subscribe(req: SubscribeRequest) returns (s: Subscribed)
      requires Valid()
      modifies this`subscribers
      ensures Valid()
      ensures forall sub | sub in old(subscribers) :: sub in subscribers
      ensures s.BadCursor? <==> ParseCursor(req.cursor).Malformed?
      ensures !s.BadCursor? ==> (s.CursorAhead? <==> ParseCursor(req.cursor).n > |log| > 0)
      ensures !s.Opened? ==> subscribers == old(subscribers)
      ensures s.Opened? ==>
                var r, n := s.result, ParseCursor(req.cursor).n;
                && fresh(r.subscription) && subscribers == old(subscribers) + {r.subscription}
                && (r.mode.Replay? <==> 0 < n <= |log| && |log| - |history| <= n)
                && (r.resyncRequired <==> n > 0 && (log == [] || n < |log| - |history|))
                && (r.mode.Replay? ==>
                    r.events == Matching(r.subscription.filter, log[n..]) && r.subscription.after == n)
                && (r.mode.Snapshot? ==> IsSnapshot(r.events, r.subscription.filter, log))
                && r.subscription.mode == r.mode && r.subscription.first == r.events && r.subscription.joined == |log|
                && r.latestCursor == if r.events == [] then NewCursor(|log|) else r.events[|r.events| - 1].cursor
      ensures s.Opened? ==>
                && s.result.subscription.request == req && Increasing(s.result.events)
                && forall e :: e in s.result.events <==>
                     WantedBy(req, e) && Available(s.result.mode, ParseCursor(req.cursor).n, e)
    {
      hide Matching, IsSnapshot, Matches, WantedBy, Remembers, ParseCursor, NewCursor, SequenceOf,
        Subscription.Follows;
      var filter := NewFilter(req);
      var sub := new Subscription(filter, req);
      subscribers := subscribers + {sub};
      var parsed := ParseCursor(req.cursor);
      if parsed.Malformed? {
        subscribers := subscribers - {sub};
        return BadCursor;
      }
      var opening := OpeningEvents(parsed.n, filter);
      if opening.TooFar? {
        subscribers := subscribers - {sub};
        return CursorAhead;
      }
      var latest, events := NewCursor(nextSequence), opening.events;
      if events != [] {
        sub.lastDelivered := SequenceOf(events[|events| - 1]);
        latest := events[|events| - 1].cursor;
      }
      sub.joined, sub.first, sub.mode, sub.after := |log|, events, opening.mode, parsed.n;
      sub.Opens(log);
      HandedAsAsked(req, events, opening.mode, parsed.n);
      return Opened(SubscribeResult(opening.mode, opening.resyncRequired, events, latest, sub));
    }

    lemma HandedAsAsked(req: SubscribeRequest, events: seq<Event>, mode: Mode, n: nat)
      requires Agrees() && (mode.Replay? ==> n <= |log| && events == Matching(FilterOf(req), log[n..]))
      requires mode.Snapshot? ==> IsSnapshot(events, FilterOf(req), log)
      ensures Increasing(events)
      ensures forall e :: e in events <==> WantedBy(req, e) && Available(mode, n, e)
    {
      hide Matches, WantedBy, SequenceOf;
      forall e ensures Matches(FilterOf(req), e) <==> WantedBy(req, e) { FilterKeepsRequest(req, e); }
      if mode.Replay? {
        MatchingMembers(FilterOf(req), log[n..]);
        NumberedIncreases(log, n);
        MatchingIncreases(FilterOf(req), log[n..]);
      }
    }

    method Unsubscribe(sub: Subscription)
      requires Valid()
      modifies this`subscribers, sub`closed
      ensures Valid() && subscribers == old(subscribers) - {sub}
      ensures sub.closed == (old(sub.closed) || sub in old(subscribers))
    {
      hide Remembers, Subscription.Follows;
      if sub in subscribers {
        subscribers := subscribers - {sub};
        sub.closed := true;
      }
    }
  }
}
