/** When a sweep loses nobody, read off the listing before it starts. */
module Sweeps {
  import opened Options
  import opened Strings
  import opened Fleets
  import opened Migrations

  // ---- places in front of a node ----

  /** How many agents a node carries at most while it is still lighter than `j`. */
  function Top(m: Node, j: Node): int {
    var level := |j.agents| + if Before(m.id, j.id) then 1 else 0;
    if m.maxAgents == 0 || level < m.maxAgents then level else m.maxAgents
  }

  /** The agents a node takes before it is the turn of `j`; due nodes are not counted on. */
  ghost function Slots(m: Node, j: Node, due: set<string>): nat {
    if m.id in due || !m.status.Online? || Top(m, j) <= |m.agents| then 0 else Top(m, j) - |m.agents|
  }

  ghost function SlotsBefore(j: Node, due: set<string>): Node -> nat { n => Slots(n, j, due) }

  ghost predicate Untouched(a: Fleet, b: Fleet, due: set<string>) {
    forall id | id in due && id in a :: id in b && b[id] == a[id]
  }

  /** A placement outside the due nodes takes one place in front of every due node. */
  lemma PlaceTakesASlot(fleet: Fleet, exclude: string, ids: seq<string>, t: string, agent: string, j: string,
      due: set<string>)
    requires Keyed(fleet) && Lists(ids, fleet) && IsTarget(fleet, exclude, t) && t !in due
    requires j in due && j in fleet && Eligible(fleet[j], exclude) && Lists(ids, Place(fleet, t, agent))
    ensures Total(Place(fleet, t, agent), ids, SlotsBefore(fleet[j], due)) ==
            Total(fleet, ids, SlotsBefore(fleet[j], due)) - 1
  {
    TotalAfterChange(fleet, Place(fleet, t, agent), ids, t, SlotsBefore(fleet[j], due));
    assert Lighter(fleet[t], fleet[j]);
  }

  /** A due node is only chosen once there is no place left in front of it. */
  lemma ChosenHasNoSlots(fleet: Fleet, exclude: string, ids: seq<string>, t: string, due: set<string>)
    requires Keyed(fleet) && Lists(ids, fleet) && IsTarget(fleet, exclude, t) && t in due && exclude in due
    ensures Total(fleet, ids, SlotsBefore(fleet[t], due)) == 0
  {
    forall i | 0 <= i < |ids| ensures SlotsBefore(fleet[t], due)(fleet[ids[i]]) == 0 {
      var m := fleet[ids[i]];
      if m.id !in due && m.status.Online? {
        BeforeIsTotal(m.id, fleet[t].id);
        if m.CanAcceptAgent() { assert Lighter(fleet[t], m); }
      }
    }
    TotalIsZeroIff(fleet, ids, SlotsBefore(fleet[t], due));
  }

  /** Every due node that could take an agent has that many places in front of it. */
  ghost predicate Enough(fleet: Fleet, exclude: string, ids: seq<string>, due: set<string>, n: nat)
    requires Lists(ids, fleet)
  {
    forall j | j in due && j in fleet && Eligible(fleet[j], exclude) ::
        n <= Total(fleet, ids, SlotsBefore(fleet[j], due))
  }

  ghost predicate Taken(a: Fleet, b: Fleet, exclude: string, ids: seq<string>, due: set<string>, n: nat)
    requires Lists(ids, a) && Lists(ids, b)
  {
    forall j | j in due && j in a && Eligible(a[j], exclude) ::
      Total(b, ids, SlotsBefore(a[j], due)) == Total(a, ids, SlotsBefore(a[j], due)) - n
  }

  /** Placing agents one by one touches no due node exactly when there is a place in
      front of each of them for all the agents; and then all those places are taken. */
  lemma {:induction false} SettleSparesDueIff(fleet: Fleet, exclude: string, agents: seq<string>, ids: seq<string>,
      due: set<string>)
    requires Keyed(fleet) && Lists(ids, fleet) && exclude in due
    ensures var after := Settle(fleet, exclude, agents).fleet;
            && Keyed(after) && Lists(ids, after)
            && (Untouched(fleet, after, due) <==> Enough(fleet, exclude, ids, due, |agents|))
            && (Untouched(fleet, after, due) ==> Taken(fleet, after, exclude, ids, due, |agents|))
    decreases |agents|
  {
    SettleKeepsListing(fleet, exclude, agents, ids);
    if agents != [] {
      var init, last := agents[..|agents| - 1], agents[|agents| - 1];
      SettleSparesDueIff(fleet, exclude, init, ids, due);
      OneMore(fleet, exclude, agents);
      SettleGrows(fleet, exclude, init);
      SettleGrows(fleet, exclude, agents);
      var before, after := Settle(fleet, exclude, init).fleet, Settle(fleet, exclude, agents).fleet;
      TargetDecided(before, exclude);
      hide Settle, Target, Lists;
      if !Untouched(fleet, before, due) {
        TouchedStaysTouched(fleet, before, after, due);
      } else if Target(before, exclude).Some? {
        PlacingAmongDue(fleet, before, exclude, ids, Target(before, exclude).value, last, due, |init|);
      }
    }
  }

  lemma TouchedStaysTouched(a: Fleet, b: Fleet, c: Fleet, due: set<string>)
    requires FleetGrew(a, b) && FleetGrew(a, c) && !Untouched(a, b, due)
    requires b == c || exists t, agent :: t in b && c == Place(b, t, agent)
    ensures !Untouched(a, c, due)
  {
    var id :| id in due && id in a && !(id in b && b[id] == a[id]);
    assert Grew(a[id], b[id]) && Grew(a[id], c[id]);
    GrewMore(a[id], b[id]);
  }

  lemma GrewMore(m: Node, n: Node)
    requires Grew(m, n) && m != n
    ensures |n.agents| > |m.agents|
  {
    EqualPrefix(m.agents, n.agents);
  }

  lemma EqualPrefix(a: seq<string>, b: seq<string>)
    requires a <= b
    ensures |a| == |b| <==> a == b
  {
  }

  lemma PlacingAmongDue(
    a: Fleet, b: Fleet, exclude: string, ids: seq<string>, t: string, agent: string, due: set<string>, n: nat)
    requires Keyed(b) && IsTarget(b, exclude, t) && exclude in due
    requires Lists(ids, a) && Lists(ids, b) && Lists(ids, Place(b, t, agent)) && a.Keys == b.Keys
    requires Untouched(a, b, due) && Enough(a, exclude, ids, due, n) && Taken(a, b, exclude, ids, due, n)
    ensures var c := Place(b, t, agent);
            && (Untouched(a, c, due) <==> Enough(a, exclude, ids, due, n + 1))
            && (Untouched(a, c, due) ==> Taken(a, c, exclude, ids, due, n + 1))
  {
    var c := Place(b, t, agent);
    if t in due {
      ChosenHasNoSlots(b, exclude, ids, t, due);
      assert a[t] == b[t] && |c[t].agents| > |a[t].agents|;
      assert Total(a, ids, SlotsBefore(a[t], due)) == n;
    } else {
      forall j | j in due && j in a && Eligible(a[j], exclude)
        ensures Total(c, ids, SlotsBefore(a[j], due)) == Total(a, ids, SlotsBefore(a[j], due)) - (n + 1)
      {
        PlaceTakesASlot(b, exclude, ids, t, agent, j, due);
      }
    }
  }

  // ---- the whole sweep ----

  function DueIds(nodes: seq<Node>, now: int): set<string> {
    if nodes == [] then {} else (if Due(nodes[0], now) then {nodes[0].id} else {}) + DueIds(nodes[1..], now)
  }

  /** The agents on the due nodes of a listing. */
  function Carried(nodes: seq<Node>, now: int): nat {
    if nodes == [] then 0 else (if Due(nodes[0], now) then |nodes[0].agents| else 0) + Carried(nodes[1..], now)
  }

  /** In front of every due node that could take an agent, the other nodes have places
      for all the agents of the due nodes listed before it. */
  ghost predicate RoomAhead(fleet: Fleet, nodes: seq<Node>, ids: seq<string>, now: int)
    requires Lists(ids, fleet)
  {
    forall j | 0 <= j < |nodes| && Due(nodes[j], now) && nodes[j].CanAcceptAgent() ::
      Carried(nodes[..j], now) <= Total(fleet, ids, SlotsBefore(nodes[j], DueIds(nodes, now)))
  }

  /** The due records of a listing are those stored. */
  ghost predicate DueAreCurrent(fleet: Fleet, nodes: seq<Node>, now: int) {
    && (forall i, j | 0 <= i < j < |nodes| :: nodes[i].id != nodes[j].id)
    && forall i | 0 <= i < |nodes| && Due(nodes[i], now) :: nodes[i].id in fleet && fleet[nodes[i].id] == nodes[i]
  }

  lemma {:induction false} InDueIds(nodes: seq<Node>, now: int, id: string)
    ensures id in DueIds(nodes, now) <==> exists i :: 0 <= i < |nodes| && Due(nodes[i], now) && nodes[i].id == id
  {
    if nodes != [] {
      InDueIds(nodes[1..], now, id);
      if i :| 0 <= i < |nodes[1..]| && Due(nodes[1..][i], now) && nodes[1..][i].id == id {
        assert nodes[i + 1] == nodes[1..][i];
      }
      if i :| 0 <= i < |nodes| && Due(nodes[i], now) && nodes[i].id == id {
        if i > 0 { assert nodes[1..][i - 1] == nodes[i]; }
      }
    }
  }

  lemma CarriedOneMore(nodes: seq<Node>, now: int, j: nat)
    requires 0 < j <= |nodes|
    ensures Carried(nodes[..j], now) == (if Due(nodes[0], now) then |nodes[0].agents| else 0) +
            Carried(nodes[1..][..j - 1], now)
  {
    assert nodes[..j][1..] == nodes[1..][..j - 1];
  }

  lemma {:induction false} TotalSame(
    a: Fleet, b: Fleet, ids: seq<string>, v: Node -> nat, w: Node -> nat)
    requires forall i | 0 <= i < |ids| :: ids[i] in a && ids[i] in b && v(a[ids[i]]) == w(b[ids[i]])
    ensures Total(a, ids, v) == Total(b, ids, w)
  {
    if ids != [] { TotalSame(a, b, ids[1..], v, w); }
  }

  /** A due node that has gained an agent is overwritten at its turn, if not before. */
  lemma {:induction false} GainIsNotCurrent(fleet: Fleet, nodes: seq<Node>, now: int, j: nat)
    requires Placed(fleet) && Listed(fleet, nodes) && j < |nodes| && Due(nodes[j], now)
    requires fleet[nodes[j].id].agents != nodes[j].agents
    ensures !CurrentInTurn(fleet, nodes, now)
    decreases |nodes|
  {
    if j > 0 {
      TurnKeepsListed(fleet, nodes);
      assert nodes[1..][j - 1] == nodes[j];
      if Due(nodes[0], now) {
        var next := Migrate(fleet, Offlined(nodes[0]));
        TurnLosesTheGains(fleet, nodes[0]);
        OthersOnlyGain(fleet, Offlined(nodes[0]), nodes[j]);
        GainIsNotCurrent(next, nodes[1..], now, j - 1);
      } else {
        GainIsNotCurrent(fleet, nodes[1..], now, j - 1);
      }
    }
  }

  lemma OthersOnlyGain(fleet: Fleet, source: Node, n: Node)
    requires Keyed(fleet) && source.id in fleet && n.id in fleet && n.id != source.id && Grew(n, fleet[n.id])
    requires fleet[n.id].agents != n.agents
    ensures n.id in Migrate(fleet, source) && Migrate(fleet, source)[n.id].agents != n.agents
  {
    SettleGrows(Emptied(fleet, source), source.id, source.agents);
    assert |fleet[n.id].agents| > |n.agents|;
  }

  /** Migrating the first record gives no due node an agent. */
  ghost predicate TurnSpares(fleet: Fleet, nodes: seq<Node>, now: int)
    requires nodes != []
  {
    var source := Offlined(nodes[0]);
    var e := Emptied(fleet, source);
    Untouched(e, Settle(e, source.id, source.agents).fleet, DueIds(nodes, now))
  }

  /** The turn of the first due node, if it spares the others. */
  lemma SparingTurn(fleet: Fleet, nodes: seq<Node>, ids: seq<string>, now: int, j: nat)
    requires Placed(fleet) && Lists(ids, fleet) && DueAreCurrent(fleet, nodes, now)
    requires 0 < j < |nodes| && Due(nodes[0], now) && Due(nodes[j], now) && nodes[j].CanAcceptAgent()
    requires TurnSpares(fleet, nodes, now)
    ensures var next := Migrate(fleet, Offlined(nodes[0]));
            && Lists(ids, next)
            && Total(next, ids, SlotsBefore(nodes[j], DueIds(nodes[1..], now))) ==
               Total(fleet, ids, SlotsBefore(nodes[j], DueIds(nodes, now))) - |nodes[0].agents|
  {
    var source, due, rest := Offlined(nodes[0]), DueIds(nodes, now), DueIds(nodes[1..], now);
    var e := Emptied(fleet, source);
    var after, next := Settle(e, source.id, source.agents).fleet, Migrate(fleet, source);
    EmptiedHouses(fleet, source, "");
    FirstIsDue(nodes, now);
    InDueIds(nodes, now, nodes[j].id);
    SettleSparesDueIff(e, source.id, source.agents, ids, due);
    SettleGrows(e, source.id, source.agents);
    assert Eligible(e[nodes[j].id], source.id);
    EmptiedKeepsSlots(fleet, source, ids, nodes[j], due);
    SourceHasNoSlots(after, next, nodes, ids, nodes[j], now);
  }

  /** Back from its own turn, offline, a node has no more places than it had while due. */
  lemma SourceHasNoSlots(after: Fleet, next: Fleet, nodes: seq<Node>, ids: seq<string>, j: Node, now: int)
    requires nodes != [] && Due(nodes[0], now) && Keyed(after) && Lists(ids, after)
    requires nodes[0].id in after && next.Keys == after.Keys && next[nodes[0].id].status.Offline?
    requires forall id | id in after && id != nodes[0].id :: next[id] == after[id]
    ensures Lists(ids, next)
    ensures Total(next, ids, SlotsBefore(j, DueIds(nodes[1..], now))) ==
            Total(after, ids, SlotsBefore(j, DueIds(nodes, now)))
  {
    var due, rest := DueIds(nodes, now), DueIds(nodes[1..], now);
    forall i | 0 <= i < |ids| ensures SlotsBefore(j, due)(after[ids[i]]) == SlotsBefore(j, rest)(next[ids[i]]) {
      if ids[i] != nodes[0].id { assert after[ids[i]].id == ids[i] && (ids[i] in due <==> ids[i] in rest); }
    }
    TotalSame(after, next, ids, SlotsBefore(j, due), SlotsBefore(j, rest));
  }

  /** The turn of the first due node, if it does not: there was too little room ... */
  lemma HarmingTurnLacksRoom(fleet: Fleet, nodes: seq<Node>, ids: seq<string>, now: int)
    requires Placed(fleet) && Lists(ids, fleet) && DueAreCurrent(fleet, nodes, now)
    requires nodes != [] && Due(nodes[0], now)
    requires !TurnSpares(fleet, nodes, now)
    ensures !RoomAhead(fleet, nodes, ids, now)
  {
    TurnSparesIff(fleet, nodes, ids, now);
    var source, due := Offlined(nodes[0]), DueIds(nodes, now);
    var e := Emptied(fleet, source);
    hide TurnSpares, Placed, DueIds, Slots, RoomAhead, Listed;
    var k :| k in due && k in e && Eligible(e[k], source.id) && |source.agents| > Total(e, ids, SlotsBefore(e[k], due));
    assert source.id in due by { FirstIsDue(nodes, now); }
    EmptiedKeepsSlots(fleet, source, ids, e[k], due);
    LackOfRoom(fleet, nodes, ids, now, k);
  }

  lemma TurnSparesIff(fleet: Fleet, nodes: seq<Node>, ids: seq<string>, now: int)
    requires Placed(fleet) && Lists(ids, fleet) && nodes != [] && Due(nodes[0], now) && nodes[0].id in fleet
    ensures var source := Offlined(nodes[0]);
            Lists(ids, Emptied(fleet, source)) &&
            (TurnSpares(fleet, nodes, now) <==>
             Enough(Emptied(fleet, source), source.id, ids, DueIds(nodes, now), |source.agents|))
  {
    var source := Offlined(nodes[0]);
    EmptiedHouses(fleet, source, "");
    FirstIsDue(nodes, now);
    SettleSparesDueIff(Emptied(fleet, source), source.id, source.agents, ids, DueIds(nodes, now));
  }

  lemma FirstIsDue(nodes: seq<Node>, now: int)
    requires nodes != [] && Due(nodes[0], now)
    ensures nodes[0].id in DueIds(nodes, now)
  {
  }

  lemma EmptiedKeepsSlots(fleet: Fleet, source: Node, ids: seq<string>, j: Node, due: set<string>)
    requires Keyed(fleet) && source.id in fleet && source.id in due && Lists(ids, fleet) &&
             Lists(ids, Emptied(fleet, source))
    ensures Total(Emptied(fleet, source), ids, SlotsBefore(j, due)) == Total(fleet, ids, SlotsBefore(j, due))
  {
    TotalAfterChange(fleet, Emptied(fleet, source), ids, source.id, SlotsBefore(j, due));
  }

  lemma LackOfRoom(fleet: Fleet, nodes: seq<Node>, ids: seq<string>, now: int, k: string)
    requires Lists(ids, fleet) && DueAreCurrent(fleet, nodes, now) && nodes != [] && Due(nodes[0], now)
    requires k in DueIds(nodes, now) && k != nodes[0].id && k in fleet && fleet[k].CanAcceptAgent()
    requires |nodes[0].agents| > Total(fleet, ids, SlotsBefore(fleet[k], DueIds(nodes, now)))
    ensures !RoomAhead(fleet, nodes, ids, now)
  {
    InDueIds(nodes, now, k);
    var j :| 0 <= j < |nodes| && Due(nodes[j], now) && nodes[j].id == k;
    CarriedOneMore(nodes, now, j);
    assert nodes[j] == fleet[k];
    assert Carried(nodes[..j], now) > Total(fleet, ids, SlotsBefore(nodes[j], DueIds(nodes, now)));
  }

  /** ... and whoever gained is not current at its own turn. */
  lemma HarmingTurnIsNotCurrent(fleet: Fleet, nodes: seq<Node>, now: int)
    requires Placed(fleet) && DueAreCurrent(fleet, nodes, now) && Listed(fleet, nodes)
    requires nodes != [] && Due(nodes[0], now)
    requires !TurnSpares(fleet, nodes, now)
    ensures !CurrentInTurn(fleet, nodes, now)
  {
    var source, due := Offlined(nodes[0]), DueIds(nodes, now);
    var e := Emptied(fleet, source);
    var after, next := Settle(e, source.id, source.agents).fleet, Migrate(fleet, source);
    EmptiedHouses(fleet, source, "");
    SettleGrows(e, source.id, source.agents);
    TurnKeepsListed(fleet, nodes);
    TurnLosesTheGains(fleet, nodes[0]);
    hide Placed, Settle, DueIds;
    var h :| h in due && h in e && !(h in after && after[h] == e[h]);
    InDueIds(nodes, now, h);
    var i :| 0 <= i < |nodes| && Due(nodes[i], now) && nodes[i].id == h;
    GrewMore(e[h], after[h]);
    assert i > 0 && nodes[1..][i - 1] == nodes[i];
    GainIsNotCurrent(next, nodes[1..], now, i - 1);
  }

  /** The records still to be swept stay current through a turn that spares them. */
  lemma SparedStayCurrent(fleet: Fleet, nodes: seq<Node>, now: int)
    requires Placed(fleet) && DueAreCurrent(fleet, nodes, now) && nodes != [] && Due(nodes[0], now)
    requires TurnSpares(fleet, nodes, now)
    ensures DueAreCurrent(Migrate(fleet, Offlined(nodes[0])), nodes[1..], now)
  {
    var next := Migrate(fleet, Offlined(nodes[0]));
    forall i | 0 <= i < |nodes[1..]| && Due(nodes[1..][i], now)
      ensures nodes[1..][i].id in next && next[nodes[1..][i].id] == nodes[1..][i]
    {
      assert nodes[1..][i] == nodes[i + 1];
      InDueIds(nodes, now, nodes[i + 1].id);
    }
  }

  /** A sweep finds every record as it was listed exactly when there is room ahead of
      every due node: a condition on the listing and the fleet it was taken from. */
  lemma {:induction false} CurrentIffRoomAhead(fleet: Fleet, nodes: seq<Node>, ids: seq<string>, now: int)
    requires Placed(fleet) && Lists(ids, fleet) && DueAreCurrent(fleet, nodes, now) && Listed(fleet, nodes)
    ensures CurrentInTurn(fleet, nodes, now) <==> RoomAhead(fleet, nodes, ids, now)
    decreases |nodes|
  {
    if nodes != [] {
      TurnKeepsListed(fleet, nodes);
      var source := Offlined(nodes[0]);
      if !Due(nodes[0], now) {
        RestAreCurrent(fleet, nodes, now);
        CurrentIffRoomAhead(fleet, nodes[1..], ids, now);
        IdleFirst(fleet, nodes, ids, now);
      } else if TurnSpares(fleet, nodes, now) {
        TurnLosesTheGains(fleet, nodes[0]);
        SparedStayCurrent(fleet, nodes, now);
        SparedListing(fleet, nodes, ids, now);
        CurrentIffRoomAhead(Migrate(fleet, source), nodes[1..], ids, now);
        DueFirst(fleet, nodes, ids, now);
      } else {
        HarmingTurnLacksRoom(fleet, nodes, ids, now);
        HarmingTurnIsNotCurrent(fleet, nodes, now);
      }
    }
  }

  lemma RestAreCurrent(fleet: Fleet, nodes: seq<Node>, now: int)
    requires DueAreCurrent(fleet, nodes, now) && nodes != []
    ensures DueAreCurrent(fleet, nodes[1..], now)
  {
    assert forall i | 0 <= i < |nodes[1..]| :: nodes[1..][i] == nodes[i + 1];
  }

  lemma SparedListing(fleet: Fleet, nodes: seq<Node>, ids: seq<string>, now: int)
    requires Placed(fleet) && Lists(ids, fleet) && nodes != [] && nodes[0].id in fleet
    ensures Lists(ids, Migrate(fleet, Offlined(nodes[0])))
  {
    MigrationKeepsNodes(fleet, Offlined(nodes[0]));
  }

  lemma IdleFirst(fleet: Fleet, nodes: seq<Node>, ids: seq<string>, now: int)
    requires Lists(ids, fleet) && nodes != [] && !Due(nodes[0], now)
    ensures RoomAhead(fleet, nodes, ids, now) <==> RoomAhead(fleet, nodes[1..], ids, now)
  {
    forall j: nat | 0 < j < |nodes|
      ensures nodes[j] == nodes[1..][j - 1] && Carried(nodes[..j], now) == Carried(nodes[1..][..j - 1], now)
    {
      CarriedOneMore(nodes, now, j);
    }
    var rest := nodes[1..];
    assert DueIds(nodes, now) == DueIds(rest, now);
    hide DueIds, Carried;
    if RoomAhead(fleet, nodes, ids, now) {
      forall i | 0 <= i < |rest| && Due(rest[i], now) && rest[i].CanAcceptAgent()
        ensures Carried(rest[..i], now) <= Total(fleet, ids, SlotsBefore(rest[i], DueIds(rest, now)))
      {
        assert nodes[i + 1] == rest[i];
      }
    }
    if RoomAhead(fleet, rest, ids, now) {
      forall j | 0 <= j < |nodes| && Due(nodes[j], now) && nodes[j].CanAcceptAgent()
        ensures Carried(nodes[..j], now) <= Total(fleet, ids, SlotsBefore(nodes[j], DueIds(nodes, now)))
      {
        assert rest[j - 1] == nodes[j];
      }
    }
  }

  lemma DueFirst(fleet: Fleet, nodes: seq<Node>, ids: seq<string>, now: int)
    requires Placed(fleet) && Lists(ids, fleet) && DueAreCurrent(fleet, nodes, now) && nodes != [] && Due(nodes[0], now)
    requires Lists(ids, Migrate(fleet, Offlined(nodes[0])))
    requires TurnSpares(fleet, nodes, now)
    ensures RoomAhead(fleet, nodes, ids, now) <==> RoomAhead(Migrate(fleet, Offlined(nodes[0])), nodes[1..], ids, now)
  {
    var next, rest := Migrate(fleet, Offlined(nodes[0])), nodes[1..];
    forall j: nat | 0 < j < |nodes| && Due(nodes[j], now) && nodes[j].CanAcceptAgent()
      ensures nodes[j] == rest[j - 1] && Carried(nodes[..j], now) == |nodes[0].agents| + Carried(rest[..j - 1], now)
      ensures Total(next, ids, SlotsBefore(rest[j - 1], DueIds(rest, now))) ==
              Total(fleet, ids, SlotsBefore(nodes[j], DueIds(nodes, now))) - |nodes[0].agents|
    {
      CarriedOneMore(nodes, now, j);
      SparingTurn(fleet, nodes, ids, now, j);
    }
    hide Migrate, Untouched, Settle;
    if RoomAhead(fleet, nodes, ids, now) {
      forall i | 0 <= i < |rest| && Due(rest[i], now) && rest[i].CanAcceptAgent()
        ensures Carried(rest[..i], now) <= Total(next, ids, SlotsBefore(rest[i], DueIds(rest, now)))
      {
        assert nodes[i + 1] == rest[i];
      }
    }
    if RoomAhead(next, rest, ids, now) {
      forall j | 0 <= j < |nodes| && Due(nodes[j], now) && nodes[j].CanAcceptAgent()
        ensures Carried(nodes[..j], now) <= Total(fleet, ids, SlotsBefore(nodes[j], DueIds(nodes, now)))
      {
        if j > 0 { assert rest[j - 1] == nodes[j]; }
      }
    }
  }

  // ---- read off the listing ----

  function Ids(nodes: seq<Node>): seq<string> { seq(|nodes|, i requires 0 <= i < |nodes| => nodes[i].id) }

  lemma ListingLists(fleet: Fleet, nodes: seq<Node>, now: int)
    requires Listing(nodes, fleet)
    ensures Lists(Ids(nodes), fleet) && DueAreCurrent(fleet, nodes, now) && Listed(fleet, nodes)
  {
    forall id | id in fleet ensures id in Ids(nodes) {
      var i :| 0 <= i < |nodes| && nodes[i].id == id;
      assert Ids(nodes)[i] == id;
    }
  }

  /** A sweep keeps every agent if and only if, in front of every due node that could
      take one, the nodes that are not due have places for all the agents of the due
      nodes before it in the listing. */
  lemma SweepConservesIffRoom(fleet: Fleet, nodes: seq<Node>, now: int)
    requires Placed(fleet) && Listing(nodes, fleet)
    ensures Lists(Ids(nodes), fleet)
    ensures (forall a :: Houses(fleet, a) ==> Houses(Sweep(fleet, nodes, now), a)) <==>
            RoomAhead(fleet, nodes, Ids(nodes), now)
  {
    ListingLists(fleet, nodes, now);
    SweepConservesIff(fleet, nodes, now);
    CurrentIffRoomAhead(fleet, nodes, Ids(nodes), now);
  }

  /** In particular, when among any two due nodes the earlier carries nothing or the
      later can take nothing; and so whenever only one is due. */
  lemma IdleExpiriesAreSafe(fleet: Fleet, nodes: seq<Node>, now: int)
    requires Placed(fleet) && Listing(nodes, fleet)
    requires forall i, j | 0 <= i < j < |nodes| && Due(nodes[i], now) && Due(nodes[j], now) ::
               nodes[i].agents == [] || !nodes[j].CanAcceptAgent()
    ensures forall a :: Houses(fleet, a) ==> Houses(Sweep(fleet, nodes, now), a)
  {
    SweepConservesIffRoom(fleet, nodes, now);
    forall j | 0 <= j < |nodes| && Due(nodes[j], now) && nodes[j].CanAcceptAgent()
      ensures Carried(nodes[..j], now) == 0
    {
      NothingCarried(nodes[..j], now);
    }
  }

  lemma {:induction false} NothingCarried(nodes: seq<Node>, now: int)
    requires forall i | 0 <= i < |nodes| && Due(nodes[i], now) :: nodes[i].agents == []
    ensures Carried(nodes, now) == 0
  {
    if nodes != [] { NothingCarried(nodes[1..], now); }
  }
}
