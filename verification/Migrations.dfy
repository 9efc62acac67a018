/** What moving the agents of an offline node away is for: nobody is lost, nobody
    waits while there is room, and the load stays level. */
module Migrations {
  import opened Options
  import opened Strings
  import opened Fleets

  // ---- conservation ----

  lemma EmptiedHouses(fleet: Fleet, source: Node, a: string)
    requires Placed(fleet) && source.id in fleet
    ensures Placed(Emptied(fleet, source))
    ensures Houses(Emptied(fleet, source), a) <==> Houses(fleet, a) && a !in fleet[source.id].agents
  {
    var e := Emptied(fleet, source);
    if id :| id in fleet && a in fleet[id].agents && a !in fleet[source.id].agents { assert a in e[id].agents; }
    if id :| id in e && a in e[id].agents { assert a in fleet[id].agents; }
  }

  /** After any migration the housed agents are those housed elsewhere and those carried along. */
  lemma MigrationHouses(fleet: Fleet, source: Node, a: string)
    requires Placed(fleet) && source.id in fleet
    ensures Houses(Migrate(fleet, source), a) <==>
            (Houses(fleet, a) && a !in fleet[source.id].agents) || a in source.agents
  {
    var e := Emptied(fleet, source);
    EmptiedHouses(fleet, source, a);
    SettleGrows(e, source.id, source.agents);
    SettleConserves(e, source.id, source.agents);
    var s, after := Settle(e, source.id, source.agents), Migrate(fleet, source);
    if id :| id in s.fleet && a in s.fleet[id].agents { assert a in after[id].agents; }
    if a in s.unplaced { assert a in after[source.id].agents; }
    if id :| id in after && a in after[id].agents {
      if id != source.id { assert a in s.fleet[id].agents; }
    }
  }

  /** Migrating the stored record keeps every agent, each on exactly one node. */
  lemma MigrationConserves(fleet: Fleet, source: Node)
    requires Placed(fleet) && source.id in fleet && source == fleet[source.id].(status := source.status)
    ensures Placed(Migrate(fleet, source))
    ensures forall a :: Houses(Migrate(fleet, source), a) <==> Houses(fleet, a)
  {
    var e := Emptied(fleet, source);
    forall a ensures Houses(Migrate(fleet, source), a) <==> Houses(fleet, a) {
      MigrationHouses(fleet, source, a);
      assert a in source.agents ==> Houses(fleet, a);
    }
    forall a | a in source.agents ensures !Houses(e, a) { EmptiedHouses(fleet, source, a); }
    EmptiedHouses(fleet, source, "");
    SettleGrows(e, source.id, source.agents);
    SettleKeepsPlaced(e, source.id, source.agents);
    ReturnKeepsPlaced(Settle(e, source.id, source.agents), source);
  }

  lemma ReturnKeepsPlaced(s: Settled, source: Node)
    requires Placed(s.fleet) && Distinct(s.unplaced) && NoneHoused(s.fleet, s.unplaced)
    requires source.maxAgents > 0 ==> |s.unplaced| <= source.maxAgents
    ensures Placed(s.fleet[source.id := source.(agents := s.unplaced)])
  {
    var after := s.fleet[source.id := source.(agents := s.unplaced)];
    forall id, a | id in s.fleet && a in s.fleet[id].agents ensures a !in s.unplaced { assert Houses(s.fleet, a); }
    forall i, j, a | i in after && j in after && i != j && a in after[i].agents ensures a !in after[j].agents {}
  }

  /** Of a stale record this holds exactly when the stored one names the same agents. */
  lemma StaleMigrationConservesIff(fleet: Fleet, source: Node)
    requires Placed(fleet) && source.id in fleet && NoneHoused(Emptied(fleet, source), source.agents)
    ensures (forall a :: Houses(Migrate(fleet, source), a) <==> Houses(fleet, a)) <==>
            (forall a :: a in source.agents <==> a in fleet[source.id].agents)
  {
    forall a ensures (Houses(Migrate(fleet, source), a) <==> Houses(fleet, a)) <==>
                     (a in source.agents <==> a in fleet[source.id].agents)
    {
      MigrationHouses(fleet, source, a);
      EmptiedHouses(fleet, source, a);
      if a in fleet[source.id].agents { assert Houses(fleet, a); }
      if a in source.agents { assert !Houses(Emptied(fleet, source), a); }
    }
  }

  lemma MigrationKeepsNodes(fleet: Fleet, source: Node)
    requires Keyed(fleet) && source.id in fleet
    ensures Keyed(Migrate(fleet, source)) && Migrate(fleet, source).Keys == fleet.Keys
  {
    SettleGrows(Emptied(fleet, source), source.id, source.agents);
  }

  // ---- nobody waits while there is room ----

  ghost predicate Hosts(n: Node, exclude: string) { n.id != exclude && n.status.Online? }

  ghost predicate Unbounded(fleet: Fleet, exclude: string) {
    exists id :: id in fleet && Hosts(fleet[id], exclude) && fleet[id].maxAgents == 0
  }

  ghost function Spare(n: Node, exclude: string): nat {
    if Hosts(n, exclude) && n.maxAgents != 0 && |n.agents| < n.maxAgents then n.maxAgents - |n.agents| else 0
  }

  ghost predicate Lists(ids: seq<string>, fleet: Fleet) {
    Distinct(ids) && (forall i | 0 <= i < |ids| :: ids[i] in fleet) && forall id | id in fleet :: id in ids
  }

  /** A quantity summed over the nodes of a listing. */
  ghost function Total(fleet: Fleet, ids: seq<string>, weight: Node -> nat): nat
    requires forall i | 0 <= i < |ids| :: ids[i] in fleet
  {
    if ids == [] then 0 else weight(fleet[ids[0]]) + Total(fleet, ids[1..], weight)
  }

  lemma {:induction false} TotalAfterChange(a: Fleet, b: Fleet, ids: seq<string>, t: string, weight: Node -> nat)
    requires Distinct(ids) && forall i | 0 <= i < |ids| :: ids[i] in a && ids[i] in b
    requires t in a && t in b && forall id | id in a && id in b && id != t :: a[id] == b[id]
    ensures Total(b, ids, weight) == Total(a, ids, weight) + if t in ids then weight(b[t]) - weight(a[t]) else 0
  {
    if ids != [] {
      TotalAfterChange(a, b, ids[1..], t, weight);
      if ids[0] == t { assert forall i | 0 < i < |ids| :: ids[i] != t; }
    }
  }

  lemma {:induction false} TotalIsZeroIff(fleet: Fleet, ids: seq<string>, weight: Node -> nat)
    requires forall i | 0 <= i < |ids| :: ids[i] in fleet
    ensures Total(fleet, ids, weight) == 0 <==> forall i | 0 <= i < |ids| :: weight(fleet[ids[i]]) == 0
  {
    if ids != [] {
      TotalIsZeroIff(fleet, ids[1..], weight);
      if forall i | 0 <= i < |ids| :: weight(fleet[ids[i]]) == 0 {
        forall i | 0 <= i < |ids[1..]| ensures weight(fleet[ids[1..][i]]) == 0 { assert ids[1..][i] == ids[i + 1]; }
      }
    }
  }

  ghost function SpareBeside(exclude: string): Node -> nat { n => Spare(n, exclude) }

  /** The free places of the bounded nodes in a listing. */
  ghost function Room(fleet: Fleet, exclude: string, ids: seq<string>): nat
    requires forall i | 0 <= i < |ids| :: ids[i] in fleet
  {
    Total(fleet, ids, SpareBeside(exclude))
  }

  lemma NoTargetIffFull(fleet: Fleet, exclude: string, ids: seq<string>)
    requires Keyed(fleet) && Lists(ids, fleet)
    ensures Target(fleet, exclude).None? <==> !Unbounded(fleet, exclude) && Room(fleet, exclude, ids) == 0
  {
    TargetDecided(fleet, exclude);
    TotalIsZeroIff(fleet, ids, SpareBeside(exclude));
    if m :| m in fleet && Eligible(fleet[m], exclude) && fleet[m].maxAgents != 0 {
      assert m in ids;
      assert Spare(fleet[m], exclude) > 0;
    }
    if i :| 0 <= i < |ids| && Spare(fleet[ids[i]], exclude) > 0 { assert Eligible(fleet[ids[i]], exclude); }
    if id :| id in fleet && Hosts(fleet[id], exclude) && fleet[id].maxAgents == 0 {
      assert Eligible(fleet[id], exclude);
    }
  }

  function Over(a: nat, b: nat): nat { if a > b then a - b else 0 }

  lemma SettleKeepsListing(fleet: Fleet, exclude: string, agents: seq<string>, ids: seq<string>)
    requires Keyed(fleet) && Lists(ids, fleet)
    ensures var after := Settle(fleet, exclude, agents).fleet;
            Keyed(after) && Lists(ids, after) && (Unbounded(after, exclude) <==> Unbounded(fleet, exclude))
  {
    SettleGrows(fleet, exclude, agents);
    GrowthKeepsUnbounded(fleet, Settle(fleet, exclude, agents).fleet, exclude);
  }

  ghost predicate IsTail(tail: seq<string>, agents: seq<string>) {
    |tail| <= |agents| && tail == agents[|agents| - |tail|..]
  }

  lemma TailGrows(tail: seq<string>, agents: seq<string>)
    requires agents != [] && IsTail(tail, agents[..|agents| - 1])
    ensures IsTail(tail + [agents[|agents| - 1]], agents)
  {
  }

  /** Once one agent is turned away, so is every later one. */
  lemma {:induction false} UnplacedIsTail(fleet: Fleet, exclude: string, agents: seq<string>)
    requires Keyed(fleet)
    ensures IsTail(Settle(fleet, exclude, agents).unplaced, agents)
    ensures Settle(fleet, exclude, agents).unplaced != [] ==>
            Target(Settle(fleet, exclude, agents).fleet, exclude).None?
    decreases |agents|
  {
    if agents != [] {
      UnplacedIsTail(fleet, exclude, agents[..|agents| - 1]);
      OneMore(fleet, exclude, agents);
      var before := Settle(fleet, exclude, agents[..|agents| - 1]);
      hide Settle, Target, Keyed;
      if Target(before.fleet, exclude).None? {
        TailGrows(before.unplaced, agents);
        hide IsTail;
      }
    }
  }

  /** Agents are turned away only once the room has run out. */
  lemma {:induction false} SettleFillsRoom(fleet: Fleet, exclude: string, agents: seq<string>, ids: seq<string>)
    requires Keyed(fleet) && Lists(ids, fleet) && !Unbounded(fleet, exclude)
    ensures var s := Settle(fleet, exclude, agents);
            && Lists(ids, s.fleet)
            && Room(s.fleet, exclude, ids) == Over(Room(fleet, exclude, ids), |agents|)
            && |s.unplaced| == Over(|agents|, Room(fleet, exclude, ids))
    decreases |agents|
  {
    if agents != [] {
      var n := |agents| - 1;
      SettleFillsRoom(fleet, exclude, agents[..n], ids);
      SettleKeepsListing(fleet, exclude, agents[..n], ids);
      SettleKeepsListing(fleet, exclude, agents, ids);
      OneMore(fleet, exclude, agents);
      hide Settle, Target, Unbounded, Room, Keyed, Lists, Eligible, IsTarget;
      var before := Settle(fleet, exclude, agents[..n]);
      NoTargetIffFull(before.fleet, exclude, ids);
      if Target(before.fleet, exclude).Some? {
        PlacingTakesRoom(before.fleet, exclude, ids, Target(before.fleet, exclude).value, agents[n]);
      }
    }
  }

  lemma PlacingTakesRoom(fleet: Fleet, exclude: string, ids: seq<string>, t: string, agent: string)
    requires Lists(ids, fleet) && IsTarget(fleet, exclude, t) && !Unbounded(fleet, exclude)
    requires Lists(ids, Place(fleet, t, agent))
    ensures Room(Place(fleet, t, agent), exclude, ids) == Room(fleet, exclude, ids) - 1
  {
    BoundedTarget(fleet, exclude, t);
    TotalAfterChange(fleet, Place(fleet, t, agent), ids, t, SpareBeside(exclude));
  }

  lemma {:induction false} UnboundedTakesAll(fleet: Fleet, exclude: string, agents: seq<string>)
    requires Keyed(fleet) && Unbounded(fleet, exclude)
    ensures Settle(fleet, exclude, agents).unplaced == []
    decreases |agents|
  {
    if agents != [] {
      var before := Settle(fleet, exclude, agents[..|agents| - 1]);
      UnboundedTakesAll(fleet, exclude, agents[..|agents| - 1]);
      SettleGrows(fleet, exclude, agents[..|agents| - 1]);
      GrowthKeepsUnbounded(fleet, before.fleet, exclude);
      TargetDecided(before.fleet, exclude);
      var id :| id in before.fleet && Hosts(before.fleet[id], exclude) && before.fleet[id].maxAgents == 0;
      assert Eligible(before.fleet[id], exclude);
    }
  }

  lemma GrowthKeepsUnbounded(a: Fleet, b: Fleet, exclude: string)
    requires FleetGrew(a, b)
    ensures Unbounded(b, exclude) <==> Unbounded(a, exclude)
  {
    forall id | id in a ensures Grew(a[id], b[id]) {}
  }

  lemma BoundedTarget(fleet: Fleet, exclude: string, t: string)
    requires t in fleet && Eligible(fleet[t], exclude) && !Unbounded(fleet, exclude)
    ensures fleet[t].maxAgents > |fleet[t].agents| && Spare(fleet[t], exclude) == fleet[t].maxAgents - |fleet[t].agents|
  {
  }

  /** A migration leaves behind exactly as many agents as the other nodes have no room for. */
  lemma MigrationFillsRoom(fleet: Fleet, source: Node, ids: seq<string>)
    requires Keyed(fleet) && source.id in fleet && Lists(ids, fleet)
    ensures var left := Migrate(fleet, source)[source.id].agents;
            && |left| == (if Unbounded(fleet, source.id) then 0 else Over(|source.agents|, Room(fleet, source.id, ids)))
            && IsTail(left, source.agents)
  {
    hide Settle, Unbounded, Room, Emptied, Keyed;
    var e := Emptied(fleet, source);
    EmptyingKeepsRoom(fleet, source, ids);
    UnplacedIsTail(e, source.id, source.agents);
    if Unbounded(fleet, source.id) {
      UnboundedTakesAll(e, source.id, source.agents);
    } else {
      SettleFillsRoom(e, source.id, source.agents, ids);
    }
  }

  lemma EmptyingKeepsRoom(fleet: Fleet, source: Node, ids: seq<string>)
    requires Keyed(fleet) && source.id in fleet && Lists(ids, fleet)
    ensures var e := Emptied(fleet, source);
            && Keyed(e) && Lists(ids, e) && Room(e, source.id, ids) == Room(fleet, source.id, ids)
            && (Unbounded(e, source.id) <==> Unbounded(fleet, source.id))
  {
    var e := Emptied(fleet, source);
    TotalAfterChange(fleet, e, ids, source.id, SpareBeside(source.id));
    forall id | id in fleet ensures Hosts(e[id], source.id) <==> Hosts(fleet[id], source.id) {}
  }

  // ---- level load ----

  /** Whoever gained carries at most one agent more than any node still with room. */
  ghost predicate Level(a: Fleet, b: Fleet, exclude: string) {
    a.Keys == b.Keys &&
    forall r, m | r in b && m in b && |b[r].agents| > |a[r].agents| && Eligible(b[m], exclude) ::
      |b[r].agents| <= |b[m].agents| + 1
  }

  lemma {:induction false} SettleIsLevel(fleet: Fleet, exclude: string, agents: seq<string>)
    requires Keyed(fleet)
    ensures Level(fleet, Settle(fleet, exclude, agents).fleet, exclude)
    decreases |agents|
  {
    if agents != [] {
      var n := |agents| - 1;
      var before, s := Settle(fleet, exclude, agents[..n]), Settle(fleet, exclude, agents);
      SettleIsLevel(fleet, exclude, agents[..n]);
      SettleGrows(fleet, exclude, agents[..n]);
      if Target(before.fleet, exclude).Some? {
        var t := Target(before.fleet, exclude).value;
        forall r, m | r in s.fleet && m in s.fleet && |s.fleet[r].agents| > |fleet[r].agents| &&
            Eligible(s.fleet[m], exclude)
          ensures |s.fleet[r].agents| <= |s.fleet[m].agents| + 1
        {
          assert Eligible(before.fleet[m], exclude);
          if r == t && m != t { assert Lighter(before.fleet[t], before.fleet[m]); }
        }
      }
    }
  }

  lemma MigrationIsLevel(fleet: Fleet, source: Node)
    requires Keyed(fleet) && source.id in fleet
    ensures Migrate(fleet, source).Keys == fleet.Keys
    ensures forall r, m | r in fleet && m in fleet && r != source.id &&
                          |Migrate(fleet, source)[r].agents| > |fleet[r].agents| &&
                          Eligible(Migrate(fleet, source)[m], source.id) ::
              |Migrate(fleet, source)[r].agents| <= |Migrate(fleet, source)[m].agents| + 1
  {
    SettleIsLevel(Emptied(fleet, source), source.id, source.agents);
    SettleGrows(Emptied(fleet, source), source.id, source.agents);
  }

  // ---- a sweep over a listing taken beforehand ----

  predicate Due(n: Node, now: int) { n.status.Online? && n.IsHeartbeatExpired(now) }

  ghost predicate Listing(nodes: seq<Node>, fleet: Fleet) {
    && (forall i, j | 0 <= i < j < |nodes| :: nodes[i].id != nodes[j].id)
    && (forall i | 0 <= i < |nodes| :: nodes[i].id in fleet && fleet[nodes[i].id] == nodes[i])
    && (forall id | id in fleet :: exists i :: 0 <= i < |nodes| && nodes[i].id == id)
  }

  function Offlined(n: Node): Node { n.(status := Offline) }

  ghost function Sweep(fleet: Fleet, nodes: seq<Node>, now: int): Fleet
    decreases |nodes|
  {
    if nodes == [] then fleet
    else Sweep(if Due(nodes[0], now) then Migrate(fleet, Offlined(nodes[0])) else fleet, nodes[1..], now)
  }

  /** No expired node has been given an agent since the listing by the time it is swept. */
  ghost predicate CurrentInTurn(fleet: Fleet, nodes: seq<Node>, now: int)
    decreases |nodes|
  {
    nodes == [] ||
    (if Due(nodes[0], now) then
       && nodes[0].id in fleet && fleet[nodes[0].id].agents == nodes[0].agents
       && CurrentInTurn(Migrate(fleet, Offlined(nodes[0])), nodes[1..], now)
     else CurrentInTurn(fleet, nodes[1..], now))
  }

  /** Every record still to be swept has at most grown since it was listed. */
  ghost predicate Listed(fleet: Fleet, nodes: seq<Node>) {
    && (forall i, j | 0 <= i < j < |nodes| :: nodes[i].id != nodes[j].id)
    && forall i | 0 <= i < |nodes| :: nodes[i].id in fleet && Grew(nodes[i], fleet[nodes[i].id])
  }

  lemma TurnKeepsListed(fleet: Fleet, nodes: seq<Node>)
    requires Keyed(fleet) && nodes != [] && Listed(fleet, nodes)
    ensures Listed(fleet, nodes[1..]) && Listed(Migrate(fleet, Offlined(nodes[0])), nodes[1..])
  {
    var source := Offlined(nodes[0]);
    SettleGrows(Emptied(fleet, source), source.id, source.agents);
    forall i | 0 <= i < |nodes[1..]| ensures Grew(nodes[1..][i], Migrate(fleet, source)[nodes[1..][i].id]) {
      assert nodes[1..][i] == nodes[i + 1];
    }
  }

  /** The listing holds this node, gone quiet. */
  ghost predicate DueIn(nodes: seq<Node>, id: string, now: int) {
    exists i :: 0 <= i < |nodes| && nodes[i].id == id && Due(nodes[i], now)
  }

  /** The node is as it was but for its agents, and but for its status if it was swept. */
  ghost predicate Swept(before: Node, after: Node, due: bool) {
    after == before.(agents := after.agents, status := if due then Offline else before.status)
  }

  lemma TurnSweepsOne(fleet: Fleet, n: Node)
    requires Keyed(fleet) && n.id in fleet && Grew(n, fleet[n.id])
    ensures var after := Migrate(fleet, Offlined(n));
            && Keyed(after) && after.Keys == fleet.Keys
            && forall id | id in fleet :: Swept(fleet[id], after[id], id == n.id)
  {
    SettleGrows(Emptied(fleet, Offlined(n)), n.id, n.agents);
  }

  /** A sweep turns exactly the nodes gone quiet offline, and changes nothing else about
      any node but who sits on it. */
  lemma {:induction false} SweepMarksTheQuiet(fleet: Fleet, nodes: seq<Node>, now: int)
    requires Keyed(fleet) && Listed(fleet, nodes)
    ensures var after := Sweep(fleet, nodes, now);
            && after.Keys == fleet.Keys && Keyed(after)
            && forall id | id in fleet :: Swept(fleet[id], after[id], DueIn(nodes, id, now))
    decreases |nodes|
  {
    if nodes != [] {
      var n, rest := nodes[0], nodes[1..];
      TurnKeepsListed(fleet, nodes);
      forall id ensures DueIn(nodes, id, now) <==> (id == n.id && Due(n, now)) || DueIn(rest, id, now) {
        if DueIn(rest, id, now) {
          var i :| 0 <= i < |rest| && rest[i].id == id && Due(rest[i], now);
          assert nodes[i + 1] == rest[i];
        }
        if i :| 0 < i < |nodes| && nodes[i].id == id && Due(nodes[i], now) { assert rest[i - 1] == nodes[i]; }
      }
      hide Migrate, DueIn, Due;
      if Due(n, now) {
        FirstListed(fleet, nodes);
        TurnSweepsOne(fleet, n);
        hide Listed;
        SweepMarksTheQuiet(Migrate(fleet, Offlined(n)), rest, now);
      } else {
        SweepMarksTheQuiet(fleet, rest, now);
      }
    }
  }

  /** A turn never houses anybody new, keeps the fleet placed, and loses exactly what the record had gained. */
  lemma TurnLosesTheGains(fleet: Fleet, n: Node)
    requires Placed(fleet) && n.id in fleet && Grew(n, fleet[n.id])
    ensures var after := Migrate(fleet, Offlined(n));
            && Placed(after) && (forall a :: Houses(after, a) ==> Houses(fleet, a))
            && ((forall a :: Houses(fleet, a) ==> Houses(after, a)) <==> fleet[n.id].agents == n.agents)
  {
    var stored, source := fleet[n.id], Offlined(n);
    var e := Emptied(fleet, source);
    var after := Migrate(fleet, source);
    forall a ensures Houses(after, a) <==> Houses(fleet, a) && (a in stored.agents ==> a in n.agents) {
      MigrationHouses(fleet, source, a);
      if a in n.agents { assert a in stored.agents; }
    }
    if stored.agents != n.agents {
      var a := stored.agents[|n.agents|];
      assert a !in n.agents;
      assert Houses(fleet, a) && !Houses(after, a);
    }
    forall a | a in source.agents ensures !Houses(e, a) { EmptiedHouses(fleet, source, a); assert a in stored.agents; }
    EmptiedHouses(fleet, source, "");
    SettleGrows(e, source.id, source.agents);
    SettleKeepsPlaced(e, source.id, source.agents);
    ReturnKeepsPlaced(Settle(e, source.id, source.agents), source);
  }

  /** A sweep keeps every agent if and only if nobody it sweeps has gained one meanwhile. */
  lemma {:induction false} SweepConservesIff(fleet: Fleet, nodes: seq<Node>, now: int)
    requires Placed(fleet) && Listed(fleet, nodes)
    ensures var after := Sweep(fleet, nodes, now);
            && Placed(after) && (forall a :: Houses(after, a) ==> Houses(fleet, a))
            && ((forall a :: Houses(fleet, a) ==> Houses(after, a)) <==> CurrentInTurn(fleet, nodes, now))
    decreases |nodes|
  {
    if nodes != [] {
      TurnKeepsListed(fleet, nodes);
      hide Placed, Houses, Migrate, Listed;
      if Due(nodes[0], now) {
        var next := Migrate(fleet, Offlined(nodes[0]));
        assert nodes[0].id in fleet && Grew(nodes[0], fleet[nodes[0].id]) by { FirstListed(fleet, nodes); }
        TurnLosesTheGains(fleet, nodes[0]);
        SweepConservesIff(next, nodes[1..], now);
      } else {
        SweepConservesIff(fleet, nodes[1..], now);
      }
    }
  }

  lemma FirstListed(fleet: Fleet, nodes: seq<Node>)
    requires Listed(fleet, nodes) && nodes != []
    ensures nodes[0].id in fleet && Grew(nodes[0], fleet[nodes[0].id])
  {
  }

  function Plain(id: string, agents: seq<string>): Node { Node(id, "host-" + id, K8sPod, Online, "", 0, agents, 0, 0) }

  lemma OnlyOtherNode(agent: string)
    ensures var fleet := map["a" := Plain("a", [agent]), "b" := Plain("b", [])];
            Migrate(fleet, Offlined(fleet["a"])) == map["a" := Offlined(Plain("a", [])), "b" := Plain("b", [agent])]
  {
    var a, b := Plain("a", [agent]), Plain("b", []);
    var e := Emptied(map["a" := a, "b" := b], Offlined(a));
    assert IsTarget(e, "a", "b");
    TargetIs(e, "a", "b");
    assert Settle(e, "a", []) == Settled(e, []);
    assert [agent][..0] == [];
    assert Settle(e, "a", [agent]) == Settled(Place(e, "b", agent), []);
    assert [] + [agent] == [agent];
    assert Place(e, "b", agent) == map["a" := Offlined(Plain("a", [])), "b" := Plain("b", [agent])];
  }

  lemma SweepTwo(fleet: Fleet, a: Node, b: Node, now: int)
    requires Due(a, now) && Due(b, now)
    ensures Sweep(fleet, [a, b], now) == Migrate(Migrate(fleet, Offlined(a)), Offlined(b))
  {
    hide Migrate;
    assert [a, b][1..] == [b];
    assert [b][1..] == [];
    assert Sweep(Migrate(fleet, Offlined(a)), [b], now) == Migrate(Migrate(fleet, Offlined(a)), Offlined(b));
  }

  /** Two nodes expire together: the first hands its agent to the second, whose
      stale record then overwrites it. */
  lemma SweepCanLoseAnAgent() returns (fleet: Fleet, nodes: seq<Node>, now: int)
    ensures Placed(fleet) && Listing(nodes, fleet) && Houses(fleet, "x") && !Houses(Sweep(fleet, nodes, now), "x")
  {
    var a, b := Plain("a", ["x"]), Plain("b", []);
    fleet, nodes, now := map["a" := a, "b" := b], [a, b], 100;
    OnlyOtherNode("x");
    TwoArePlaced("x");
    SweepTwo(fleet, a, b, now);
    assert nodes[0].id == "a" && nodes[1].id == "b";
    assert "x" in fleet["a"].agents;
    hide Migrate, Placed, Sweep;
    MigrationConserves(fleet, Offlined(a));
    MigrationHouses(Migrate(fleet, Offlined(a)), Offlined(b), "x");
  }

  lemma TwoArePlaced(agent: string)
    ensures Placed(map["a" := Plain("a", [agent]), "b" := Plain("b", [])])
  {
  }
}
