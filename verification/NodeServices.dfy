/** The node registry: every call reads the stored fleet, decides, and writes it back. */
module NodeServices {
  import opened Options
  import opened Strings
  import opened Fleets
  import opened Migrations
  import opened Sweeps

  datatype NodeError =
    | Ok | InvalidId | InvalidHostname | InvalidType | HostnameConflict | InvalidAgentId | NotFound
    | AgentAlreadyAssigned | MaxAgentsReached | NoAvailableNode

  function Validate(n: Node): NodeError {
    if Blank(n.id) then InvalidId
    else if Blank(n.hostname) then InvalidHostname
    else if n.nodeType.UnknownType? then InvalidType
    else Ok
  }

  // ---- choosing a target out of a listing ----

  /** Insertion into a list ordered by load. */
  function InsertByLoad(n: Node, sorted: seq<Node>): seq<Node> {
    if sorted == [] || Lighter(n, sorted[0]) then [n] + sorted else [sorted[0]] + InsertByLoad(n, sorted[1..])
  }

  /** The library sort by (load, id). */
  function SortByLoad(nodes: seq<Node>): (sorted: seq<Node>)
    ensures nodes != [] ==> sorted != []
  {
    if nodes == [] then [] else InsertByLoad(nodes[0], SortByLoad(nodes[1..]))
  }

  ghost predicate DistinctIds(nodes: seq<Node>) {
    forall i, j | 0 <= i < j < |nodes| :: nodes[i].id != nodes[j].id
  }

  /** The head of the sorted candidates is one of them, and lighter than all the others. */
  lemma {:induction false} HeadIsLightest(nodes: seq<Node>)
    requires nodes != [] && DistinctIds(nodes)
    ensures SortByLoad(nodes)[0] in nodes
    ensures forall n | n in nodes && n != SortByLoad(nodes)[0] :: Lighter(SortByLoad(nodes)[0], n)
  {
    if |nodes| > 1 {
      var first, rest := nodes[0], nodes[1..];
      HeadIsLightest(rest);
      var head := SortByLoad(rest)[0];
      assert nodes == [first] + rest;
      BeforeIsTotal(first.id, head.id);
      forall n | n in nodes && Lighter(first, head) && Lighter(head, n) ensures Lighter(first, n) {
        LighterIsTransitive(first, head, n);
      }
    }
  }

  method SelectPlacementTarget(nodes: seq<Node>, excludeId: string, ghost fleet: Fleet) returns (target: Option<Node>)
    requires Listing(nodes, fleet) && Keyed(fleet)
    ensures target.None? ==> NoneEligible(fleet, excludeId)
    ensures target.Some? ==> target.value in nodes && IsTarget(fleet, excludeId, target.value.id)
  {
    var candidates := [];
    ghost var from: seq<nat> := [];
    for i := 0 to |nodes|
      invariant forall n | n in candidates :: n in nodes && Eligible(n, excludeId)
      invariant forall j | 0 <= j < i && Eligible(nodes[j], excludeId) :: nodes[j] in candidates
      invariant |from| == |candidates| && forall k | 0 <= k < |from| :: from[k] < i && candidates[k] == nodes[from[k]]
      invariant DistinctIds(candidates)
    {
      hide Keyed, Eligible;
      if !(nodes[i].id == excludeId || !nodes[i].status.Online? || !nodes[i].CanAcceptAgent()) {
        assert Eligible(nodes[i], excludeId) by { EligibleWhen(nodes[i], excludeId); }
        candidates, from := candidates + [nodes[i]], from + [i];
      } else {
        assert !Eligible(nodes[i], excludeId) by { EligibleWhen(nodes[i], excludeId); }
      }
    }
    if candidates == [] {
      NothingChosen(nodes, excludeId, fleet);
      return None;
    }
    HeadIsLightest(candidates);
    Chosen(nodes, excludeId, fleet, candidates, SortByLoad(candidates)[0]);
    return Some(SortByLoad(candidates)[0]);
  }

  lemma EligibleWhen(n: Node, excludeId: string)
    ensures Eligible(n, excludeId) <==> !(n.id == excludeId || !n.status.Online? || !n.CanAcceptAgent())
  {
  }

  lemma NothingChosen(nodes: seq<Node>, excludeId: string, fleet: Fleet)
    requires Listing(nodes, fleet) && forall j | 0 <= j < |nodes| :: !Eligible(nodes[j], excludeId)
    ensures NoneEligible(fleet, excludeId)
  {
    forall m | m in fleet ensures !Eligible(fleet[m], excludeId) {
      var i :| 0 <= i < |nodes| && nodes[i].id == m;
    }
  }

  lemma Chosen(nodes: seq<Node>, excludeId: string, fleet: Fleet, candidates: seq<Node>, first: Node)
    requires Listing(nodes, fleet) && first in nodes && Eligible(first, excludeId)
    requires forall j | 0 <= j < |nodes| && Eligible(nodes[j], excludeId) :: nodes[j] in candidates
    requires forall n | n in candidates && n != first :: Lighter(first, n)
    ensures IsTarget(fleet, excludeId, first.id)
  {
    forall m | m in fleet && m != first.id && Eligible(fleet[m], excludeId) ensures Lighter(first, fleet[m]) {
      var i :| 0 <= i < |nodes| && nodes[i].id == m;
      assert nodes[i] in candidates;
    }
  }

  /** The agents but one, in order. */
  function Without(agents: seq<string>, agentId: string): seq<string>
    decreases |agents|
  {
    if agents == [] then []
    else
      var n := |agents| - 1;
      Without(agents[..n], agentId) + if agents[n] == agentId then [] else [agents[n]]
  }

  lemma {:induction false} WithoutMembers(agents: seq<string>, agentId: string, a: string)
    ensures a in Without(agents, agentId) <==> a in agents && a != agentId
    ensures |Without(agents, agentId)| <= |agents|
    decreases |agents|
  {
    if agents != [] {
      WithoutMembers(agents[..|agents| - 1], agentId, a);
      assert agents == agents[..|agents| - 1] + [agents[|agents| - 1]];
    }
  }

  lemma {:induction false} WithoutIsDistinct(agents: seq<string>, agentId: string)
    requires Distinct(agents)
    ensures Distinct(Without(agents, agentId))
    decreases |agents|
  {
    if agents != [] {
      var n := |agents| - 1;
      WithoutIsDistinct(agents[..n], agentId);
      assert forall i | 0 <= i < n :: agents[..n][i] != agents[n];
      WithoutMembers(agents[..n], agentId, agents[n]);
    }
  }

  lemma {:induction false} WithoutStranger(agents: seq<string>, agentId: string)
    requires agentId !in agents
    ensures Without(agents, agentId) == agents
    decreases |agents|
  {
    if agents != [] { WithoutStranger(agents[..|agents| - 1], agentId); }
  }

  function Removed(fleet: Fleet, nodeId: string, agentId: string): Fleet
    requires nodeId in fleet
  {
    fleet[nodeId := fleet[nodeId].(agents := Without(fleet[nodeId].agents, agentId))]
  }

  /** Removing what was just placed gives back the fleet of before. */
  lemma RemoveUndoesPlace(fleet: Fleet, nodeId: string, agentId: string)
    requires nodeId in fleet && !Houses(fleet, agentId)
    ensures Removed(Place(fleet, nodeId, agentId), nodeId, agentId) == fleet
  {
    var agents := fleet[nodeId].agents;
    assert agentId !in agents;
    WithoutStranger(agents, agentId);
    assert (agents + [agentId])[..|agents|] == agents;
    assert Without(agents + [agentId], agentId) == agents;
  }

  lemma RemovedKeepsPlaced(fleet: Fleet, nodeId: string, agentId: string)
    requires Placed(fleet) && nodeId in fleet && agentId in fleet[nodeId].agents
    ensures Placed(Removed(fleet, nodeId, agentId))
    ensures forall a :: Houses(Removed(fleet, nodeId, agentId), a) <==> Houses(fleet, a) && a != agentId
  {
    var after := Removed(fleet, nodeId, agentId);
    forall a ensures a in after[nodeId].agents <==> a in fleet[nodeId].agents && a != agentId {
      WithoutMembers(fleet[nodeId].agents, agentId, a);
    }
    WithoutMembers(fleet[nodeId].agents, agentId, agentId);
    WithoutIsDistinct(fleet[nodeId].agents, agentId);
    forall a ensures Houses(after, a) <==> Houses(fleet, a) && a != agentId {
      if id :| id in fleet && a in fleet[id].agents && a != agentId { assert a in after[id].agents; }
      if id :| id in after && a in after[id].agents { assert a in fleet[id].agents; }
    }
  }

  /** What a registration may bring along without spoiling the fleet. */
  ghost predicate Fits(fleet: Fleet, n: Node) {
    && Distinct(n.agents) && (n.maxAgents > 0 ==> |n.agents| <= n.maxAgents)
    && forall id, a | id in fleet && id != n.id && a in n.agents :: a !in fleet[id].agents
  }

  lemma RegistrationPlacedIff(fleet: Fleet, n: Node)
    requires Placed(fleet)
    ensures Placed(fleet[n.id := n]) <==> Fits(fleet, n)
  {
    var after := fleet[n.id := n];
    if Placed(after) {
      forall id, a | id in fleet && id != n.id && a in n.agents ensures a !in fleet[id].agents {
        assert after[n.id] == n && after[id] == fleet[id];
      }
      assert after[n.id] == n;
    }
  }

  lemma ListingUpdate(nodes: seq<Node>, fleet: Fleet, i: nat, n: Node)
    requires Listing(nodes, fleet) && i < |nodes| && nodes[i].id == n.id
    ensures Listing(nodes[i := n], fleet[n.id := n])
  {
    var after := nodes[i := n];
    forall id | id in fleet ensures exists j :: 0 <= j < |after| && after[j].id == id {
      var j :| 0 <= j < |nodes| && nodes[j].id == id;
      assert after[j].id == id;
    }
  }

  /** Replace the entry with the same id. */
  method Overwrite(nodes: seq<Node>, n: Node, ghost fleet: Fleet) returns (after: seq<Node>)
    requires Listing(nodes, fleet) && n.id in fleet
    ensures Listing(after, fleet[n.id := n])
  {
    var i := 0;
    while nodes[i].id != n.id
      invariant i < |nodes| && forall j | 0 <= j < i :: nodes[j].id != n.id
      decreases |nodes| - i
    {
      i := i + 1;
    }
    ListingUpdate(nodes, fleet, i, n);
    after := nodes[i := n];
  }

  lemma NothingListed()
    ensures Listing([], map[])
  {
  }

  lemma ListingAppend(nodes: seq<Node>, fleet: Fleet, n: Node)
    requires Listing(nodes, fleet) && n.id !in fleet
    ensures Listing(nodes + [n], fleet[n.id := n])
  {
    var after := nodes + [n];
    assert after[|nodes|] == n;
    forall id | id in fleet ensures exists j :: 0 <= j < |after| && after[j].id == id {
      var j :| 0 <= j < |nodes| && nodes[j].id == id;
      assert after[j].id == id;
    }
  }

  lemma ListedRecord(nodes: seq<Node>, fleet: Fleet, n: Node)
    requires Listing(nodes, fleet) && n in nodes
    ensures n.id in fleet && fleet[n.id] == n
  {
  }

  lemma NoTarget(fleet: Fleet, exclude: string)
    requires NoneEligible(fleet, exclude)
    ensures Target(fleet, exclude).None?
  {
  }

  lemma SettleNone(fleet: Fleet, exclude: string)
    ensures Settle(fleet, exclude, []) == Settled(fleet, [])
  {
  }

  class NodeService {
    /** The repository: the stored record of each node. */
    var store: Fleet

    ghost predicate Valid() reads this { Keyed(store) }

    constructor ()
      ensures Valid() && store == map[] && Placed(store)
    {
      store := map[];
    }

    /** All records, in no particular order. */
    method List() returns (nodes: seq<Node>)
      requires Valid()
      ensures Listing(nodes, store)
    {
      hide Listing;
      nodes := [];
      var rest := store.Keys;
      ghost var done: Fleet := map[];
      NothingListed();
      while rest != {}
        invariant rest <= store.Keys && done.Keys == store.Keys - rest
        invariant forall id | id in done :: done[id] == store[id]
        invariant Listing(nodes, done)
        decreases |rest|
      {
        var id :| id in rest;
        ListingAppend(nodes, done, store[id]);
        nodes := nodes + [store[id]];
        done := done[id := store[id]];
        rest := rest - {id};
      }
      assert done == store;
    }

    method Register(n: Node, now: int) returns (err: NodeError)
      requires Valid()
      modifies this
      ensures Valid()
      ensures Validate(n) != Ok ==> err == Validate(n)
      ensures err.InvalidId? <==> forall c | c in n.id :: c in BLANKS
      ensures err.InvalidHostname? <==> !err.InvalidId? && forall c | c in n.hostname :: c in BLANKS
      ensures err.InvalidType? <==> !err.InvalidId? && !err.InvalidHostname? && n.nodeType.UnknownType?
      ensures Validate(n) == Ok ==>
                err == if exists id :: id in old(store) && id != n.id && old(store)[id].hostname == n.hostname
                       then HostnameConflict else Ok
      ensures store == if err != Ok then old(store) else
                old(store)[n.id := n.(status := Online, registeredAt := now, lastHeartbeatAt := now)]
      ensures old(Placed(store)) && err == Ok ==> (Placed(store) <==> Fits(old(store), n))
    {
      BlankIff(n.id);
      BlankIff(n.hostname);
      err := Validate(n);
      if err != Ok { return; }
      var existing := List();
      for i := 0 to |existing|
        invariant forall j | 0 <= j < i :: !(existing[j].hostname == n.hostname && existing[j].id != n.id)
      {
        if existing[i].hostname == n.hostname && existing[i].id != n.id {
          assert existing[i].id in store;
          return HostnameConflict;
        }
      }
      forall id | id in store && id != n.id ensures store[id].hostname != n.hostname {
        var i :| 0 <= i < |existing| && existing[i].id == id;
      }
      var stored := n.(status := Online, registeredAt := now, lastHeartbeatAt := now);
      if Placed(store) { RegistrationPlacedIff(store, stored); }
      store := store[n.id := stored];
    }

    method Deregister(id: string) returns (err: NodeError)
      requires Valid()
      modifies this
      ensures Valid() && err == (if id in old(store) then Ok else NotFound) && store == old(store) - {id}
      ensures old(Placed(store)) ==> Placed(store)
    {
      if id !in store { return NotFound; }
      store := store - {id};
      return Ok;
    }

    method Heartbeat(id: string, now: int) returns (err: NodeError)
      requires Valid()
      modifies this
      ensures Valid() && err == if id in old(store) then Ok else NotFound
      ensures store == if err == Ok then old(store)[id := old(store)[id].(lastHeartbeatAt := now, status := Online)]
              else old(store)
      ensures old(Placed(store)) ==> Placed(store)
    {
      if id !in store { return NotFound; }
      store := store[id := store[id].(lastHeartbeatAt := now, status := Online)];
      return Ok;
    }

    /** Online, and without a limit or below it. */
    predicate OpenTo(n: Node) { n.status.Online? && (n.maxAgents == 0 || |n.agents| < n.maxAgents) }

    method AssignAgent(nodeId: string, agentId: string) returns (err: NodeError)
      requires Valid()
      modifies this
      ensures Valid()
      ensures err == if agentId == "" then InvalidAgentId
                     else if nodeId !in old(store) then NotFound
                     else if agentId in old(store)[nodeId].agents then Ok
                     else if Houses(old(store), agentId) then AgentAlreadyAssigned
                     else if old(store)[nodeId].maxAgents != 0 &&
                             |old(store)[nodeId].agents| >= old(store)[nodeId].maxAgents then MaxAgentsReached
                     else Ok
      ensures store == if err == Ok && agentId !in old(store)[nodeId].agents
              then old(store)[nodeId := old(store)[nodeId].(agents := old(store)[nodeId].agents + [agentId])]
              else old(store)
      ensures err == Ok ==> agentId in store[nodeId].agents
      ensures old(Placed(store)) ==> Placed(store)
    {
      if agentId == "" { return InvalidAgentId; }
      if nodeId !in store { return NotFound; }
      var n := store[nodeId];
      if n.HasAgent(agentId) { return Ok; }
      var existing := List();
      for i := 0 to |existing|
        invariant forall j | 0 <= j < i :: !(existing[j].id != nodeId && existing[j].HasAgent(agentId))
      {
        if existing[i].id != nodeId && existing[i].HasAgent(agentId) {
          assert agentId in store[existing[i].id].agents;
          return AgentAlreadyAssigned;
        }
      }
      forall id | id in store ensures agentId !in store[id].agents {
        var i :| 0 <= i < |existing| && existing[i].id == id;
      }
      if !n.CanAcceptAgent() { return MaxAgentsReached; }
      if Placed(store) { PlaceKeepsPlaced(store, nodeId, agentId); }
      store := store[nodeId := n.(agents := n.agents + [agentId])];
      return Ok;
    }

    /** Never refused for want of a free or permitted node while some node is eligible. */
    method AutoAssignAgent(agentId: string) returns (err: NodeError)
      requires Valid()
      modifies this
      ensures Valid()
      ensures err == if agentId == "" then InvalidAgentId
                     else if !Houses(old(store), agentId) && NoneEligible(old(store), "") then NoAvailableNode
                     else Ok
      ensures err != Ok || Houses(old(store), agentId) ==> store == old(store)
      ensures err == Ok && !Houses(old(store), agentId) ==>
                exists t :: IsTarget(old(store), "", t) && store == Place(old(store), t, agentId)
      ensures err == NoAvailableNode ==>
                forall m | m in old(store) && m != "" :: !OpenTo(old(store)[m])
      ensures err == Ok && !Houses(old(store), agentId) ==>
                exists t :: t in store && t in old(store) && t != "" && OpenTo(old(store)[t]) &&
                  store == old(store)[t := old(store)[t].(agents := old(store)[t].agents + [agentId])] &&
                  forall m | m in old(store) && m != "" && OpenTo(old(store)[m]) ::
                    |old(store)[t].agents| <= |old(store)[m].agents|
      ensures old(Placed(store)) ==> Placed(store)
    {
      hide Placed;
      if agentId == "" { return InvalidAgentId; }
      var nodes := List();
      for i := 0 to |nodes|
        invariant forall j | 0 <= j < i :: !nodes[j].HasAgent(agentId)
      {
        if nodes[i].HasAgent(agentId) {
          assert agentId in store[nodes[i].id].agents;
          return Ok;
        }
      }
      forall id | id in store ensures agentId !in store[id].agents {
        var i :| 0 <= i < |nodes| && nodes[i].id == id;
      }
      var target := SelectPlacementTarget(nodes, "", store);
      if target.None? { return NoAvailableNode; }
      ListedRecord(nodes, store, target.value);
      err := AssignAgent(target.value.id, agentId);
    }

    method RemoveAgent(nodeId: string, agentId: string) returns (err: NodeError)
      requires Valid()
      modifies this
      ensures Valid()
      ensures err == if agentId == "" then InvalidAgentId
                     else if nodeId !in old(store) || agentId !in old(store)[nodeId].agents then NotFound
                     else Ok
      ensures store == if err == Ok then Removed(old(store), nodeId, agentId) else old(store)
      ensures old(Placed(store)) ==> Placed(store) && (err == Ok ==> !Houses(store, agentId))
    {
      hide Placed, Houses;
      if agentId == "" { return InvalidAgentId; }
      if nodeId !in store { return NotFound; }
      var n := store[nodeId];
      if !n.HasAgent(agentId) { return NotFound; }
      var filtered := [];
      for i := 0 to |n.agents|
        invariant filtered == Without(n.agents[..i], agentId)
      {
        assert n.agents[..i + 1][..i] == n.agents[..i];
        if n.agents[i] != agentId { filtered := filtered + [n.agents[i]]; }
      }
      assert n.agents[..|n.agents|] == n.agents;
      if Placed(store) { RemovedKeepsPlaced(store, nodeId, agentId); }
      store := store[nodeId := n.(agents := filtered)];
      return Ok;
    }

    /** Move the agents of an offline record away, one by one. */
    method MigrateAgentsFromOfflineNode(source: Node)
      requires Valid() && source.id in store
      modifies this
      ensures Valid() && store == Migrate(old(store), source)
    {
      hide Target, Settle, Listing, IsTarget, FleetGrew;
      var agents := source.agents;
      var emptied := source.(agents := []);
      var nodes := List();
      ghost var start := Emptied(store, source);
      nodes := Overwrite(nodes, emptied, store);
      ghost var fleet := start;
      var unplaced := [];
      SettleNone(start, source.id);
      for k := 0 to |agents|
        invariant Keyed(fleet) && Listing(nodes, fleet) && source.id in fleet && fleet[source.id] == emptied
        invariant Settle(start, source.id, agents[..k]) == Settled(fleet, unplaced)
        invariant store == fleet[source.id := old(store)[source.id]]
      {
        assert agents[..k + 1][..k] == agents[..k];
        OneMore(start, source.id, agents[..k + 1]);
        var target := SelectPlacementTarget(nodes, source.id, fleet);
        if target.None? {
          NoTarget(fleet, source.id);
          unplaced := unplaced + [agents[k]];
        } else {
          TargetIs(fleet, source.id, target.value.id);
          TargetFits(fleet, source.id, target.value.id);
          var n := target.value.(agents := target.value.agents + [agents[k]]);
          ListedRecord(nodes, fleet, target.value);
          nodes := Overwrite(nodes, n, fleet);
          fleet := Place(fleet, n.id, agents[k]);
          store := store[n.id := n];
        }
      }
      assert agents[..|agents|] == agents;
      store := store[source.id := source.(agents := unplaced)];
    }

    /** Sweep the nodes that have gone quiet, over a listing taken once at the start. */
    method ScanOfflineNodes(now: int) returns (ghost listed: seq<Node>)
      requires Valid()
      modifies this
      ensures Valid() && Listing(listed, old(store)) && store == Sweep(old(store), listed, now)
      ensures store.Keys == old(store).Keys && forall id | id in store ::
                var n := old(store)[id];
                store[id] == n.(agents := store[id].agents,
                                status := if n.status.Online? && now - n.lastHeartbeatAt > 90 then Offline
                                          else n.status)
      ensures old(Placed(store)) ==>
                && Placed(store)
                && Lists(Ids(listed), old(store))
                && ((forall a :: Houses(store, a) <==> Houses(old(store), a)) <==>
                    RoomAhead(old(store), listed, Ids(listed), now))
    {
      hide Placed, Listed, CurrentInTurn, Migrate, RoomAhead, Swept;
      var nodes := List();
      listed := nodes;
      for i := 0 to |nodes|
        invariant Valid() && store.Keys == old(store).Keys
        invariant Sweep(store, nodes[i..], now) == Sweep(old(store), nodes, now)
      {
        assert nodes[i..][1..] == nodes[i + 1..];
        var n := nodes[i];
        if n.status.Online? && n.IsHeartbeatExpired(now) {
          MigrationKeepsNodes(store, Offlined(n));
          MigrateAgentsFromOfflineNode(n.(status := Offline));
        }
      }
      assert nodes[|nodes|..] == [];
      QuietNodesAreMarked(old(store), nodes, now);
      if old(Placed(store)) {
        assert Listed(old(store), nodes) by { JustListed(old(store), nodes); }
        SweepConservesIff(old(store), nodes, now);
        SweepConservesIffRoom(old(store), nodes, now);
      }
    }
  }

  /** A fresh listing shows every node as it is. */
  lemma QuietNodesAreMarked(fleet: Fleet, nodes: seq<Node>, now: int)
    requires Keyed(fleet) && Listing(nodes, fleet)
    ensures var after := Sweep(fleet, nodes, now);
            && after.Keys == fleet.Keys
            && forall id | id in fleet ::
                 var n := fleet[id];
                 after[id] == n.(agents := after[id].agents,
                                 status := if n.status.Online? && now - n.lastHeartbeatAt > 90 then Offline
                                           else n.status)
  {
    JustListed(fleet, nodes);
    SweepMarksTheQuiet(fleet, nodes, now);
    hide Sweep, Listed;
    forall id | id in fleet
      ensures DueIn(nodes, id, now) <==> fleet[id].status.Online? && now - fleet[id].lastHeartbeatAt > 90
    {
      var i :| 0 <= i < |nodes| && nodes[i].id == id;
      assert fleet[id] == nodes[i];
    }
  }

  lemma JustListed(fleet: Fleet, nodes: seq<Node>)
    requires Listing(nodes, fleet)
    ensures Listed(fleet, nodes)
  {
  }
}
