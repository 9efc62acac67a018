/** Node calls beside each other. Assigning an agent finds the record, lists the fleet to
    see that nobody else has the agent, and saves the whole record; removing one finds the
    record and saves it. The store guards each of these actions, nothing the stretches
    between them. */
module Placements {
  import opened Options
  import opened Fleets
  import opened NodeServices

  /** Where a call stands: with the record it found, or about to save one. */
  datatype Call =
    | Found(read: Node, agent: string)
    | Saving(read: Node, record: Node, agent: string)

  datatype System = System(store: Fleet, calls: map<nat, Call>)

  datatype Event =
    | Find(client: nat, nodeId: string, agent: string)
    | List(client: nat)
    | FindToRemove(client: nat, nodeId: string, agent: string)
    | Save(client: nat)
    | Beat(nodeId: string, now: int)
    | Forget(nodeId: string)

  function With(n: Node, agent: string): Node { n.(agents := n.agents + [agent]) }

  function Lacking(n: Node, agent: string): Node { n.(agents := Without(n.agents, agent)) }

  ghost predicate HousedElsewhere(store: Fleet, nodeId: string, agent: string) {
    exists id :: id in store && id != nodeId && agent in store[id].agents
  }

  ghost function Next(s: System, e: Event): System {
    match e
    case Find(client, nodeId, agent) =>
      if client in s.calls || agent == "" || nodeId !in s.store || agent in s.store[nodeId].agents then s
      else s.(calls := s.calls[client := Found(s.store[nodeId], agent)])
    case List(client) =>
      if client !in s.calls || s.calls[client].Saving? then s
      else
        var n, agent := s.calls[client].read, s.calls[client].agent;
        if HousedElsewhere(s.store, n.id, agent) || !n.CanAcceptAgent() then s.(calls := s.calls - {client})
        else s.(calls := s.calls[client := Saving(n, With(n, agent), agent)])
    case FindToRemove(client, nodeId, agent) =>
      if client in s.calls || agent == "" || nodeId !in s.store || agent !in s.store[nodeId].agents then s
      else s.(calls := s.calls[client := Saving(s.store[nodeId], Lacking(s.store[nodeId], agent), agent)])
    case Save(client) =>
      if client !in s.calls || s.calls[client].Found? then s
      else System(s.store[s.calls[client].record.id := s.calls[client].record], s.calls - {client})
    case Beat(nodeId, now) =>
      if nodeId !in s.store then s
      else s.(store := s.store[nodeId := s.store[nodeId].(lastHeartbeatAt := now, status := Online)])
    case Forget(nodeId) => s.(store := s.store - {nodeId})
  }

  ghost function After(s: System, events: seq<Event>): System
    decreases |events|
  {
    if events == [] then s else Next(After(s, events[..|events| - 1]), events[|events| - 1])
  }

  // ---- exactly what keeps the fleet well placed ----

  /** A save is judged by the fleet it meets, not by the one it was decided on. */
  ghost predicate Harmless(s: System, e: Event) {
    e.Save? && e.client in s.calls && s.calls[e.client].Saving? ==> Fits(s.store, s.calls[e.client].record)
  }

  lemma NextKeepsPlacedIff(s: System, e: Event)
    requires Placed(s.store)
    ensures Placed(Next(s, e).store) <==> Harmless(s, e)
  {
    if e.Save? && e.client in s.calls && s.calls[e.client].Saving? {
      RegistrationPlacedIff(s.store, s.calls[e.client].record);
    }
  }

  lemma {:induction false} HarmlessRuns(s: System, events: seq<Event>)
    requires Placed(s.store) && forall k | 0 <= k < |events| :: Harmless(After(s, events[..k]), events[k])
    ensures Placed(After(s, events).store)
    decreases |events|
  {
    hide Placed, Harmless, Next;
    if events != [] {
      var n := |events| - 1;
      forall k | 0 <= k < n ensures Harmless(After(s, events[..n][..k]), events[..n][k]) {
        assert events[..n][..k] == events[..k];
      }
      HarmlessRuns(s, events[..n]);
      NextKeepsPlacedIff(After(s, events[..n]), events[n]);
    }
  }

  /** Over whole interleavings: no agent is ever twice or too many if and only if every
      save fitted the fleet it met. */
  lemma PlacedThroughoutIff(s: System, events: seq<Event>)
    requires Placed(s.store)
    ensures (forall k | 0 <= k <= |events| :: Placed(After(s, events[..k]).store)) <==>
            (forall k | 0 <= k < |events| :: Harmless(After(s, events[..k]), events[k]))
  {
    hide Placed, Harmless, Next;
    if forall k | 0 <= k <= |events| :: Placed(After(s, events[..k]).store) {
      forall k | 0 <= k < |events| ensures Harmless(After(s, events[..k]), events[k]) {
        assert events[..k + 1][..k] == events[..k];
        assert Placed(After(s, events[..k + 1]).store);
        NextKeepsPlacedIff(After(s, events[..k]), events[k]);
      }
    }
    if forall k | 0 <= k < |events| :: Harmless(After(s, events[..k]), events[k]) {
      forall k | 0 <= k <= |events| ensures Placed(After(s, events[..k]).store) {
        forall j | 0 <= j < k ensures Harmless(After(s, events[..k][..j]), events[..k][j]) {
          assert events[..k][..j] == events[..j];
        }
        HarmlessRuns(s, events[..k]);
      }
    }
  }

  // ---- who is lost ----

  /** A save loses nobody exactly when it names everybody the stored record does. */
  lemma SaveLosesNobodyIff(fleet: Fleet, n: Node)
    requires Placed(fleet)
    ensures (forall a :: Houses(fleet, a) ==> Houses(fleet[n.id := n], a)) <==>
            (n.id in fleet ==> forall a | a in fleet[n.id].agents :: a in n.agents)
  {
    var after := fleet[n.id := n];
    if forall a :: Houses(fleet, a) ==> Houses(after, a) {
      if n.id in fleet {
        forall a | a in fleet[n.id].agents ensures a in n.agents {
          assert Houses(fleet, a);
          var id :| id in after && a in after[id].agents;
        }
      }
    }
    if n.id in fleet ==> forall a | a in fleet[n.id].agents :: a in n.agents {
      forall a | Houses(fleet, a) ensures Houses(after, a) {
        var id :| id in fleet && a in fleet[id].agents;
        assert a in after[id].agents;
      }
    }
  }

  /** A call that nobody disturbs does what it should: the record is as it was found, and
      the agent, if it is to be placed, is not yet anywhere. */
  lemma UndisturbedAssignment(fleet: Fleet, n: Node, agent: string)
    requires Placed(fleet) && n.id in fleet && fleet[n.id] == n && n.CanAcceptAgent() && !Houses(fleet, agent)
    ensures Fits(fleet, With(n, agent))
    ensures forall a :: Houses(fleet[n.id := With(n, agent)], a) <==> Houses(fleet, a) || a == agent
  {
    assert agent !in n.agents;
    forall a ensures Houses(fleet[n.id := With(n, agent)], a) <==> Houses(fleet, a) || a == agent {
      PlaceHouses(fleet, n.id, agent, a);
      assert Place(fleet, n.id, agent) == fleet[n.id := With(n, agent)];
    }
    PlaceKeepsPlaced(fleet, n.id, agent);
    RegistrationPlacedIff(fleet, With(n, agent));
    assert Place(fleet, n.id, agent) == fleet[n.id := With(n, agent)];
  }

  // ---- what goes wrong ----

  ghost predicate Vacant(fleet: Fleet, id: string, agent: string) {
    agent != "" && id in fleet && fleet[id].CanAcceptAgent() && !Houses(fleet, agent)
  }

  /** Both calls have looked, neither has saved. */
  lemma BothHaveLooked(fleet: Fleet, x: string, y: string, a: string, b: string)
    requires Keyed(fleet) && Vacant(fleet, x, a) && Vacant(fleet, y, b)
    ensures After(System(fleet, map[]), [Find(0, x, a), Find(1, y, b), List(0), List(1)]) ==
            System(fleet, map[0 := Saving(fleet[x], With(fleet[x], a), a), 1 := Saving(fleet[y], With(fleet[y], b), b)])
  {
    assert a !in fleet[x].agents && b !in fleet[y].agents;
    assert !HousedElsewhere(fleet, x, a) && !HousedElsewhere(fleet, y, b);
    var s0 := System(fleet, map[]);
    var s1 := Next(s0, Find(0, x, a));
    var s2 := Next(s1, Find(1, y, b));
    var s3 := Next(s2, List(0));
    assert s2.calls == map[0 := Found(fleet[x], a), 1 := Found(fleet[y], b)];
    assert s3.calls == map[0 := Saving(fleet[x], With(fleet[x], a), a), 1 := Found(fleet[y], b)];
    FourEvents(s0, Find(0, x, a), Find(1, y, b), List(0), List(1));
  }

  lemma FourEvents(s: System, a: Event, b: Event, c: Event, d: Event)
    ensures After(s, [a, b, c, d]) == Next(Next(Next(Next(s, a), b), c), d)
  {
    hide Next;
    assert [a, b, c, d][..3] == [a, b, c] && [a, b, c][..2] == [a, b] && [a, b][..1] == [a] && [a][..0] == [];
    assert After(s, [a]) == Next(s, a);
    assert After(s, [a, b]) == Next(Next(s, a), b);
    assert After(s, [a, b, c]) == Next(Next(Next(s, a), b), c);
  }

  /** Whatever the fleet, an agent assigned to two nodes at a time ends up on both. */
  lemma OneAgentOnTwoNodes(fleet: Fleet, x: string, y: string, a: string)
    requires Placed(fleet) && x != y && Vacant(fleet, x, a) && Vacant(fleet, y, a)
    ensures var s := After(System(fleet, map[]), [Find(0, x, a), Find(1, y, a), List(0), List(1)]);
            !Placed(Next(Next(s, Save(0)), Save(1)).store)
  {
    BothHaveLooked(fleet, x, y, a, a);
    var s := System(fleet,
        map[0 := Saving(fleet[x], With(fleet[x], a), a), 1 := Saving(fleet[y], With(fleet[y], a), a)]);
    var store := Next(Next(s, Save(0)), Save(1)).store;
    assert a in store[x].agents && a in store[y].agents;
  }

  /** And of two agents assigned to one node at a time, the first is overwritten. */
  lemma FirstOfTwoIsOverwritten(fleet: Fleet, x: string, a: string, b: string)
    requires Placed(fleet) && a != b && Vacant(fleet, x, a) && Vacant(fleet, x, b)
    ensures var s := After(System(fleet, map[]), [Find(0, x, a), Find(1, x, b), List(0), List(1)]);
            Houses(Next(s, Save(0)).store, a) && !Houses(Next(Next(s, Save(0)), Save(1)).store, a)
  {
    BothHaveLooked(fleet, x, x, a, b);
    var s := System(fleet,
        map[0 := Saving(fleet[x], With(fleet[x], a), a), 1 := Saving(fleet[x], With(fleet[x], b), b)]);
    assert a in Next(s, Save(0)).store[x].agents;
    var store := Next(Next(s, Save(0)), Save(1)).store;
    forall id | id in store ensures a !in store[id].agents {
      assert a !in fleet[id].agents;
    }
  }
}
