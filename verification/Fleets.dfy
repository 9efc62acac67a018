/** Nodes and what it means to place agents on them. A fleet maps each node id to
    its stored record. */
module Fleets {
  import opened Options
  import opened Strings

  datatype NodeStatus = Online | Offline | Degraded

  datatype NodeType = K8sPod | BareMetal | UnknownType

  const HEARTBEAT_TIMEOUT: int := 90

  datatype Node = Node(
    id: string, hostname: string, nodeType: NodeType, status: NodeStatus, workspaceId: string,
    maxAgents: int, agents: seq<string>, registeredAt: int, lastHeartbeatAt: int)
  {
    predicate HasAgent(agentId: string) { agentId in agents }

    predicate CanAcceptAgent() { maxAgents == 0 || |agents| < maxAgents }

    predicate IsHeartbeatExpired(now: int) { now - lastHeartbeatAt > HEARTBEAT_TIMEOUT }
  }

  type Fleet = map<string, Node>

  predicate Eligible(n: Node, exclude: string) { n.id != exclude && n.status.Online? && n.CanAcceptAgent() }

  /** Fewer agents, ties broken by id. */
  predicate Lighter(a: Node, b: Node) {
    |a.agents| < |b.agents| || (|a.agents| == |b.agents| && Before(a.id, b.id))
  }

  ghost predicate Keyed(fleet: Fleet) { forall id | id in fleet :: fleet[id].id == id }

  ghost predicate Distinct(agents: seq<string>) { forall i, j | 0 <= i < j < |agents| :: agents[i] != agents[j] }

  ghost predicate Houses(fleet: Fleet, agent: string) { exists id :: id in fleet && agent in fleet[id].agents }

  /** Every agent sits at most once, on at most one node, and no bound is exceeded. */
  ghost predicate Placed(fleet: Fleet) {
    && Keyed(fleet)
    && (forall id | id in fleet :: Distinct(fleet[id].agents))
    && (forall id | id in fleet :: fleet[id].maxAgents > 0 ==> |fleet[id].agents| <= fleet[id].maxAgents)
    && (forall i, j, a | i in fleet && j in fleet && i != j && a in fleet[i].agents :: a !in fleet[j].agents)
  }

  // ---- the placement target ----

  ghost predicate IsTarget(fleet: Fleet, exclude: string, t: string) {
    && t in fleet && Eligible(fleet[t], exclude)
    && forall m | m in fleet && m != t && Eligible(fleet[m], exclude) :: Lighter(fleet[t], fleet[m])
  }

  ghost predicate NoneEligible(fleet: Fleet, exclude: string) {
    forall m | m in fleet :: !Eligible(fleet[m], exclude)
  }

  /** The target is a fact about the fleet, not about the order in which it was listed. */
  lemma TargetIsUnique(fleet: Fleet, exclude: string, s: string, t: string)
    requires IsTarget(fleet, exclude, s) && IsTarget(fleet, exclude, t)
    ensures s == t
  {
    if s != t { BeforeIsTotal(fleet[s].id, fleet[t].id); }
  }

  lemma LighterIsTransitive(a: Node, b: Node, c: Node)
    requires Lighter(a, b) && Lighter(b, c)
    ensures Lighter(a, c)
  {
    if |a.agents| == |c.agents| { BeforeIsTransitive(a.id, b.id, c.id); }
  }

  lemma {:induction false} LeastAmong(fleet: Fleet, exclude: string, ids: set<string>) returns (t: string)
    requires Keyed(fleet) && ids <= fleet.Keys && exists m :: m in ids && Eligible(fleet[m], exclude)
    ensures t in ids && Eligible(fleet[t], exclude)
    ensures forall m | m in ids && m != t && Eligible(fleet[m], exclude) :: Lighter(fleet[t], fleet[m])
    decreases |ids|
  {
    var x :| x in ids && Eligible(fleet[x], exclude);
    var rest := ids - {x};
    if m :| m in rest && Eligible(fleet[m], exclude) {
      var least := LeastAmong(fleet, exclude, rest);
      BeforeIsTotal(fleet[x].id, fleet[least].id);
      if Lighter(fleet[x], fleet[least]) {
        t := x;
        forall m | m in ids && m != t && Eligible(fleet[m], exclude) ensures Lighter(fleet[t], fleet[m]) {
          if m != least { LighterIsTransitive(fleet[x], fleet[least], fleet[m]); }
        }
      } else {
        t := least;
      }
    } else {
      t := x;
    }
  }

  ghost function Target(fleet: Fleet, exclude: string): (target: Option<string>)
    ensures target.Some? ==> IsTarget(fleet, exclude, target.value)
  {
    if exists t :: IsTarget(fleet, exclude, t) then
      var t :| IsTarget(fleet, exclude, t);
      Some(t)
    else None
  }

  lemma TargetDecided(fleet: Fleet, exclude: string)
    requires Keyed(fleet)
    ensures Target(fleet, exclude).None? <==> NoneEligible(fleet, exclude)
  {
    if m :| m in fleet && Eligible(fleet[m], exclude) {
      var t := LeastAmong(fleet, exclude, fleet.Keys);
      assert IsTarget(fleet, exclude, t);
    }
  }

  lemma TargetIs(fleet: Fleet, exclude: string, t: string)
    requires IsTarget(fleet, exclude, t)
    ensures Target(fleet, exclude) == Some(t)
  {
    TargetIsUnique(fleet, exclude, t, Target(fleet, exclude).value);
  }

  // ---- migration ----

  function Place(fleet: Fleet, t: string, agent: string): Fleet
    requires t in fleet
  {
    fleet[t := fleet[t].(agents := fleet[t].agents + [agent])]
  }

  datatype Settled = Settled(fleet: Fleet, unplaced: seq<string>)

  /** Place the agents one after the other, each on the target of its moment. */
  ghost function Settle(fleet: Fleet, exclude: string, agents: seq<string>): Settled
    decreases |agents|
  {
    if agents == [] then Settled(fleet, [])
    else
      var n := |agents| - 1;
      var before := Settle(fleet, exclude, agents[..n]);
      match Target(before.fleet, exclude)
      case None => Settled(before.fleet, before.unplaced + [agents[n]])
      case Some(t) => Settled(Place(before.fleet, t, agents[n]), before.unplaced)
  }

  function Emptied(fleet: Fleet, source: Node): Fleet { fleet[source.id := source.(agents := [])] }

  ghost function Migrate(fleet: Fleet, source: Node): Fleet {
    var s := Settle(Emptied(fleet, source), source.id, source.agents);
    s.fleet[source.id := source.(agents := s.unplaced)]
  }

  /** A node may only have gained agents, behind those it had. */
  ghost predicate Grew(a: Node, b: Node) {
    a.agents <= b.agents && b == a.(agents := b.agents)
  }

  ghost predicate FleetGrew(a: Fleet, b: Fleet) {
    a.Keys == b.Keys && forall id | id in a :: Grew(a[id], b[id])
  }

  lemma {:induction false} SettleGrows(fleet: Fleet, exclude: string, agents: seq<string>)
    requires Keyed(fleet)
    ensures Keyed(Settle(fleet, exclude, agents).fleet) && FleetGrew(fleet, Settle(fleet, exclude, agents).fleet)
    ensures exclude in fleet ==> Settle(fleet, exclude, agents).fleet[exclude] == fleet[exclude]
    decreases |agents|
  {
    if agents != [] {
      var before := Settle(fleet, exclude, agents[..|agents| - 1]);
      SettleGrows(fleet, exclude, agents[..|agents| - 1]);
      TargetDecided(before.fleet, exclude);
    }
  }

  // ---- every agent is still somewhere, once ----

  lemma PlaceHouses(fleet: Fleet, t: string, agent: string, a: string)
    requires t in fleet
    ensures Houses(Place(fleet, t, agent), a) <==> Houses(fleet, a) || a == agent
  {
    var after := Place(fleet, t, agent);
    if id :| id in fleet && a in fleet[id].agents { assert a in after[id].agents; }
    if a == agent { assert a in after[t].agents; }
    if id :| id in after && a in after[id].agents { assert id in fleet; }
  }

  lemma PlaceKeepsPlaced(fleet: Fleet, t: string, agent: string)
    requires Placed(fleet) && t in fleet && fleet[t].CanAcceptAgent() && !Houses(fleet, agent)
    ensures Placed(Place(fleet, t, agent))
  {
    assert agent !in fleet[t].agents;
  }

  /** After any number of placements an agent is housed, waiting, or neither, exactly as it should be. */
  lemma {:induction false} SettleConserves(fleet: Fleet, exclude: string, agents: seq<string>)
    requires Keyed(fleet)
    ensures var s := Settle(fleet, exclude, agents);
            forall a :: (Houses(s.fleet, a) || a in s.unplaced) <==> (Houses(fleet, a) || a in agents)
    decreases |agents|
  {
    if agents != [] {
      var n := |agents| - 1;
      var before, s := Settle(fleet, exclude, agents[..n]), Settle(fleet, exclude, agents);
      SettleConserves(fleet, exclude, agents[..n]);
      SettleGrows(fleet, exclude, agents[..n]);
      TargetDecided(before.fleet, exclude);
      assert agents == agents[..n] + [agents[n]];
      forall a ensures (Houses(s.fleet, a) || a in s.unplaced) <==> (Houses(fleet, a) || a in agents) {
        if Target(before.fleet, exclude).Some? {
          PlaceHouses(before.fleet, Target(before.fleet, exclude).value, agents[n], a);
        }
      }
    }
  }

  ghost predicate NoneHoused(fleet: Fleet, agents: seq<string>) { forall a | a in agents :: !Houses(fleet, a) }

  /** Well placed, and nobody both housed and waiting or waiting twice. */
  ghost predicate WellSettled(s: Settled) {
    Placed(s.fleet) && Distinct(s.unplaced) && NoneHoused(s.fleet, s.unplaced)
  }

  lemma {:induction false} SettleKeepsPlaced(fleet: Fleet, exclude: string, agents: seq<string>)
    requires Placed(fleet) && Distinct(agents) && NoneHoused(fleet, agents)
    ensures WellSettled(Settle(fleet, exclude, agents)) && |Settle(fleet, exclude, agents).unplaced| <= |agents|
    decreases |agents|
  {
    if agents != [] {
      var init, last := agents[..|agents| - 1], agents[|agents| - 1];
      SettleKeepsPlaced(fleet, exclude, init);
      var before := Settle(fleet, exclude, init);
      assert !Houses(before.fleet, last) && last !in before.unplaced by { NewcomerIsNew(fleet, exclude, agents); }
      OneMore(fleet, exclude, agents);
      hide Settle, Placed, Distinct, NoneHoused, Houses, Target;
      match Target(before.fleet, exclude)
      case None => TurnedAway(before, last);
      case Some(t) => WelcomedBy(before, exclude, t, last);
    }
  }

  lemma NewcomerIsNew(fleet: Fleet, exclude: string, agents: seq<string>)
    requires Keyed(fleet) && Distinct(agents) && NoneHoused(fleet, agents) && agents != []
    ensures var before, last := Settle(fleet, exclude, agents[..|agents| - 1]), agents[|agents| - 1];
            !Houses(before.fleet, last) && last !in before.unplaced
  {
    SettleConserves(fleet, exclude, agents[..|agents| - 1]);
  }

  lemma TurnedAway(s: Settled, agent: string)
    requires WellSettled(s) && !Houses(s.fleet, agent) && agent !in s.unplaced
    ensures WellSettled(Settled(s.fleet, s.unplaced + [agent]))
  {
    hide Placed;
  }

  lemma WelcomedBy(s: Settled, exclude: string, t: string, agent: string)
    requires WellSettled(s) && !Houses(s.fleet, agent) && agent !in s.unplaced && IsTarget(s.fleet, exclude, t)
    ensures WellSettled(Settled(Place(s.fleet, t, agent), s.unplaced))
  {
    PlaceKeepsPlaced(s.fleet, t, agent);
    hide Placed;
    forall a | a in s.unplaced ensures !Houses(Place(s.fleet, t, agent), a) { PlaceHouses(s.fleet, t, agent, a); }
  }

  lemma OneMore(fleet: Fleet, exclude: string, agents: seq<string>)
    requires agents != []
    ensures var before, last := Settle(fleet, exclude, agents[..|agents| - 1]), agents[|agents| - 1];
            Settle(fleet, exclude, agents) ==
            match Target(before.fleet, exclude)
            case None => Settled(before.fleet, before.unplaced + [last])
            case Some(t) => Settled(Place(before.fleet, t, last), before.unplaced)
  {
  }

  lemma TargetFits(fleet: Fleet, exclude: string, t: string)
    requires IsTarget(fleet, exclude, t)
    ensures t in fleet && Eligible(fleet[t], exclude)
  {
  }
}
