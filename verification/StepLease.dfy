/** Exclusive leases with a time to live, held in memory. A holder record is
    allocated by every grant and handles point at it; here the records form the
    append-only arena `grants` and a pointer is a position in it. */
module StepLease {
  import opened Ledger

  datatype Grant = Grant(stepId: Id, nodeId: string, start: Time, expiresAt: Time)

  /** `latest` (each step's last grant), `released` (when a grant was given back by
      its own holder) and `clock` (the last reading of the clock) are history: no
      decision depends on them. */
  datatype Leases = Leases(
    holders: map<Id, nat>, grants: seq<Grant>, closed: bool,
    latest: map<Id, nat>, released: map<nat, Time>, clock: Time)

  datatype LeaseError = Granted | Canceled | AlreadyHeld | LeaseExpired

  function Empty(now: Time): Leases { Leases(map[], [], false, map[], map[], now) }

  /** The two clock readings of a call: one for the check, a later one for the new expiry. */
  predicate ReadsClock(l: Leases, t1: Time, t2: Time) { l.clock <= t1 <= t2 }

  predicate Busy(l: Leases, stepId: Id, now: Time) {
    stepId in l.holders && l.holders[stepId] < |l.grants| && now < l.grants[l.holders[stepId]].expiresAt
  }

  function AcquireError(l: Leases, stepId: Id, t1: Time): LeaseError {
    if l.closed then Canceled else if Busy(l, stepId, t1) then AlreadyHeld else Granted
  }

  function Acquire(l: Leases, stepId: Id, nodeId: string, ttl: nat, t1: Time, t2: Time): Leases {
    if !AcquireError(l, stepId, t1).Granted? then l.(clock := t2)
    else
      l.(holders := l.holders[stepId := |l.grants|], grants := l.grants + [Grant(stepId, nodeId, t2, t2 + ttl)],
         latest := l.latest[stepId := |l.grants|], clock := t2)
  }

  predicate Current(l: Leases, stepId: Id, ticket: nat) {
    stepId in l.holders && l.holders[stepId] == ticket && ticket < |l.grants|
  }

  function KeepaliveError(l: Leases, stepId: Id, ticket: nat, t1: Time): LeaseError {
    if !Current(l, stepId, ticket) || t1 > l.grants[ticket].expiresAt then LeaseExpired else Granted
  }

  function Keepalive(l: Leases, stepId: Id, ticket: nat, ttl: nat, t1: Time, t2: Time): Leases {
    if !KeepaliveError(l, stepId, ticket, t1).Granted? then l.(clock := t2)
    else l.(grants := l.grants[ticket := l.grants[ticket].(expiresAt := t2 + ttl)], clock := t2)
  }

  function Release(l: Leases, stepId: Id, ticket: nat, now: Time): Leases {
    if !Current(l, stepId, ticket) then l.(clock := now)
    else
      l.(holders := l.holders - {stepId}, released := l.released[ticket := now], clock := now)
  }

  /** A timer goes off; it may be late, or belong to a grant long gone. */
  function Expire(l: Leases, stepId: Id, now: Time): Leases {
    if stepId !in l.holders || Busy(l, stepId, now) then l.(clock := now)
    else l.(holders := l.holders - {stepId}, clock := now)
  }

  function Close(l: Leases): Leases { l.(holders := map[], closed := true) }

  // ---- ownership over time ----

  function Min(a: Time, b: Time): Time { if a < b then a else b }

  /** When a grant stops conferring ownership: its expiry, or an earlier release. */
  function End(l: Leases, g: nat): Time
    requires g < |l.grants|
  {
    if g in l.released then Min(l.grants[g].expiresAt, l.released[g]) else l.grants[g].expiresAt
  }

  predicate Owns(l: Leases, g: nat, at: Time) { g < |l.grants| && l.grants[g].start <= at < End(l, g) }

  predicate HolderOk(l: Leases, s: Id) {
    s in l.holders && s in l.latest && l.holders[s] == l.latest[s] && l.latest[s] < |l.grants| &&
    l.latest[s] !in l.released
  }

  predicate LatestOk(l: Leases, s: Id) {
    s in l.latest && l.latest[s] < |l.grants| && l.grants[l.latest[s]].stepId == s
  }

  /** A grant lies in the past; once it is no longer current, its end does too. */
  predicate GrantOk(l: Leases, g: nat) {
    && g < |l.grants| && l.grants[g].start <= l.clock
    && l.grants[g].stepId in l.latest && g <= l.latest[l.grants[g].stepId]
    && (l.closed || Current(l, l.grants[g].stepId, g) || End(l, g) <= l.clock)
  }

  /** Two grants of one step, in the order they were made, do not overlap. */
  predicate Apart(l: Leases, g: nat, h: nat) {
    g < h < |l.grants| && (l.grants[g].stepId == l.grants[h].stepId ==> End(l, g) <= l.grants[h].start)
  }

  ghost predicate Valid(l: Leases) {
    && (forall s | s in l.holders :: HolderOk(l, s))
    && (forall s | s in l.latest :: LatestOk(l, s))
    && (forall g | 0 <= g < |l.grants| :: GrantOk(l, g))
    && (forall g, h | 0 <= g < h < |l.grants| :: Apart(l, g, h))
    && (forall g | g in l.released :: g < |l.grants|)
  }

  datatype Op =
    | OpAcquire(stepId: Id, nodeId: string, ttl: nat)
    | OpKeepalive(stepId: Id, ticket: nat, ttl: nat)
    | OpRelease(stepId: Id, ticket: nat)
    | OpExpire(stepId: Id)
    | OpClose

  /** One call by anybody, with any handle, however stale, after any two delays. */
  function Step(l: Leases, op: Op, wait1: nat, wait2: nat): Leases {
    var t1 := l.clock + wait1;
    var t2 := t1 + wait2;
    match op
    case OpAcquire(s, node, ttl) => Acquire(l, s, node, ttl, t1, t2)
    case OpKeepalive(s, ticket, ttl) => Keepalive(l, s, ticket, ttl, t1, t2)
    case OpRelease(s, ticket) => Release(l, s, ticket, t2)
    case OpExpire(s) => Expire(l, s, t2)
    case OpClose => Close(l)
  }

  lemma AcquireKeepsValid(l: Leases, s: Id, node: string, ttl: nat, t1: Time, t2: Time)
    requires Valid(l) && ReadsClock(l, t1, t2)
    ensures Valid(Acquire(l, s, node, ttl, t1, t2))
  {
    var m := Acquire(l, s, node, ttl, t1, t2);
    if m != l.(clock := t2) { NewGrantIsApart(l, s, node, ttl, t1, t2); }
    forall g | 0 <= g < |m.grants| ensures GrantOk(m, g) {
      if g < |l.grants| { assert GrantOk(l, g); assert s in l.latest ==> LatestOk(l, s); }
    }
    forall g, h | 0 <= g < h < |m.grants| ensures Apart(m, g, h) {
      if h < |l.grants| { assert Apart(l, g, h); }
    }
    forall q | q in m.latest ensures LatestOk(m, q) { if q in l.latest { assert LatestOk(l, q); } }
    forall q | q in m.holders ensures HolderOk(m, q) { if q in l.holders { assert HolderOk(l, q); } }
  }

  /** When a grant is given, every earlier grant of the step has ended. */
  lemma NewGrantIsApart(l: Leases, s: Id, node: string, ttl: nat, t1: Time, t2: Time)
    requires Valid(l) && ReadsClock(l, t1, t2) && AcquireError(l, s, t1).Granted?
    ensures var m := Acquire(l, s, node, ttl, t1, t2);
            forall g | 0 <= g < |l.grants| :: m.grants[g] == l.grants[g] && Apart(m, g, |l.grants|)
  {
    var m := Acquire(l, s, node, ttl, t1, t2);
    forall g | 0 <= g < |l.grants| ensures m.grants[g] == l.grants[g] && Apart(m, g, |l.grants|) {
      assert GrantOk(l, g);
    }
  }

  /** A call that changes at most one record, in place, and drops at most one holder. */
  lemma TouchKeepsValid(l: Leases, m: Leases, s: Id, ticket: nat)
    requires Valid(l) && m.closed == l.closed && l.clock <= m.clock && m.latest == l.latest && |m.grants| == |l.grants|
    requires m.holders == l.holders ||
             (m.holders == l.holders - {s} && Current(l, s, ticket) && End(m, ticket) <= m.clock)
    requires forall g | 0 <= g < |l.grants| && g != ticket :: m.grants[g] == l.grants[g]
    requires m.released == l.released ||
             (m.released == l.released[ticket := m.clock] && Current(l, s, ticket) && s !in m.holders)
    requires ticket < |l.grants| && m.grants[ticket] != l.grants[ticket] ==>
               Current(l, s, ticket) && m.grants[ticket].stepId == s && m.grants[ticket].start == l.grants[ticket].start
    ensures Valid(m)
  {
    forall g | 0 <= g < |m.grants| ensures GrantOk(m, g) {
      assert GrantOk(l, g);
      if s in l.holders { assert HolderOk(l, s) && LatestOk(l, s); }
    }
    forall g, h | 0 <= g < h < |m.grants| ensures Apart(m, g, h) {
      assert Apart(l, g, h) && GrantOk(l, g) && GrantOk(l, h);
      if s in l.holders { assert HolderOk(l, s) && LatestOk(l, s); }
    }
    forall q | q in m.latest ensures LatestOk(m, q) {
      assert LatestOk(l, q);
      if s in l.holders { assert HolderOk(l, s) && LatestOk(l, s); }
    }
    forall q | q in m.holders ensures HolderOk(m, q) { assert HolderOk(l, q) && LatestOk(l, q); }
  }

  lemma KeepaliveKeepsValid(l: Leases, s: Id, ticket: nat, ttl: nat, t1: Time, t2: Time)
    requires Valid(l) && ReadsClock(l, t1, t2)
    ensures Valid(Keepalive(l, s, ticket, ttl, t1, t2))
  {
    if s in l.holders { assert HolderOk(l, s) && LatestOk(l, s); }
    TouchKeepsValid(l, Keepalive(l, s, ticket, ttl, t1, t2), s, ticket);
  }

  lemma ReleaseKeepsValid(l: Leases, s: Id, ticket: nat, now: Time)
    requires Valid(l) && l.clock <= now
    ensures Valid(Release(l, s, ticket, now))
  {
    if s in l.holders { assert HolderOk(l, s) && LatestOk(l, s); }
    TouchKeepsValid(l, Release(l, s, ticket, now), s, ticket);
  }

  lemma ExpireKeepsValid(l: Leases, s: Id, now: Time)
    requires Valid(l) && l.clock <= now
    ensures Valid(Expire(l, s, now))
  {
    if s in l.holders { assert HolderOk(l, s) && LatestOk(l, s); }
    TouchKeepsValid(l, Expire(l, s, now), s, if s in l.holders then l.holders[s] else 0);
  }

  lemma StepKeepsValid(l: Leases, op: Op, wait1: nat, wait2: nat)
    requires Valid(l)
    ensures Valid(Step(l, op, wait1, wait2))
  {
    var t1 := l.clock + wait1;
    var t2 := t1 + wait2;
    match op
    case OpAcquire(s, node, ttl) => AcquireKeepsValid(l, s, node, ttl, t1, t2);
    case OpKeepalive(s, ticket, ttl) => KeepaliveKeepsValid(l, s, ticket, ttl, t1, t2);
    case OpRelease(s, ticket) => ReleaseKeepsValid(l, s, ticket, t2);
    case OpExpire(s) => ExpireKeepsValid(l, s, t2);
    case OpClose =>
      forall g | 0 <= g < |l.grants| ensures GrantOk(Close(l), g) { assert GrantOk(l, g); }
      forall q | q in l.latest ensures LatestOk(Close(l), q) { assert LatestOk(l, q); }
      forall g, h | 0 <= g < h < |l.grants| ensures Apart(Close(l), g, h) { assert Apart(l, g, h); }
  }

  function Steps(l: Leases, ops: seq<(Op, nat, nat)>): Leases
    decreases |ops|
  {
    if ops == [] then l
    else var (op, w1, w2) := ops[|ops| - 1]; Step(Steps(l, ops[..|ops| - 1]), op, w1, w2)
  }

  lemma {:induction false} RunsStayValid(now: Time, ops: seq<(Op, nat, nat)>)
    ensures Valid(Steps(Empty(now), ops))
    decreases |ops|
  {
    if ops != [] {
      RunsStayValid(now, ops[..|ops| - 1]);
      var (op, w1, w2) := ops[|ops| - 1];
      StepKeepsValid(Steps(Empty(now), ops[..|ops| - 1]), op, w1, w2);
    }
  }

  /** Mutual exclusion over time: in every run, at every instant, at most one grant
      ever made for a step confers ownership. */
  lemma OneOwnerAtATime(now: Time, ops: seq<(Op, nat, nat)>, g: nat, h: nat, at: Time)
    requires var l := Steps(Empty(now), ops);
             Owns(l, g, at) && Owns(l, h, at) && l.grants[g].stepId == l.grants[h].stepId
    ensures g == h
  {
    RunsStayValid(now, ops);
    var l := Steps(Empty(now), ops);
    assert g < h ==> Apart(l, g, h);
    assert h < g ==> Apart(l, h, g);
  }

  /** A handle whose grant has been superseded can neither extend nor release
      anything, whatever the clock says. */
  lemma StaleHandleIsPowerless(l: Leases, stepId: Id, ticket: nat, ttl: nat, t1: Time, t2: Time)
    requires Valid(l) && stepId in l.latest && l.latest[stepId] != ticket
    ensures KeepaliveError(l, stepId, ticket, t1).LeaseExpired?
    ensures Keepalive(l, stepId, ticket, ttl, t1, t2) == l.(clock := t2)
    ensures Release(l, stepId, ticket, t2) == l.(clock := t2)
  {
    if stepId in l.holders { assert HolderOk(l, stepId); }
  }

  /** Ownership already conferred survives everybody else: until a live grant's end,
      no call but its own release, keepalive or the closing of the store changes it. */
  lemma LiveGrantIsUndisturbed(l: Leases, op: Op, wait1: nat, wait2: nat, g: nat)
    requires Valid(l) && !l.closed && Owns(l, g, l.clock + wait1 + wait2)
    requires !op.OpClose?
    requires op.OpRelease? || op.OpKeepalive? ==> op.ticket != g
    ensures Step(l, op, wait1, wait2).grants[g] == l.grants[g]
    ensures Current(Step(l, op, wait1, wait2), l.grants[g].stepId, g)
  {
    assert GrantOk(l, g);
  }

  // ---- what each call is for ----

  /** Nobody owns the step at this instant. */
  ghost predicate Free(l: Leases, s: Id, at: Time) {
    forall g | 0 <= g < |l.grants| && l.grants[g].stepId == s :: !Owns(l, g, at)
  }

  /** A lease is granted exactly when the store is open and nobody owns the step, and then
      it is owned from the second reading of the clock for the time to live. */
  lemma AcquireGrantsIff(l: Leases, s: Id, node: string, ttl: nat, t1: Time, t2: Time)
    requires Valid(l) && ReadsClock(l, t1, t2)
    ensures AcquireError(l, s, t1).Granted? <==> !l.closed && Free(l, s, t1)
    ensures !l.closed && Free(l, s, t1) ==>
              var m := Acquire(l, s, node, ttl, t1, t2);
              && |m.grants| == |l.grants| + 1 && m.grants[|l.grants|].stepId == s && m.grants[|l.grants|].nodeId == node
              && Current(m, s, |l.grants|) && forall at :: Owns(m, |l.grants|, at) <==> t2 <= at < t2 + ttl
  {
    if Busy(l, s, t1) && !l.closed {
      assert HolderOk(l, s) && LatestOk(l, s);
      assert GrantOk(l, l.holders[s]);
      assert Owns(l, l.holders[s], t1);
    }
    if !l.closed && !Busy(l, s, t1) {
      forall g | 0 <= g < |l.grants| && l.grants[g].stepId == s ensures !Owns(l, g, t1) { assert GrantOk(l, g); }
    }
  }

  /** The owner can renew for as long as the lease has not run out, and then owns it from
      the start of the grant to the new expiry. */
  lemma OwnerCanRenew(l: Leases, s: Id, ticket: nat, ttl: nat, t1: Time, t2: Time)
    requires Valid(l) && ReadsClock(l, t1, t2) && Current(l, s, ticket) && t1 <= l.grants[ticket].expiresAt
    ensures KeepaliveError(l, s, ticket, t1).Granted?
    ensures var m := Keepalive(l, s, ticket, ttl, t1, t2);
            && Current(m, s, ticket) && m.grants[ticket].start == l.grants[ticket].start
            && forall at :: Owns(m, ticket, at) <==> l.grants[ticket].start <= at < t2 + ttl
  {
    assert HolderOk(l, s);
  }

  /** Nobody can renew a lease that has run out. */
  lemma LapsedIsNotRenewed(l: Leases, s: Id, ticket: nat, ttl: nat, t1: Time, t2: Time)
    requires ticket < |l.grants| && l.grants[ticket].expiresAt < t1
    ensures KeepaliveError(l, s, ticket, t1).LeaseExpired?
    ensures Keepalive(l, s, ticket, ttl, t1, t2) == l.(clock := t2)
  {
  }

  /** Giving a lease back ends its ownership and frees the step, from that moment on. */
  lemma ReleaseFrees(l: Leases, s: Id, ticket: nat, now: Time, at: Time)
    requires Valid(l) && l.clock <= now <= at && !l.closed && Current(l, s, ticket)
    ensures Free(Release(l, s, ticket, now), s, at)
  {
    var m := Release(l, s, ticket, now);
    assert HolderOk(l, s);
    forall g | 0 <= g < |m.grants| && m.grants[g].stepId == s ensures !Owns(m, g, at) { assert GrantOk(l, g); }
  }

  /** A timer drops exactly the holder whose lease has run out. */
  lemma ExpireDropsIff(l: Leases, s: Id, now: Time)
    requires Valid(l) && l.clock <= now && s in l.holders
    ensures s in Expire(l, s, now).holders <==> now < l.grants[l.holders[s]].expiresAt
    ensures Expire(l, s, now).holders - {s} == l.holders - {s}
  {
    assert HolderOk(l, s);
  }

  function StepsFrom(l: Leases, ops: seq<(Op, nat, nat)>): Leases
    decreases |ops|
  {
    if ops == [] then l
    else var (op, w1, w2) := ops[|ops| - 1]; Step(StepsFrom(l, ops[..|ops| - 1]), op, w1, w2)
  }

  lemma LapsedStaysInStep(l: Leases, op: Op, wait1: nat, wait2: nat, g: nat)
    requires Valid(l) && g < |l.grants| && End(l, g) < l.clock
    ensures var m := Step(l, op, wait1, wait2); g < |m.grants| && End(m, g) == End(l, g) && l.clock <= m.clock
  {
    if op.OpKeepalive? && op.stepId in l.holders { assert HolderOk(l, op.stepId); }
    if op.OpRelease? && op.stepId in l.holders { assert HolderOk(l, op.stepId) && LatestOk(l, op.stepId); }
  }

  /** Once the clock has been read past the end of a grant, no run of calls makes it own
      anything again. */
  lemma {:induction false} LapsedStaysLapsed(l: Leases, ops: seq<(Op, nat, nat)>, g: nat)
    requires Valid(l) && g < |l.grants| && End(l, g) < l.clock
    ensures var m := StepsFrom(l, ops);
            && Valid(m) && g < |m.grants| && End(m, g) == End(l, g) && l.clock <= m.clock
            && forall at | l.clock <= at :: !Owns(m, g, at)
    decreases |ops|
  {
    if ops != [] {
      LapsedStaysLapsed(l, ops[..|ops| - 1], g);
      var (op, w1, w2) := ops[|ops| - 1];
      var before := StepsFrom(l, ops[..|ops| - 1]);
      StepKeepsValid(before, op, w1, w2);
      LapsedStaysInStep(before, op, w1, w2, g);
    }
  }
}
