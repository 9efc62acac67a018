/** The in-process lease store. Calls are serialised by its mutex, so each is one
    method; clock readings are parameters. */
module MemoryLeases {
  import opened Ledger
  import opened Spec = StepLease

  /** What the caller keeps; `ticket` is its pointer to the holder record. */
  class Handle {
    const stepId: Id
    const ticket: nat
    var expiresAt: Time

    constructor (stepId: Id, ticket: nat, expiresAt: Time)
      ensures this.stepId == stepId && this.ticket == ticket && this.expiresAt == expiresAt
    {
      this.stepId, this.ticket, this.expiresAt := stepId, ticket, expiresAt;
    }
  }

  class MemoryLease {
    var holders: map<Id, nat>
    var grants: seq<Grant>
    var closed: bool
    ghost var latest: map<Id, nat>
    ghost var released: map<nat, Time>
    /** The last reading of the system clock. */
    var clock: Time

    ghost function View(): Leases reads this { Leases(holders, grants, closed, latest, released, clock) }

    constructor (now: Time)
      ensures View() == Empty(now) && Valid(View())
    {
      holders, grants, closed := map[], [], false;
      latest, released, clock := map[], map[], now;
    }

    /** Time passes, by any amount. */
    method Now() returns (t: Time)
      ensures clock <= t
    {
      var reading: int := *;
      t := if reading < clock then clock else reading;
    }

    method Acquire(stepId: Id, nodeId: string, ttl: nat, t1: Time, t2: Time) returns (err: LeaseError, h: Handle?)
      requires Valid(View()) && ReadsClock(View(), t1, t2)
      modifies this
      ensures Valid(View()) && View() == Spec.Acquire(old(View()), stepId, nodeId, ttl, t1, t2)
      ensures err == AcquireError(old(View()), stepId, t1)
      ensures err.Granted? <==> !old(closed) && old(Free(View(), stepId, t1))
      ensures err.Canceled? <==> old(closed)
      ensures err.Granted? <==> h != null
      ensures h != null ==>
                fresh(h) && h.stepId == stepId && h.ticket == |old(grants)| && h.expiresAt == t2 + ttl &&
                Current(View(), stepId, h.ticket)
    {
      AcquireKeepsValid(View(), stepId, nodeId, ttl, t1, t2);
      AcquireGrantsIff(View(), stepId, nodeId, ttl, t1, t2);
      clock := t2;
      if closed {
        return Canceled, null;
      }
      if stepId in holders {
        assert HolderOk(old(View()), stepId);
        if t1 < grants[holders[stepId]].expiresAt {
          return AlreadyHeld, null;
        }
      }
      var ticket := |grants|;
      grants := grants + [Grant(stepId, nodeId, t2, t2 + ttl)];
      holders, latest := holders[stepId := ticket], latest[stepId := ticket];
      err := Granted;
      h := new Handle(stepId, ticket, t2 + ttl);
    }

    method Keepalive(h: Handle, ttl: nat, t1: Time, t2: Time) returns (err: LeaseError)
      requires Valid(View()) && ReadsClock(View(), t1, t2)
      modifies this, h`expiresAt
      ensures Valid(View()) && View() == Spec.Keepalive(old(View()), h.stepId, h.ticket, ttl, t1, t2)
      ensures err == KeepaliveError(old(View()), h.stepId, h.ticket, t1)
      ensures h.expiresAt == if err.Granted? then t2 + ttl else old(h.expiresAt)
      ensures old(Current(View(), h.stepId, h.ticket)) && t1 <= old(grants)[h.ticket].expiresAt ==>
                err.Granted? && h.ticket < |grants| &&
                forall at :: Owns(View(), h.ticket, at) <==> old(grants)[h.ticket].start <= at < t2 + ttl
      ensures h.ticket < |old(grants)| && old(grants)[h.ticket].expiresAt < t1 ==>
                err.LeaseExpired? && grants == old(grants) && holders == old(holders)
    {
      if Current(View(), h.stepId, h.ticket) && t1 <= grants[h.ticket].expiresAt {
        OwnerCanRenew(View(), h.stepId, h.ticket, ttl, t1, t2);
      }
      KeepaliveKeepsValid(View(), h.stepId, h.ticket, ttl, t1, t2);
      clock := t2;
      if h.stepId !in holders || holders[h.stepId] != h.ticket {
        return LeaseExpired;
      }
      assert HolderOk(old(View()), h.stepId);
      if t1 > grants[h.ticket].expiresAt {
        return LeaseExpired;
      }
      grants := grants[h.ticket := grants[h.ticket].(expiresAt := t2 + ttl)];
      h.expiresAt := t2 + ttl;
      return Granted;
    }

    method Release(h: Handle, now: Time)
      requires Valid(View()) && View().clock <= now
      modifies this
      ensures Valid(View()) && View() == Spec.Release(old(View()), h.stepId, h.ticket, now)
      ensures old(Current(View(), h.stepId, h.ticket)) && !closed ==>
                h.stepId !in holders && Free(View(), h.stepId, now)
    {
      ReleaseKeepsValid(View(), h.stepId, h.ticket, now);
      if Current(View(), h.stepId, h.ticket) && !closed { ReleaseFrees(View(), h.stepId, h.ticket, now, now); }
      clock := now;
      if h.stepId !in holders || holders[h.stepId] != h.ticket {
        return;
      }
      assert HolderOk(old(View()), h.stepId);
      holders, released := holders - {h.stepId}, released[h.ticket := now];
    }

    /** A timer callback; reports whether an expiry event goes out to the watchers. */
    method Expire(stepId: Id, now: Time) returns (announced: bool)
      requires Valid(View()) && View().clock <= now
      modifies this
      ensures Valid(View()) && View() == Spec.Expire(old(View()), stepId, now)
      ensures announced <==>
                stepId in old(holders) && old(holders)[stepId] < |old(grants)| &&
                old(grants)[old(holders)[stepId]].expiresAt <= now
      ensures holders == if announced then old(holders) - {stepId} else old(holders)
    {
      ExpireKeepsValid(View(), stepId, now);
      clock := now;
      if stepId !in holders {
        return false;
      }
      assert HolderOk(old(View()), stepId);
      if now < grants[holders[stepId]].expiresAt {
        return false;
      }
      holders := holders - {stepId};
      return true;
    }

    method Close()
      requires Valid(View())
      modifies this
      ensures Valid(View()) && View() == Spec.Close(old(View()))
      ensures closed && holders == map[] && grants == old(grants)
    {
      StepKeepsValid(View(), OpClose, 0, 0);
      closed, holders := true, map[];
    }
  }
}
