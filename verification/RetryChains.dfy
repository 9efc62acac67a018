/** The shape of retry chains: disjoint paths, one leaf per original Step, so that
    counting leaves counts original Steps. */
module RetryChains {
  import opened Options
  import opened Fsm
  import opened Ledger
  import opened LedgerInvariants

  /** The row reached from `s` by following `hops` retry edges upwards. */
  ghost function Ancestor(db: Tables, s: Id, hops: nat): Id
    requires RetryPaths(db) && s < |db.steps| && hops <= db.steps[s].retryCount
    ensures Ancestor(db, s, hops) < |db.steps|
    ensures db.steps[Ancestor(db, s, hops)].retryCount == db.steps[s].retryCount - hops
    ensures db.steps[Ancestor(db, s, hops)].flowId == db.steps[s].flowId
    decreases hops
  {
    assert RetryLink(db, s);
    if hops == 0 then s else Ancestor(db, db.steps[s].retryOf.value, hops - 1)
  }

  ghost function Original(db: Tables, s: Id): Id
    requires RetryPaths(db) && s < |db.steps|
    ensures Original(db, s) < |db.steps|
  {
    Ancestor(db, s, db.steps[s].retryCount)
  }

  /** retry_count is the distance to the original: that many hops, and no fewer,
      reach a row that retries nothing. */
  lemma RetryCountIsDistance(db: Tables, s: Id, hops: nat)
    requires RetryPaths(db) && s < |db.steps| && hops <= db.steps[s].retryCount
    ensures db.steps[Ancestor(db, s, hops)].retryOf.None? <==> hops == db.steps[s].retryCount
  {
    assert RetryLink(db, Ancestor(db, s, hops));
  }

  /** Two rows of equal depth under one original are the same row. */
  lemma {:induction false} PathsDoNotFork(db: Tables, s: Id, t: Id)
    requires RetryPaths(db) && s < |db.steps| && t < |db.steps|
    requires Original(db, s) == Original(db, t) && db.steps[s].retryCount == db.steps[t].retryCount
    ensures s == t
    decreases db.steps[s].retryCount
  {
    assert RetryLink(db, s) && RetryLink(db, t);
    if db.steps[s].retryCount > 0 {
      PathsDoNotFork(db, db.steps[s].retryOf.value, db.steps[t].retryOf.value);
    }
  }

  lemma {:induction false} ProperAncestorIsNoLeaf(db: Tables, s: Id, hops: nat)
    requires RetryPaths(db) && s < |db.steps| && 0 < hops <= db.steps[s].retryCount
    ensures !IsLeaf(db, Ancestor(db, s, hops))
    ensures Original(db, Ancestor(db, s, hops)) == Original(db, s)
    decreases hops
  {
    assert RetryLink(db, s);
    var p := db.steps[s].retryOf.value;
    assert !IsLeaf(db, p);
    if hops > 1 { ProperAncestorIsNoLeaf(db, p, hops - 1); }
  }

  /** At most one leaf per original. */
  lemma LeafIsUnique(db: Tables, s: Id, t: Id)
    requires RetryPaths(db) && s < |db.steps| && t < |db.steps| && IsLeaf(db, s) && IsLeaf(db, t)
    requires Original(db, s) == Original(db, t) && db.steps[s].retryCount <= db.steps[t].retryCount
    ensures s == t
  {
    var hops := db.steps[t].retryCount - db.steps[s].retryCount;
    if hops > 0 {
      ProperAncestorIsNoLeaf(db, t, hops);
      PathsDoNotFork(db, s, Ancestor(db, t, hops));
    } else {
      PathsDoNotFork(db, s, t);
    }
  }

  /** At least one leaf per original, in the original's own Flow. */
  lemma {:induction false} LeafExists(db: Tables, s: Id) returns (leaf: Id)
    requires RetryPaths(db) && s < |db.steps|
    ensures LeafOf(db, db.steps[s].flowId, leaf) && Original(db, leaf) == Original(db, s)
    decreases |db.steps| - s
  {
    if IsLeaf(db, s) {
      leaf := s;
    } else {
      var r :| 0 <= r < |db.steps| && db.steps[r].retryOf == Some(s);
      assert RetryLink(db, r);
      assert Original(db, r) == Original(db, s);
      leaf := LeafExists(db, r);
    }
  }

  // ---- counting ----

  ghost function LeafIds(db: Tables, f: Id): set<nat> { set s | 0 <= s < |db.steps| && LeafOf(db, f, s) }

  ghost function OriginalIds(db: Tables, f: Id): set<nat> {
    set s | 0 <= s < |db.steps| && db.steps[s].flowId == f && db.steps[s].retryOf.None?
  }

  ghost predicate Injective<K, V>(m: map<K, V>) {
    forall j, k | j in m && k in m && j != k :: m[j] != m[k]
  }

  lemma {:induction false} InjectionKeepsSize<K, V>(m: map<K, V>)
    requires Injective(m)
    ensures |m.Keys| == |m.Values|
    decreases |m.Keys|
  {
    if |m| == 0 {
      assert m.Values == {};
    } else {
      var k :| k in m.Keys;
      var rest := m - {k};
      assert rest.Keys == m.Keys - {k};
      forall v | v in m.Values && v != m[k] ensures v in rest.Values {
        var j :| j in m.Keys && m[j] == v;
        assert j in rest.Keys && rest[j] == v;
      }
      assert rest.Values == m.Values - {m[k]};
      InjectionKeepsSize(rest);
    }
  }

  /** However many retries there have been, a Flow has as many leaves as original Steps. */
  lemma LeavesCountOriginals(db: Tables, f: Id)
    requires RetryPaths(db)
    ensures |LeafIds(db, f)| == |OriginalIds(db, f)|
  {
    var leaves, originals := LeafIds(db, f), OriginalIds(db, f);
    var image := map s | s in leaves :: Original(db, s);
    forall v ensures v in originals <==> v in image.Values {
      if v in originals {
        var leaf := LeafExists(db, v);
        assert RetryLink(db, v);
        assert leaf in image.Keys && image[leaf] == v;
      }
      if v in image.Values {
        var s: int :| s in image.Keys && image[s] == v;
        RetryCountIsDistance(db, s, db.steps[s].retryCount);
      }
    }
    assert originals == image.Values && leaves == image.Keys;
    forall s, t | s in image && t in image && s != t ensures image[s] != image[t] {
      if Original(db, s) == Original(db, t) {
        if db.steps[s].retryCount <= db.steps[t].retryCount { LeafIsUnique(db, s, t); } else { LeafIsUnique(db, t, s); }
      }
    }
    InjectionKeepsSize(image);
  }
}
