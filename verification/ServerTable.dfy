/**
 The `mysql_servers` table of ProxySQL, keyed by (hostgroup, host, port), and what
 `syncCluster` turns it into.
 */
module ServerTable {
  import opened Text
  import opened Topology

  datatype Key = Key(hostgroup: int, addr: Addr)

  datatype ServerStatus = Serving | OfflineSoft | OfflineHard

  datatype Row = Row(status: ServerStatus, weight: nat, maxConnections: nat, comment: string)

  type Table = map<Key, Row>

  /** What the INSERT statements of the program write. */
  function DefaultRow(a: Addr): Row {
    Row(Serving, 1, 1000, "ClawSQL: " + InstanceId(a))
  }

  /** INSERT of an existing key is an error, which the callers swallow. */
  function Insert(t: Table, k: Key): Table {
    if k in t then t else t[k := DefaultRow(k.addr)]
  }

  function Delete(t: Table, k: Key): Table {
    t - {k}
  }

  /** The addresses a hostgroup serves. */
  function Members(t: Table, hostgroup: int): set<Addr> {
    set k | k in t && k.hostgroup == hostgroup :: k.addr
  }

  /** The rows that belong to other hostgroups. */
  function Foreign(t: Table, w: int, r: int): Table {
    map k | k in t && k.hostgroup != w && k.hostgroup != r :: t[k]
  }

  function KeysAt(hostgroup: int, addrs: set<Addr>): (keys: set<Key>)
    ensures forall k :: k in keys <==> k.hostgroup == hostgroup && k.addr in addrs
  {
    set a | a in addrs :: Key(hostgroup, a)
  }

  /** `expectedServers`, as keys. */
  function Expected(c: Cluster, w: int, r: int): set<Key> {
    KeysAt(w, PrimaryAddrs(c)) + KeysAt(r, ReplicaAddrs(c.replicas))
  }

  function Stale(t: Table, c: Cluster, w: int, r: int): set<Key> {
    set k | k in t && (k.hostgroup == w || k.hostgroup == r) && k !in Expected(c, w, r)
  }

  /** The keys present after a sync: a primary that is also listed as a replica ends as a reader only. */
  function Wanted(c: Cluster, w: int, r: int): set<Key> {
    KeysAt(w, PrimaryAddrs(c) - ReplicaAddrs(c.replicas)) + KeysAt(r, ReplicaAddrs(c.replicas))
  }

  /**
   The table after `syncCluster`. A row that was already there keeps its weight and status, except
   the reader row of the primary, which is deleted before it is inserted again.
   */
  function Synced(t: Table, c: Cluster, w: int, r: int): Table {
    Foreign(t, w, r) +
    map k | k in Wanted(c, w, r) ::
      if k in t && k !in KeysAt(r, PrimaryAddrs(c)) then t[k] else DefaultRow(k.addr)
  }

  function NewWriters(t: Table, c: Cluster, w: int): set<Addr> {
    set a | a in PrimaryAddrs(c) && Key(w, a) !in t
  }

  function NewReaders(t: Table, c: Cluster, r: int): set<Addr> {
    set a | a in ReplicaAddrs(c.replicas) && (Key(r, a) !in t || a in PrimaryAddrs(c))
  }

  /** The inserts that succeed during a sync. */
  function Added(t: Table, c: Cluster, w: int, r: int): nat {
    |NewWriters(t, c, w)| + |NewReaders(t, c, r)|
  }

  // ---------------------------------------------------------------------------
  // What a sync guarantees
  // ---------------------------------------------------------------------------

  /** Writers are the primary unless it is listed as a replica, readers are the replicas, the rest stays. */
  lemma SyncOutcome(t: Table, c: Cluster, w: int, r: int)
    requires w != r
    ensures Members(Synced(t, c, w, r), w) == PrimaryAddrs(c) - ReplicaAddrs(c.replicas)
    ensures Members(Synced(t, c, w, r), r) == ReplicaAddrs(c.replicas)
    ensures Foreign(Synced(t, c, w, r), w, r) == Foreign(t, w, r)
  {
    var t' := Synced(t, c, w, r);
    forall a | a in PrimaryAddrs(c) - ReplicaAddrs(c.replicas)
      ensures a in Members(t', w)
    {
      assert Key(w, a) in t';
    }
    forall a | a in ReplicaAddrs(c.replicas)
      ensures a in Members(t', r)
    {
      assert Key(r, a) in t';
    }
  }

  /** A row that a sync adds takes traffic at once: ONLINE, weight 1, up to 1000 connections. */
  lemma NewRowsServe(t: Table, c: Cluster, w: int, r: int, k: Key)
    requires w != r && k in Synced(t, c, w, r) && k !in t
    ensures Synced(t, c, w, r)[k] == Row(Serving, 1, 1000, "ClawSQL: " + k.addr.host + ":" + Dec(k.addr.port))
  {
    assert "ClawSQL: " + InstanceId(k.addr) == "ClawSQL: " + k.addr.host + ":" + Dec(k.addr.port);
  }

  /** A row that was there keeps its state, but for the reader row of a primary, which is written anew. */
  lemma OldRowsStay(t: Table, c: Cluster, w: int, r: int, k: Key)
    requires w != r && k in Synced(t, c, w, r) && k in t
    requires !(k.hostgroup == r && k.addr in PrimaryAddrs(c))
    ensures Synced(t, c, w, r)[k] == t[k]
  {
  }

  /** Two clusters that route to the same servers. */
  predicate SameRouting(c: Cluster, d: Cluster) {
    PrimaryAddrs(c) == PrimaryAddrs(d) && ReplicaAddrs(c.replicas) == ReplicaAddrs(d.replicas)
  }

  /** The keys of the two hostgroups. */
  function Owned(t: Table, w: int, r: int): set<Key> {
    set k | k in t && (k.hostgroup == w || k.hostgroup == r)
  }

  /** The reader row of a primary that is also a replica is written anew by every sync. */
  predicate RewritesNothing(t: Table, c: Cluster, r: int) {
    forall a | a in PrimaryAddrs(c) * ReplicaAddrs(c.replicas) && Key(r, a) in t :: t[Key(r, a)] == DefaultRow(a)
  }

  /** Exactly when a sync changes nothing, for any table and topology. */
  lemma UpToDateExactly(t: Table, c: Cluster, w: int, r: int)
    requires w != r
    ensures Synced(t, c, w, r) == t <==> Owned(t, w, r) == Wanted(c, w, r) && RewritesNothing(t, c, r)
  {
    var t' := Synced(t, c, w, r);
    assert Owned(t', w, r) == Wanted(c, w, r);
    if Owned(t, w, r) == Wanted(c, w, r) && RewritesNothing(t, c, r) {
      forall k
        ensures k in t' <==> k in t
        ensures k in t ==> t'[k] == t[k]
      {
        SyncedHas(t, c, w, r, k);
        assert k in t && (k.hostgroup == w || k.hostgroup == r) ==> k in Owned(t, w, r);
        if k in t && k in KeysAt(r, PrimaryAddrs(c)) {
          assert k == Key(r, k.addr) && k in Wanted(c, w, r);
        }
      }
    }
    if t' == t {
      forall a | a in PrimaryAddrs(c) * ReplicaAddrs(c.replicas) && Key(r, a) in t
        ensures t[Key(r, a)] == DefaultRow(a)
      {
        assert Key(r, a) in Wanted(c, w, r) && Key(r, a) in KeysAt(r, PrimaryAddrs(c));
      }
    }
  }

  lemma OwnedAfter(t: Table, c: Cluster, w: int, r: int)
    requires w != r
    ensures Owned(Synced(t, c, w, r), w, r) == Wanted(c, w, r)
  {
    forall k
      ensures k in Owned(Synced(t, c, w, r), w, r) <==> k in Wanted(c, w, r)
    {
      SyncedHas(t, c, w, r, k);
    }
  }

  /** A table synced for one topology needs no sync for another exactly when both place the same keys. */
  lemma FixedPointExactly(t: Table, c: Cluster, d: Cluster, w: int, r: int)
    requires w != r
    ensures Synced(Synced(t, c, w, r), d, w, r) == Synced(t, c, w, r) <==>
            Wanted(c, w, r) == Wanted(d, w, r) && RewritesNothing(Synced(t, c, w, r), d, r)
  {
    UpToDateExactly(Synced(t, c, w, r), d, w, r);
    OwnedAfter(t, c, w, r);
  }

  /** A sync sees of a cluster only its addresses, and repeating it changes nothing. */
  lemma SyncIdempotent(t: Table, c: Cluster, d: Cluster, w: int, r: int)
    requires w != r && SameRouting(c, d)
    ensures Synced(t, d, w, r) == Synced(t, c, w, r)
    ensures Synced(Synced(t, c, w, r), d, w, r) == Synced(t, c, w, r)
  {
    assert Wanted(c, w, r) == Wanted(d, w, r);
    assert Synced(t, d, w, r) == Synced(t, c, w, r);
    FixedPointExactly(t, c, d, w, r);
  }

  lemma SyncedHas(t: Table, c: Cluster, w: int, r: int, k: Key)
    requires w != r
    ensures k in Synced(t, c, w, r) <==>
            if k.hostgroup == w then k.addr in PrimaryAddrs(c) - ReplicaAddrs(c.replicas)
            else if k.hostgroup == r then k.addr in ReplicaAddrs(c.replicas)
            else k in t
  {
  }

  lemma GrownAndShrunk(t: Table, c: Cluster, w: int, r: int)
    requires w != r && PrimaryAddrs(c) !! ReplicaAddrs(c.replicas)
    ensures Synced(t, c, w, r).Keys - t.Keys == KeysAt(w, NewWriters(t, c, w)) + KeysAt(r, NewReaders(t, c, r))
    ensures t.Keys - Synced(t, c, w, r).Keys == Stale(t, c, w, r)
  {
    var t' := Synced(t, c, w, r);
    forall k
      ensures k in t' && k !in t <==> k in KeysAt(w, NewWriters(t, c, w)) || k in KeysAt(r, NewReaders(t, c, r))
      ensures k in t && k !in t' <==> k in Stale(t, c, w, r)
    {
      SyncedHas(t, c, w, r, k);
    }
  }

  /** For a primary outside the replicas the two counters are the sizes of the two set differences. */
  lemma CountersAreDifferences(t: Table, c: Cluster, w: int, r: int)
    requires w != r && PrimaryAddrs(c) !! ReplicaAddrs(c.replicas)
    ensures Added(t, c, w, r) == |Synced(t, c, w, r).Keys - t.Keys|
    ensures |Stale(t, c, w, r)| == |t.Keys - Synced(t, c, w, r).Keys|
  {
    GrownAndShrunk(t, c, w, r);
    KeysCount(NewWriters(t, c, w), w);
    KeysCount(NewReaders(t, c, r), r);
    assert KeysAt(w, NewWriters(t, c, w)) !! KeysAt(r, NewReaders(t, c, r));
  }

  lemma {:induction false} KeysCount(addrs: set<Addr>, hostgroup: int)
    ensures |KeysAt(hostgroup, addrs)| == |addrs|
    decreases |addrs|
  {
    if addrs == {} {
    } else {
      var a :| a in addrs;
      KeysCount(addrs - {a}, hostgroup);
      assert KeysAt(hostgroup, addrs) == KeysAt(hostgroup, addrs - {a}) + {Key(hostgroup, a)};
    }
  }

  /**
   The second of two equal syncs removes nothing; it adds nothing exactly when the primary is not
   also a replica, and otherwise reports two insertions each time although no row changed.
   */
  lemma SecondSyncCounts(t: Table, c: Cluster, w: int, r: int)
    requires w != r
    ensures |Stale(Synced(t, c, w, r), c, w, r)| == 0
    ensures Added(Synced(t, c, w, r), c, w, r) ==
            if PrimaryAddrs(c) !! ReplicaAddrs(c.replicas) then 0 else 2
  {
    var t' := Synced(t, c, w, r);
    assert Stale(t', c, w, r) == {};
    assert NewWriters(t', c, w) == PrimaryAddrs(c) * ReplicaAddrs(c.replicas);
    assert NewReaders(t', c, r) == PrimaryAddrs(c) * ReplicaAddrs(c.replicas);
    if !(PrimaryAddrs(c) !! ReplicaAddrs(c.replicas)) {
      assert PrimaryAddrs(c) * ReplicaAddrs(c.replicas) == {AddrOf(c.primary.value)};
    }
  }

  /** One writer remains exactly when there is a primary that no replica entry repeats. */
  lemma OneWriter(t: Table, c: Cluster, w: int, r: int)
    requires w != r
    ensures |Members(Synced(t, c, w, r), w)| == 1 <==>
            c.primary.Some? && AddrOf(c.primary.value) !in ReplicaAddrs(c.replicas)
  {
    SyncOutcome(t, c, w, r);
    if c.primary.Some? && AddrOf(c.primary.value) !in ReplicaAddrs(c.replicas) {
      assert PrimaryAddrs(c) - ReplicaAddrs(c.replicas) == {AddrOf(c.primary.value)};
    } else {
      assert PrimaryAddrs(c) - ReplicaAddrs(c.replicas) == {};
    }
  }
}
