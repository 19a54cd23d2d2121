/** The warnings about disagreement between Orchestrator's topology and ProxySQL's server table. */
module ClusterView {
  import opened Text
  import opened Topology
  import opened ServerTable
  import opened ProxySql
  import Orchestrator

  datatype Warning =
    | MissingInProxySql(id: string)
    | WrongHostgroup(id: string, actual: int, expected: int)
    | UnknownInOrchestrator(id: string)

  /** The last row of each address: the one the lookup by `host:port` returns. */
  function LastRow(servers: seq<Server>, id: string): Option<Server> {
    if servers == [] then None
    else if InstanceId(servers[|servers| - 1].key.addr) == id then Some(servers[|servers| - 1])
    else LastRow(servers[..|servers| - 1], id)
  }

  /** The warning about one member; an unknown hostgroup is not checked. */
  function MemberWarning(a: Addr, expected: Option<int>, servers: seq<Server>): seq<Warning> {
    var row := LastRow(servers, InstanceId(a));
    if row.None? then [MissingInProxySql(InstanceId(a))]
    else if expected.Some? && row.value.key.hostgroup != expected.value then
      [WrongHostgroup(InstanceId(a), row.value.key.hostgroup, expected.value)]
    else []
  }

  function ReplicaWarnings(replicas: seq<Instance>, reader: Option<int>, servers: seq<Server>): seq<Warning> {
    if replicas == [] then []
    else
      ReplicaWarnings(replicas[..|replicas| - 1], reader, servers)
      + MemberWarning(AddrOf(replicas[|replicas| - 1]), reader, servers)
  }

  function MemberWarnings(c: Cluster, writer: Option<int>, reader: Option<int>, servers: seq<Server>): seq<Warning> {
    (if c.primary.Some? then MemberWarning(AddrOf(c.primary.value), writer, servers) else [])
    + ReplicaWarnings(c.replicas, reader, servers)
  }

  predicate IsMember(c: Cluster, a: Addr) {
    a in PrimaryAddrs(c) || a in ReplicaAddrs(c.replicas)
  }

  function UnknownWarnings(c: Cluster, servers: seq<Server>): seq<Warning> {
    if servers == [] then []
    else
      var s := servers[|servers| - 1];
      UnknownWarnings(c, servers[..|servers| - 1])
      + if !IsMember(c, s.key.addr) && s.row.status.Serving? then [UnknownInOrchestrator(InstanceId(s.key.addr))]
        else []
  }

  // ---------------------------------------------------------------------------
  // Which warnings, on the rows themselves
  // ---------------------------------------------------------------------------

  /** Row `k` is the last one at the address. */
  predicate LastAt(servers: seq<Server>, a: Addr, k: int) {
    0 <= k < |servers| && servers[k].key.addr == a && forall j | k < j < |servers| :: servers[j].key.addr != a
  }

  lemma {:induction false} LastRowAt(servers: seq<Server>, a: Addr, k: int)
    ensures LastAt(servers, a, k) ==> LastRow(servers, InstanceId(a)) == Some(servers[k])
    ensures (forall j | 0 <= j < |servers| :: servers[j].key.addr != a) ==> LastRow(servers, InstanceId(a)) == None
  {
    if servers == [] {
    } else {
      var last := |servers| - 1;
      if InstanceId(servers[last].key.addr) == InstanceId(a) {
        InstanceIdInjective(servers[last].key.addr, a);
      } else {
        LastRowAt(servers[..last], a, k);
      }
    }
  }

  /**
   The warning about one member: missing without a row, in the wrong hostgroup when its last row is in another one
   than its role asks for, and none otherwise or when that hostgroup is not known.
   */
  lemma WarningAbout(a: Addr, expected: Option<int>, servers: seq<Server>, k: int)
    ensures (forall j | 0 <= j < |servers| :: servers[j].key.addr != a) ==>
              MemberWarning(a, expected, servers) == [MissingInProxySql(InstanceId(a))]
    ensures LastAt(servers, a, k) ==>
              MemberWarning(a, expected, servers) ==
              if expected.Some? && servers[k].key.hostgroup != expected.value
              then [WrongHostgroup(InstanceId(a), servers[k].key.hostgroup, expected.value)] else []
  {
    LastRowAt(servers, a, k);
  }

  /** The primary is checked against the writer hostgroup, every replica against the reader hostgroup. */
  lemma {:induction false} MemberWarningsOf(c: Cluster, writer: Option<int>, reader: Option<int>,
                                            servers: seq<Server>, m: Warning)
    ensures m in MemberWarnings(c, writer, reader, servers) <==>
            || (c.primary.Some? && m in MemberWarning(AddrOf(c.primary.value), writer, servers))
            || (exists i :: 0 <= i < |c.replicas| && m in MemberWarning(AddrOf(c.replicas[i]), reader, servers))
    decreases |c.replicas|
  {
    if c.replicas == [] {
    } else {
      var last := |c.replicas| - 1;
      MemberWarningsOf(c.(replicas := c.replicas[..last]), writer, reader, servers, m);
      assert forall i | 0 <= i < last :: c.replicas[..last][i] == c.replicas[i];
    }
  }

  /** A row of a server that the topology does not list draws a warning when it is ONLINE. */
  lemma {:induction false} UnknownWarningsOf(c: Cluster, servers: seq<Server>, m: Warning)
    ensures m in UnknownWarnings(c, servers) <==>
            exists i :: && 0 <= i < |servers| && servers[i].row.status == Serving
                        && !IsMember(c, servers[i].key.addr)
                        && m == UnknownInOrchestrator(InstanceId(servers[i].key.addr))
  {
    if servers == [] {
    } else {
      var last := |servers| - 1;
      UnknownWarningsOf(c, servers[..last], m);
      assert forall i | 0 <= i < last :: servers[..last][i] == servers[i];
    }
  }

  /** The lookup by `host:port` built from the rows. */
  ghost predicate Indexes(configured: map<string, Server>, servers: seq<Server>) {
    forall id :: LastRow(servers, id) == if id in configured then Some(configured[id]) else None
  }

  function Ids(addrs: set<Addr>): set<string> {
    set a | a in addrs :: InstanceId(a)
  }

  /** The three kinds of warnings, members first. */
  method DetectSyncWarnings(c: Cluster, writer: Option<int>, reader: Option<int>, servers: seq<Server>)
    returns (warnings: seq<Warning>)
    ensures warnings == MemberWarnings(c, writer, reader, servers) + UnknownWarnings(c, servers)
  {
    warnings := [];
    var known: set<string> := {};
    var configured := Configure(servers);
    if c.primary.Some? {
      known := known + {InstanceId(AddrOf(c.primary.value))};
      warnings := CheckMember(AddrOf(c.primary.value), writer, configured, servers);
    }
    assert known == Ids(PrimaryAddrs(c));
    var ids, found := CheckReplicas(c.replicas, reader, configured, servers);
    known := known + ids;
    assert known == Ids(PrimaryAddrs(c) + ReplicaAddrs(c.replicas));
    var unknown := CheckServers(c, known, servers);
    warnings := warnings + found + unknown;
  }

  method Configure(servers: seq<Server>) returns (configured: map<string, Server>)
    ensures Indexes(configured, servers)
  {
    configured := map[];
    for n := 0 to |servers|
      invariant Indexes(configured, servers[..n])
    {
      assert servers[..n + 1][..n] == servers[..n] && servers[..n + 1][n] == servers[n];
      configured := configured[InstanceId(servers[n].key.addr) := servers[n]];
    }
    assert servers[..|servers|] == servers;
  }

  method CheckMember(a: Addr, expected: Option<int>, configured: map<string, Server>, ghost servers: seq<Server>)
    returns (found: seq<Warning>)
    requires Indexes(configured, servers)
    ensures found == MemberWarning(a, expected, servers)
  {
    var id := InstanceId(a);
    if id !in configured {
      assert LastRow(servers, id) == None;
      found := [MissingInProxySql(id)];
    } else {
      assert LastRow(servers, id) == Some(configured[id]);
      if expected.Some? && configured[id].key.hostgroup != expected.value {
        found := [WrongHostgroup(id, configured[id].key.hostgroup, expected.value)];
      } else {
        found := [];
      }
    }
  }

  method CheckReplicas(replicas: seq<Instance>, reader: Option<int>, configured: map<string, Server>,
                       ghost servers: seq<Server>)
    returns (known: set<string>, found: seq<Warning>)
    requires Indexes(configured, servers)
    ensures known == Ids(ReplicaAddrs(replicas))
    ensures found == ReplicaWarnings(replicas, reader, servers)
  {
    known, found := {}, [];
    for n := 0 to |replicas|
      invariant known == Ids(ReplicaAddrs(replicas[..n]))
      invariant found == ReplicaWarnings(replicas[..n], reader, servers)
    {
      OneMoreReplica(replicas, n, reader, servers);
      known := known + {InstanceId(AddrOf(replicas[n]))};
      var more := CheckMember(AddrOf(replicas[n]), reader, configured, servers);
      found := found + more;
    }
    assert replicas[..|replicas|] == replicas;
  }

  lemma OneMoreReplica(replicas: seq<Instance>, n: nat, reader: Option<int>, servers: seq<Server>)
    requires n < |replicas|
    ensures Ids(ReplicaAddrs(replicas[..n + 1])) == Ids(ReplicaAddrs(replicas[..n])) + {InstanceId(AddrOf(replicas[n]))}
    ensures ReplicaWarnings(replicas[..n + 1], reader, servers) ==
            ReplicaWarnings(replicas[..n], reader, servers) + MemberWarning(AddrOf(replicas[n]), reader, servers)
  {
    assert replicas[..n + 1][..n] == replicas[..n] && replicas[..n + 1][n] == replicas[n];
    assert ReplicaAddrs(replicas[..n + 1]) == ReplicaAddrs(replicas[..n]) + {AddrOf(replicas[n])};
  }

  method CheckServers(c: Cluster, known: set<string>, servers: seq<Server>) returns (found: seq<Warning>)
    requires known == Ids(PrimaryAddrs(c) + ReplicaAddrs(c.replicas))
    ensures found == UnknownWarnings(c, servers)
  {
    found := [];
    for n := 0 to |servers|
      invariant found == UnknownWarnings(c, servers[..n])
    {
      assert servers[..n + 1][..n] == servers[..n] && servers[..n + 1][n] == servers[n];
      var id := InstanceId(servers[n].key.addr);
      KnownMeansMember(c, known, servers[n].key.addr);
      if id !in known && servers[n].row.status.Serving? {
        found := found + [UnknownInOrchestrator(id)];
      }
    }
    assert servers[..|servers|] == servers;
  }

  lemma KnownMeansMember(c: Cluster, known: set<string>, a: Addr)
    requires known == Ids(PrimaryAddrs(c) + ReplicaAddrs(c.replicas))
    ensures InstanceId(a) in known <==> IsMember(c, a)
  {
    if InstanceId(a) in known {
      var x :| x in PrimaryAddrs(c) + ReplicaAddrs(c.replicas) && InstanceId(x) == InstanceId(a);
      InstanceIdInjective(x, a);
    }
  }

  // ---------------------------------------------------------------------------
  // After a sync
  // ---------------------------------------------------------------------------

  /** The lookup returns a row of the address, if there is one. */
  lemma {:induction false} LastRowFound(servers: seq<Server>, a: Addr)
    ensures var row := LastRow(servers, InstanceId(a));
            && (row.None? <==> forall i | 0 <= i < |servers| :: servers[i].key.addr != a)
            && (row.Some? ==> row.value in servers && row.value.key.addr == a)
    decreases |servers|
  {
    if servers == [] {
    } else {
      var last := |servers| - 1;
      LastRowFound(servers[..last], a);
      if InstanceId(servers[last].key.addr) == InstanceId(a) {
        InstanceIdInjective(servers[last].key.addr, a);
      }
    }
  }

  /** The primary is not listed as a replica as well. */
  predicate PrimaryApart(c: Cluster) {
    PrimaryAddrs(c) !! ReplicaAddrs(c.replicas)
  }

  /** No row of another hostgroup holds a member of the cluster. */
  predicate NoForeignMembers(t: Table, c: Cluster, w: int, r: int) {
    forall k | k in t && k.hostgroup != w && k.hostgroup != r :: !IsMember(c, k.addr)
  }

  /** A member whose only rows are in the hostgroup it belongs to draws no warning. */
  lemma MemberQuiet(t: Table, servers: seq<Server>, a: Addr, hostgroup: int)
    requires Lists(servers, t) && Key(hostgroup, a) in t
    requires forall k | k in t && k.addr == a :: k.hostgroup == hostgroup
    ensures MemberWarning(a, Some(hostgroup), servers) == []
  {
    LastRowFound(servers, a);
    var i :| 0 <= i < |servers| && servers[i].key == Key(hostgroup, a);
    var row := LastRow(servers, InstanceId(a));
    assert row.Some?;
    var j :| 0 <= j < |servers| && servers[j] == row.value;
  }

  lemma {:induction false} ReplicasQuiet(t: Table, c: Cluster, servers: seq<Server>, w: int, r: int, n: nat)
    requires w != r && n <= |c.replicas| && PrimaryApart(c) && NoForeignMembers(t, c, w, r)
    requires Lists(servers, Synced(t, c, w, r))
    ensures ReplicaWarnings(c.replicas[..n], Some(r), servers) == []
    decreases n
  {
    if n == 0 {
    } else {
      ReplicasQuiet(t, c, servers, w, r, n - 1);
      assert c.replicas[..n][..n - 1] == c.replicas[..n - 1];
      var a := AddrOf(c.replicas[n - 1]);
      assert a in ReplicaAddrs(c.replicas);
      SyncedRowsOf(t, c, w, r, a);
      MemberQuiet(Synced(t, c, w, r), servers, a, r);
    }
  }

  /** After a sync a member's own rows are in its own hostgroup. */
  lemma SyncedRowsOf(t: Table, c: Cluster, w: int, r: int, a: Addr)
    requires w != r && PrimaryApart(c) && NoForeignMembers(t, c, w, r) && IsMember(c, a)
    ensures var g := if a in PrimaryAddrs(c) then w else r;
            && Key(g, a) in Synced(t, c, w, r)
            && forall k | k in Synced(t, c, w, r) && k.addr == a :: k.hostgroup == g
  {
    var g := if a in PrimaryAddrs(c) then w else r;
    SyncedHas(t, c, w, r, Key(g, a));
    forall k | k in Synced(t, c, w, r) && k.addr == a
      ensures k.hostgroup == g
    {
      SyncedHas(t, c, w, r, k);
    }
  }

  /** Syncing a cluster of distinct members silences every warning about them, in whatever order the rows are read. */
  lemma SyncSilencesMembers(t: Table, c: Cluster, servers: seq<Server>, w: int, r: int)
    requires w != r && PrimaryApart(c) && NoForeignMembers(t, c, w, r)
    requires Lists(servers, Synced(t, c, w, r))
    ensures MemberWarnings(c, Some(w), Some(r), servers) == []
  {
    ReplicasQuiet(t, c, servers, w, r, |c.replicas|);
    assert c.replicas[..|c.replicas|] == c.replicas;
    if c.primary.Some? {
      var a := AddrOf(c.primary.value);
      SyncedRowsOf(t, c, w, r, a);
      MemberQuiet(Synced(t, c, w, r), servers, a, w);
    }
  }

  /** The rows that no hostgroup of the cluster owns and that serve. */
  predicate ForeignServing(s: Server, w: int, r: int) {
    s.key.hostgroup != w && s.key.hostgroup != r && s.row.status.Serving?
  }

  lemma {:induction false} UnknownCount(c: Cluster, servers: seq<Server>, w: int, r: int, id: string)
    requires forall i | 0 <= i < |servers| ::
               !IsMember(c, servers[i].key.addr) <==> servers[i].key.hostgroup != w && servers[i].key.hostgroup != r
    ensures UnknownInOrchestrator(id) in UnknownWarnings(c, servers) <==>
            exists i :: 0 <= i < |servers| && ForeignServing(servers[i], w, r) && InstanceId(servers[i].key.addr) == id
    decreases |servers|
  {
    if servers == [] {
    } else {
      var last := |servers| - 1;
      var front := servers[..last];
      assert forall i | 0 <= i < last :: front[i] == servers[i];
      UnknownCount(c, front, w, r, id);
      if ForeignServing(servers[last], w, r) && InstanceId(servers[last].key.addr) == id {
        assert UnknownWarnings(c, servers)[|UnknownWarnings(c, servers)| - 1] == UnknownInOrchestrator(id);
      }
    }
  }

  /** ... and the unknown warnings are then about exactly the serving rows of other hostgroups. */
  lemma SyncLeavesForeign(t: Table, c: Cluster, servers: seq<Server>, w: int, r: int, id: string)
    requires w != r && PrimaryApart(c) && NoForeignMembers(t, c, w, r)
    requires Lists(servers, Synced(t, c, w, r))
    ensures UnknownInOrchestrator(id) in UnknownWarnings(c, servers) <==>
            exists i :: 0 <= i < |servers| && ForeignServing(servers[i], w, r) && InstanceId(servers[i].key.addr) == id
  {
    forall i | 0 <= i < |servers|
      ensures !IsMember(c, servers[i].key.addr) <==> servers[i].key.hostgroup != w && servers[i].key.hostgroup != r
    {
      SyncedHas(t, c, w, r, servers[i].key);
      if IsMember(c, servers[i].key.addr) {
        SyncedRowsOf(t, c, w, r, servers[i].key.addr);
      }
    }
    UnknownCount(c, servers, w, r, id);
  }

  /**
   Parse, sync, check: reports of distinct addresses, synced into two hostgroups and read back in any
   order, draw no warning about a member, whatever the table held before.
   */
  lemma ParseSyncCheck(reports: seq<Orchestrator.Report>, c: Cluster, t: Table, servers: seq<Server>, w: int, r: int,
                       id: string)
    requires Orchestrator.DistinctReports(reports) && Orchestrator.ParsedFrom(reports, c)
    requires w != r && NoForeignMembers(t, c, w, r) && Lists(servers, Synced(t, c, w, r))
    ensures MemberWarnings(c, Some(w), Some(r), servers) == []
    ensures UnknownInOrchestrator(id) in UnknownWarnings(c, servers) <==>
            exists i :: 0 <= i < |servers| && ForeignServing(servers[i], w, r) && InstanceId(servers[i].key.addr) == id
  {
    Orchestrator.ParsedIsDistinct(reports, c);
    SyncSilencesMembers(t, c, servers, w, r);
    SyncLeavesForeign(t, c, servers, w, r, id);
  }

  /** The three calls in a row. */
  method ParseSyncAndCheck(reports: seq<Orchestrator.Report>, name: string, proxysql: ProxySQLManager, w: int, r: int)
    returns (c: Cluster, warnings: seq<Warning>)
    requires w != r
    modifies proxysql
    ensures proxysql.table == Synced(old(proxysql.table), c, w, r)
    ensures Orchestrator.ParsedFrom(reports, c)
    ensures Orchestrator.DistinctReports(reports) && NoForeignMembers(old(proxysql.table), c, w, r) ==>
              forall m | m in warnings :: m.UnknownInOrchestrator?
  {
    c := Orchestrator.ParseTopology(reports, name);
    ghost var seen;
    var report;
    report, seen := proxysql.SyncCluster(c, w, r, {});
    var servers := proxysql.GetServers(true, None);
    warnings := DetectSyncWarnings(c, Some(w), Some(r), servers);
    if Orchestrator.DistinctReports(reports) && NoForeignMembers(old(proxysql.table), c, w, r) {
      ParseSyncCheck(reports, c, old(proxysql.table), servers, w, r, "");
      UnknownOnly(c, servers);
    }
  }

  lemma {:induction false} UnknownOnly(c: Cluster, servers: seq<Server>)
    ensures forall m | m in UnknownWarnings(c, servers) :: m.UnknownInOrchestrator?
    decreases |servers|
  {
    if servers == [] {
    } else {
      UnknownOnly(c, servers[..|servers| - 1]);
    }
  }

  /** Every table can be listed. */
  lemma {:induction false} ListingOf(t: Table) returns (rows: seq<Server>)
    ensures Lists(rows, t)
    decreases |t|
  {
    if t == map[] {
      rows := [];
    } else {
      var k :| k in t;
      var rest := ListingOf(t - {k});
      OneMoreListed(rest, t, k);
      rows := rest + [Server(k, t[k])];
    }
  }

  lemma OneMoreListed(rest: seq<Server>, t: Table, k: Key)
    requires k in t && Lists(rest, t - {k})
    ensures Lists(rest + [Server(k, t[k])], t)
  {
    var rows := rest + [Server(k, t[k])];
    assert Distinct(rows);
    forall l | l in t
      ensures exists i :: 0 <= i < |rows| && rows[i].key == l
    {
      if l == k {
        assert rows[|rest|].key == l;
      } else {
        assert l in t - {k};
        var i :| 0 <= i < |rest| && rest[i].key == l;
        assert rows[i].key == l;
      }
    }
  }

  /** A copy of a member in another hostgroup is a row that some reading order shows last. */
  lemma ForeignCopyWarns(t: Table, c: Cluster, w: int, r: int, k: Key) returns (servers: seq<Server>)
    requires w != r && k in t && k.hostgroup != w && k.hostgroup != r && IsMember(c, k.addr)
    ensures Lists(servers, Synced(t, c, w, r))
    ensures MemberWarning(k.addr, Some(w), servers) == [WrongHostgroup(InstanceId(k.addr), k.hostgroup, w)]
    ensures MemberWarning(k.addr, Some(r), servers) == [WrongHostgroup(InstanceId(k.addr), k.hostgroup, r)]
  {
    SyncedHas(t, c, w, r, k);
    servers := ShownLast(Synced(t, c, w, r), k);
  }

  /** Some reading order ends with any given row. */
  lemma ShownLast(t: Table, k: Key) returns (servers: seq<Server>)
    requires k in t
    ensures Lists(servers, t)
    ensures LastRow(servers, InstanceId(k.addr)) == Some(Server(k, t[k]))
  {
    var rows := ListingOf(t);
    var i :| 0 <= i < |rows| && rows[i].key == k;
    servers := MovedLast(rows, i);
    MovedLastLists(rows, i, t);
    LastOfMoved(rows, i);
  }

  lemma LastOfMoved(rows: seq<Server>, i: nat)
    requires i < |rows|
    ensures LastRow(MovedLast(rows, i), InstanceId(rows[i].key.addr)) == Some(rows[i])
  {
  }

  /** A warning about one replica is among the warnings. */
  lemma {:induction false} ReplicaWarned(replicas: seq<Instance>, reader: Option<int>, servers: seq<Server>, n: nat)
    requires n < |replicas| && MemberWarning(AddrOf(replicas[n]), reader, servers) != []
    ensures ReplicaWarnings(replicas, reader, servers) != []
    decreases |replicas|
  {
    if n == |replicas| - 1 {
    } else {
      ReplicaWarned(replicas[..|replicas| - 1], reader, servers, n);
    }
  }

  lemma MemberWarned(c: Cluster, a: Addr, w: int, r: int, servers: seq<Server>)
    requires IsMember(c, a)
    requires MemberWarning(a, Some(w), servers) != [] && MemberWarning(a, Some(r), servers) != []
    ensures MemberWarnings(c, Some(w), Some(r), servers) != []
  {
    if a in ReplicaAddrs(c.replicas) {
      var n: nat :| n < |c.replicas| && AddrOf(c.replicas[n]) == a;
      ReplicaWarned(c.replicas, Some(r), servers, n);
    }
  }

  /** A primary that is also a replica ends as a reader and is warned about in every reading order. */
  lemma DoubleRoleWarns(t: Table, c: Cluster, w: int, r: int, servers: seq<Server>)
    requires w != r && !PrimaryApart(c) && NoForeignMembers(t, c, w, r) && Lists(servers, Synced(t, c, w, r))
    ensures MemberWarnings(c, Some(w), Some(r), servers) != []
  {
    var a := AddrOf(c.primary.value);
    LastRowFound(servers, a);
    if LastRow(servers, InstanceId(a)).Some? {
      var row := LastRow(servers, InstanceId(a)).value;
      var i :| 0 <= i < |servers| && servers[i] == row;
      SyncedHas(t, c, w, r, row.key);
    }
  }

  /**
   Exactly when no reading order of the freshly synced table draws a warning about a member: the primary is
   not a replica as well, and no other hostgroup holds a member.
   */
  lemma QuietExactly(t: Table, c: Cluster, w: int, r: int)
    requires w != r
    ensures (forall servers | Lists(servers, Synced(t, c, w, r)) ::
               MemberWarnings(c, Some(w), Some(r), servers) == []) <==>
            PrimaryApart(c) && NoForeignMembers(t, c, w, r)
  {
    if !NoForeignMembers(t, c, w, r) {
      var k :| k in t && k.hostgroup != w && k.hostgroup != r && IsMember(c, k.addr);
      var servers := ForeignCopyWarns(t, c, w, r, k);
      MemberWarned(c, k.addr, w, r, servers);
    } else if !PrimaryApart(c) {
      var servers := ListingOf(Synced(t, c, w, r));
      DoubleRoleWarns(t, c, w, r, servers);
    } else {
      forall servers | Lists(servers, Synced(t, c, w, r))
        ensures MemberWarnings(c, Some(w), Some(r), servers) == []
      {
        SyncSilencesMembers(t, c, servers, w, r);
      }
    }
  }

  function MovedLast(servers: seq<Server>, i: nat): (r: seq<Server>)
    requires i < |servers|
    ensures |r| == |servers|
    ensures forall j | 0 <= j < |r| :: r[j] == servers[if j < i then j else if j < |servers| - 1 then j + 1 else i]
  {
    servers[..i] + servers[i + 1..] + [servers[i]]
  }

  /** Moving one row to the end of a listing leaves a listing. */
  lemma MovedLastLists(servers: seq<Server>, i: nat, t: Table)
    requires Lists(servers, t) && i < |servers|
    ensures Lists(MovedLast(servers, i), t)
  {
    var reordered := MovedLast(servers, i);
    assert Distinct(reordered);
    forall k | k in t
      ensures exists j :: 0 <= j < |reordered| && reordered[j].key == k
    {
      var j :| 0 <= j < |servers| && servers[j].key == k;
      assert reordered[if j < i then j else if j > i then j - 1 else |servers| - 1] == servers[j];
    }
  }
}
