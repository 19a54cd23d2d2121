/** Reading Orchestrator's flat list of instances into a cluster. */
module Orchestrator {
  import opened Text
  import opened Topology

  /** One instance as Orchestrator lists it; empty texts and 0 stand for missing fields. */
  datatype Report = Report(
    hostname: string,
    keyHostname: string,
    port: nat,
    keyPort: nat,
    masterHost: Option<string>,     // MasterKey.Hostname, when there is a MasterKey
    depth: Option<int>,             // ReplicationDepth
    isPrimary: bool,
    isCoPrimary: bool,
    isReplica: bool,
    lastCheckValid: bool,
    inMaintenance: bool,
    isDowntimed: bool,
    lag: Option<int>,
    clusterName: string,
    alias: string)

  const DEFAULT_PORT := 3306

  function ParseRole(d: Report): InstanceRole {
    if d.isPrimary || d.isCoPrimary then PrimaryRole
    else if d.isReplica then ReplicaRole
    else if d.masterHost == Some("") then PrimaryRole
    else if d.depth == Some(0) then PrimaryRole
    else if d.masterHost.Some? then ReplicaRole
    else UnknownRole
  }

  function ParseState(d: Report): InstanceState {
    if d.inMaintenance || d.isDowntimed then Maintenance
    else if d.lastCheckValid then Online
    else Offline
  }

  function ReportedAddr(d: Report): Addr {
    Addr(if d.hostname != "" then d.hostname else d.keyHostname,
         if d.port != 0 then d.port else if d.keyPort != 0 then d.keyPort else DEFAULT_PORT)
  }

  /** Nothing without a host. */
  function ParseInstance(d: Report): (i: Option<Instance>)
    ensures i.Some? <==> ReportedAddr(d).host != ""
    ensures i.Some? ==> AddrOf(i.value) == ReportedAddr(d)
  {
    var a := ReportedAddr(d);
    if a.host == "" then None else Some(Instance(a.host, a.port, ParseRole(d), ParseState(d), d.lag))
  }

  /** The split ignores the role flags: no master, or replication depth 0. */
  predicate IsTop(d: Report) {
    d.masterHost == Some("") || d.depth == Some(0)
  }

  predicate Usable(d: Report) {
    ReportedAddr(d).host != ""
  }

  /** Report `i` is the last usable top instance: the cluster's primary. */
  predicate LastTop(reports: seq<Report>, i: int) {
    && 0 <= i < |reports| && Usable(reports[i]) && IsTop(reports[i])
    && forall j | i < j < |reports| :: !(Usable(reports[j]) && IsTop(reports[j]))
  }

  /** Report `i` gives a replica. */
  predicate GivesReplica(reports: seq<Report>, i: int) {
    0 <= i < |reports| && Usable(reports[i]) && !IsTop(reports[i])
  }

  function ClusterIdOf(reports: seq<Report>, name: string): string {
    if reports != [] && reports[0].clusterName != "" then reports[0].clusterName else name
  }

  predicate NoTop(reports: seq<Report>) {
    forall i | 0 <= i < |reports| :: !(Usable(reports[i]) && IsTop(reports[i]))
  }

  /** The primary read from the reports: that of the last usable top instance, if there is one. */
  ghost predicate PrimaryOf(reports: seq<Report>, primary: Option<Instance>) {
    && (primary.None? ==> NoTop(reports))
    && (primary.Some? ==> exists i :: LastTop(reports, i) && primary == ParseInstance(reports[i]))
  }

  /** The members of the cluster read from the reports. */
  ghost predicate ParsedFrom(reports: seq<Report>, c: Cluster) {
    PrimaryOf(reports, c.primary) && c.replicas == Replicas(reports)
  }

  lemma PrimaryAfter(reports: seq<Report>, n: nat, primary: Option<Instance>)
    requires n < |reports| && PrimaryOf(reports[..n], primary)
    ensures PrimaryOf(reports[..n + 1],
                      if Usable(reports[n]) && IsTop(reports[n]) then ParseInstance(reports[n]) else primary)
  {
    var before, now := reports[..n], reports[..n + 1];
    assert now[n] == reports[n] && forall i | 0 <= i < n :: now[i] == before[i];
    if Usable(reports[n]) && IsTop(reports[n]) {
      assert LastTop(now, n);
    } else if primary.Some? {
      var i :| LastTop(before, i) && primary == ParseInstance(before[i]);
      assert LastTop(now, i);
    }
  }

  /**
   The primary is the last top instance, the replicas are all others in order. Earlier top instances are
   lost: they become neither.
   */
  method ParseTopology(reports: seq<Report>, name: string) returns (c: Cluster)
    ensures c.id == ClusterIdOf(reports, name)
    ensures c.name == if reports != [] && reports[0].alias != "" then reports[0].alias else c.id
    ensures c.primary.Some? <==> exists i :: LastTop(reports, i)
    ensures forall i | LastTop(reports, i) :: c.primary == ParseInstance(reports[i])
    ensures ParsedFrom(reports, c)
  {
    var id := ClusterIdOf(reports, name);
    var primary: Option<Instance> := None;
    var replicas: seq<Instance> := [];
    for n := 0 to |reports|
      invariant replicas == Replicas(reports[..n])
      invariant PrimaryOf(reports[..n], primary)
    {
      assert reports[..n + 1][..n] == reports[..n] && reports[..n + 1][n] == reports[n];
      PrimaryAfter(reports, n, primary);
      var instance := ParseInstance(reports[n]);
      if instance.Some? {
        if IsTop(reports[n]) {
          primary := instance;
        } else {
          replicas := replicas + [instance.value];
        }
      }
    }
    assert reports[..|reports|] == reports;
    c := Cluster(id, if reports != [] && reports[0].alias != "" then reports[0].alias else id, primary, replicas);
  }

  function Replicas(reports: seq<Report>): seq<Instance> {
    if reports == [] then []
    else
      var d := reports[|reports| - 1];
      Replicas(reports[..|reports| - 1]) +
      if Usable(d) && !IsTop(d) then [ParseInstance(d).value] else []
  }

  // ---------------------------------------------------------------------------
  // Members, field by field
  // ---------------------------------------------------------------------------

  /** The report has a host, under either name, and is not of a top instance. */
  predicate BelowTop(d: Report) {
    (d.hostname != "" || d.keyHostname != "") && d.masterHost != Some("") && d.depth != Some(0)
  }

  predicate AtTop(d: Report) {
    (d.hostname != "" || d.keyHostname != "") && (d.masterHost == Some("") || d.depth == Some(0))
  }

  /** The last check succeeded and nobody took the instance out of service. */
  predicate InService(d: Report) {
    d.lastCheckValid && !d.inMaintenance && !d.isDowntimed
  }

  /** What the instance read from a report says. */
  predicate Reads(d: Report, i: Instance) {
    && i.host == (if d.hostname != "" then d.hostname else d.keyHostname)
    && i.port == (if d.port != 0 then d.port else if d.keyPort != 0 then d.keyPort else 3306)
    && i.lag == d.lag
    && (i.state == Online <==> InService(d))
    && (i.state == Maintenance <==> d.inMaintenance || d.isDowntimed)
    && (i.state == Offline <==> !d.lastCheckValid && !d.inMaintenance && !d.isDowntimed)
    && ReadsRole(d, i.role)
  }

  /** The flags come first, then the master and the depth. */
  predicate ReadsRole(d: Report, role: InstanceRole) {
    if d.isPrimary || d.isCoPrimary then role == PrimaryRole
    else if d.isReplica then role == ReplicaRole
    else if d.masterHost == Some("") || d.depth == Some(0) then role == PrimaryRole
    else if d.masterHost != None then role == ReplicaRole
    else role == UnknownRole
  }

  /** How many of the reports are below the top. */
  function BelowCount(reports: seq<Report>): nat {
    if reports == [] then 0
    else BelowCount(reports[..|reports| - 1]) + if BelowTop(reports[|reports| - 1]) then 1 else 0
  }

  lemma ParsedReads(d: Report)
    ensures BelowTop(d) <==> Usable(d) && !IsTop(d)
    ensures AtTop(d) <==> Usable(d) && IsTop(d)
    ensures Usable(d) ==> ParseInstance(d).Some? && Reads(d, ParseInstance(d).value)
  {
  }

  /** The replicas are the reports below the top, one by one and in order. */
  lemma {:induction false} ReplicasRead(reports: seq<Report>)
    ensures |Replicas(reports)| == BelowCount(reports)
    ensures forall i | 0 <= i < |reports| && BelowTop(reports[i]) ::
              BelowCount(reports[..i]) < |Replicas(reports)|
              && Reads(reports[i], Replicas(reports)[BelowCount(reports[..i])])
    decreases |reports|
  {
    if reports == [] {
    } else {
      var last := |reports| - 1;
      var front := reports[..last];
      ReplicasRead(front);
      OneMoreReport(reports);
      forall i | 0 <= i < last
        ensures reports[..i] == front[..i] && reports[i] == front[i]
      {
      }
      assert reports[..last] == front;
    }
  }

  lemma OneMoreReport(reports: seq<Report>)
    requires reports != []
    ensures var front, d := reports[..|reports| - 1], reports[|reports| - 1];
            if BelowTop(d) then
              && |Replicas(reports)| == |Replicas(front)| + 1 && Replicas(front) <= Replicas(reports)
              && BelowCount(reports) == BelowCount(front) + 1 && Reads(d, Replicas(reports)[|Replicas(front)|])
            else Replicas(reports) == Replicas(front) && BelowCount(reports) == BelowCount(front)
  {
    ParsedReads(reports[|reports| - 1]);
  }

  /** Every replica comes from such a report. */
  lemma {:induction false} ReplicaFrom(reports: seq<Report>, k: nat) returns (i: nat)
    requires k < |Replicas(reports)|
    ensures i < |reports| && BelowTop(reports[i]) && BelowCount(reports[..i]) == k
    ensures Reads(reports[i], Replicas(reports)[k])
    decreases |reports|
  {
    var last := |reports| - 1;
    var front := reports[..last];
    ReplicasRead(front);
    ParsedReads(reports[last]);
    if k < |Replicas(front)| {
      i := ReplicaFrom(front, k);
      assert front[..i] == reports[..i];
    } else {
      i := last;
    }
  }

  /** The primary comes from the last report of a top instance; without one there is none. */
  lemma PrimaryFrom(reports: seq<Report>, c: Cluster, i: nat)
    requires ParsedFrom(reports, c)
    ensures i < |reports| && AtTop(reports[i]) && (forall j | i < j < |reports| :: !AtTop(reports[j])) ==>
              c.primary.Some? && Reads(reports[i], c.primary.value)
    ensures (forall j | 0 <= j < |reports| :: !AtTop(reports[j])) ==> c.primary.None?
  {
    forall j | 0 <= j < |reports|
      ensures AtTop(reports[j]) <==> Usable(reports[j]) && IsTop(reports[j])
      ensures Usable(reports[j]) ==>
                ParseInstance(reports[j]).Some? && Reads(reports[j], ParseInstance(reports[j]).value)
    {
      ParsedReads(reports[j]);
    }
    if c.primary.Some? {
      var k :| LastTop(reports, k) && c.primary == ParseInstance(reports[k]);
    }
  }

  /** The cluster goes by the name Orchestrator gives it, or else by the one it was asked for. */
  lemma ClusterIdFrom(reports: seq<Report>, name: string)
    ensures ClusterIdOf([], name) == name
    ensures reports != [] ==>
              ClusterIdOf(reports, name) == if reports[0].clusterName == "" then name else reports[0].clusterName
  {
  }

  /** No two usable reports name the same address. */
  predicate DistinctReports(reports: seq<Report>) {
    forall i, j | 0 <= i < j < |reports| && Usable(reports[i]) && Usable(reports[j]) ::
      ReportedAddr(reports[i]) != ReportedAddr(reports[j])
  }

  /** Every replica comes from a report of its own, in order. */
  lemma {:induction false} ReplicaSource(reports: seq<Report>, k: nat) returns (i: nat)
    requires k < |Replicas(reports)|
    ensures GivesReplica(reports, i) && AddrOf(Replicas(reports)[k]) == ReportedAddr(reports[i])
    ensures |Replicas(reports[..i])| == k
    decreases |reports|
  {
    var last := |reports| - 1;
    var front := reports[..last];
    if k < |Replicas(front)| {
      i := ReplicaSource(front, k);
      assert front[..i] == reports[..i];
    } else {
      i := last;
    }
  }

  lemma {:induction false} ReplicaOf(reports: seq<Report>, i: nat) returns (k: nat)
    requires GivesReplica(reports, i)
    ensures k < |Replicas(reports)| && AddrOf(Replicas(reports)[k]) == ReportedAddr(reports[i])
    decreases |reports|
  {
    var last := |reports| - 1;
    if i < last {
      k := ReplicaOf(reports[..last], i);
    } else {
      k := |Replicas(reports)| - 1;
    }
  }

  /** The replica addresses are those of the usable instances below the top. */
  lemma ReplicaAddrsExactly(reports: seq<Report>, a: Addr)
    ensures a in ReplicaAddrs(Replicas(reports)) <==>
            exists i :: GivesReplica(reports, i) && ReportedAddr(reports[i]) == a
  {
    if a in ReplicaAddrs(Replicas(reports)) {
      var k :| 0 <= k < |Replicas(reports)| && AddrOf(Replicas(reports)[k]) == a;
      var i := ReplicaSource(reports, k);
    }
    if i :| GivesReplica(reports, i) && ReportedAddr(reports[i]) == a {
      var k := ReplicaOf(reports, i);
      assert AddrOf(Replicas(reports)[k]) in ReplicaAddrs(Replicas(reports));
    }
  }

  lemma {:induction false} ReplicasDistinct(reports: seq<Report>)
    requires DistinctReports(reports)
    ensures forall i, j | 0 <= i < j < |Replicas(reports)| ::
              AddrOf(Replicas(reports)[i]) != AddrOf(Replicas(reports)[j])
    decreases |reports|
  {
    if reports == [] {
    } else {
      var last := |reports| - 1;
      var front := reports[..last];
      assert forall i | 0 <= i < last :: front[i] == reports[i];
      ReplicasDistinct(front);
      forall k | 0 <= k < |Replicas(front)|
        ensures Usable(reports[last]) ==> AddrOf(Replicas(front)[k]) != ReportedAddr(reports[last])
      {
        var i := ReplicaSource(front, k);
      }
    }
  }

  /** Distinct reports give a cluster of distinct members: the primary is no replica, and no replica repeats. */
  lemma ParsedIsDistinct(reports: seq<Report>, c: Cluster)
    requires DistinctReports(reports) && ParsedFrom(reports, c)
    ensures DistinctMembers(c)
  {
    ReplicasDistinct(reports);
    if c.primary.Some? {
      var i :| LastTop(reports, i) && c.primary == ParseInstance(reports[i]);
      ReplicaAddrsExactly(reports, ReportedAddr(reports[i]));
    }
  }
}
