/** Instances and clusters as Orchestrator reports them. */
module Topology {
  import opened Text

  datatype InstanceState = Online | Offline | Recovering | Failed | Maintenance

  datatype InstanceRole = PrimaryRole | ReplicaRole | UnknownRole

  datatype Instance = Instance(
    host: string,
    port: nat,
    role: InstanceRole,
    state: InstanceState,
    lag: Option<int>)

  datatype Cluster = Cluster(
    id: string,
    name: string,
    primary: Option<Instance>,
    replicas: seq<Instance>)

  /** Where a server listens. */
  datatype Addr = Addr(host: string, port: nat)

  function AddrOf(i: Instance): Addr {
    Addr(i.host, i.port)
  }

  /** `host:port` */
  function InstanceId(a: Addr): string {
    a.host + ":" + Dec(a.port)
  }

  function ReplicaAddrs(replicas: seq<Instance>): set<Addr> {
    set i | 0 <= i < |replicas| :: AddrOf(replicas[i])
  }

  function PrimaryAddrs(c: Cluster): set<Addr> {
    if c.primary.Some? then {AddrOf(c.primary.value)} else {}
  }

  /** Every member of the cluster listens somewhere else. */
  predicate DistinctMembers(c: Cluster) {
    && (forall i, j | 0 <= i < j < |c.replicas| :: AddrOf(c.replicas[i]) != AddrOf(c.replicas[j]))
    && PrimaryAddrs(c) !! ReplicaAddrs(c.replicas)
  }

  lemma DecLacks(n: nat, c: char)
    requires !IsDigit(c)
    ensures Lacks(Dec(n), c)
  {
  }

  /** The printed id names one address only, whatever the host holds. */
  lemma InstanceIdInjective(a: Addr, b: Addr)
    requires InstanceId(a) == InstanceId(b)
    ensures a == b
  {
    DecLacks(a.port, ':');
    DecLacks(b.port, ':');
    LastSeparatorUnique(a.host, Dec(a.port), b.host, Dec(b.port), ':');
    DecInjective(a.port, b.port);
  }
}
