/** Choosing the replica to promote, and finding it again by its id. */
module Candidates {
  import opened Text
  import opened Ordering
  import opened Topology

  /** A missing lag counts as infinite. */
  predicate LagLeq(x: Instance, y: Instance) {
    y.lag.None? || (x.lag.Some? && x.lag.value <= y.lag.value)
  }

  function Healthy(replicas: seq<Instance>): (kept: seq<Instance>)
    ensures forall r :: r in kept <==> r in replicas && r.state.Online?
  {
    if replicas == [] then []
    else (if replicas[0].state.Online? then [replicas[0]] else []) + Healthy(replicas[1..])
  }

  /** `LowestLagStrategy.select`: the head of the healthy replicas sorted by lag. */
  function Select(replicas: seq<Instance>): Option<Instance> {
    var healthy := Healthy(replicas);
    if healthy == [] then None else Some(SortBy(healthy, LagLeq)[0])
  }

  /** Replica `at` is online, no online one lags less, and no earlier online one lags as little. */
  predicate BestAt(replicas: seq<Instance>, at: int) {
    && 0 <= at < |replicas| && replicas[at].state.Online?
    && (forall i | 0 <= i < |replicas| && replicas[i].state.Online? :: LagLeq(replicas[at], replicas[i]))
    && (forall i | 0 <= i < at && replicas[i].state.Online? :: !LagLeq(replicas[i], replicas[at]))
  }

  /** The same for a list whose members are all healthy. */
  predicate FirstLeast(healthy: seq<Instance>, at: nat) {
    && at < |healthy|
    && (forall i | 0 <= i < |healthy| :: LagLeq(healthy[at], healthy[i]))
    && (forall i | 0 <= i < at :: !LagLeq(healthy[i], healthy[at]))
  }

  /** One more replica in front. */
  lemma BestBehind(replicas: seq<Instance>, below: nat)
    requires replicas != [] && BestAt(replicas[1..], below)
    requires replicas[0].state.Online? ==>
               !LagLeq(replicas[0], replicas[1 + below]) && LagLeq(replicas[1 + below], replicas[0])
    ensures BestAt(replicas, 1 + below)
  {
    assert forall i | 1 <= i < |replicas| :: replicas[i] == replicas[1..][i - 1];
  }

  lemma {:induction false} LiftToAll(replicas: seq<Instance>, at: nat) returns (k: nat)
    requires FirstLeast(Healthy(replicas), at)
    ensures BestAt(replicas, k) && replicas[k] == Healthy(replicas)[at]
    decreases |replicas|
  {
    var healthy, rest := Healthy(replicas), Healthy(replicas[1..]);
    if !replicas[0].state.Online? {
      assert healthy == rest;
      var below := LiftToAll(replicas[1..], at);
      BestBehind(replicas, below);
      k := 1 + below;
    } else {
      assert healthy == [replicas[0]] + rest;
      if at == 0 {
        k := 0;
        LeastOfAll(replicas, healthy);
      } else {
        LeastOfRest(replicas[0], rest, at);
        var below := LiftToAll(replicas[1..], at - 1);
        BestBehind(replicas, below);
        k := 1 + below;
      }
    }
  }

  lemma LeastOfRest(first: Instance, rest: seq<Instance>, at: nat)
    requires at > 0 && FirstLeast([first] + rest, at)
    ensures FirstLeast(rest, at - 1)
    ensures !LagLeq(first, rest[at - 1]) && LagLeq(rest[at - 1], first)
  {
    var all := [first] + rest;
    assert all[0] == first;
    assert forall i | 0 <= i < |rest| :: rest[i] == all[i + 1];
  }

  lemma LeastOfAll(replicas: seq<Instance>, healthy: seq<Instance>)
    requires replicas != [] && healthy == Healthy(replicas) && healthy != [] && healthy[0] == replicas[0]
    requires FirstLeast(healthy, 0)
    ensures BestAt(replicas, 0)
  {
    assert replicas[0] in healthy;
    forall i | 0 <= i < |replicas| && replicas[i].state.Online?
      ensures LagLeq(replicas[0], replicas[i])
    {
      assert replicas[i] in healthy;
    }
  }

  /** The choice is the first online replica of least lag; there is none exactly when no replica is online. */
  lemma SelectIsBest(replicas: seq<Instance>)
    ensures Select(replicas).None? <==> forall i | 0 <= i < |replicas| :: !replicas[i].state.Online?
    ensures Select(replicas).Some? ==> exists at :: BestAt(replicas, at) && replicas[at] == Select(replicas).value
  {
    var healthy := Healthy(replicas);
    if healthy == [] {
      forall i | 0 <= i < |replicas|
        ensures !replicas[i].state.Online?
      {
        assert replicas[i] in replicas && replicas[i] !in healthy;
      }
    } else {
      var at := SortHead(healthy, LagLeq);
      var k := LiftToAll(replicas, at);
    }
  }

  /**
   In terms of states and lags: the choice is online, no online replica is known to lag less, and none before it
   lags as little; a replica of unknown lag is chosen only when no online one has a known lag.
   */
  lemma SelectsLeastLag(replicas: seq<Instance>)
    ensures Select(replicas).None? <==> forall i | 0 <= i < |replicas| :: replicas[i].state != Online
    ensures Select(replicas).Some? ==>
              exists at :: LeastLag(replicas, at) && replicas[at] == Select(replicas).value
  {
    SelectIsBest(replicas);
    if Select(replicas).Some? {
      var at :| BestAt(replicas, at) && replicas[at] == Select(replicas).value;
      assert LeastLag(replicas, at);
    }
  }

  predicate LeastLag(replicas: seq<Instance>, at: int) {
    && 0 <= at < |replicas| && replicas[at].state == Online
    && (forall i | 0 <= i < |replicas| && replicas[i].state == Online && replicas[i].lag.Some? ::
          replicas[at].lag.Some? && replicas[at].lag.value <= replicas[i].lag.value)
    && (forall i | 0 <= i < at && replicas[i].state == Online ::
          replicas[at].lag.Some? && (replicas[i].lag.Some? ==> replicas[at].lag.value < replicas[i].lag.value))
  }

  /** There is one such replica at most. */
  lemma BestUnique(replicas: seq<Instance>, i: int, j: int)
    requires BestAt(replicas, i) && BestAt(replicas, j)
    ensures i == j
  {
  }

  /** The choice, given where the best replica is. */
  lemma SelectsBest(replicas: seq<Instance>, at: nat)
    requires BestAt(replicas, at)
    ensures Select(replicas) == Some(replicas[at])
  {
    SelectIsBest(replicas);
    var k :| BestAt(replicas, k) && replicas[k] == Select(replicas).value;
    BestUnique(replicas, at, k);
  }

  /** The replica an id names: by `host:port` or by host alone. */
  predicate Named(r: Instance, id: string) {
    InstanceId(AddrOf(r)) == id || r.host == id
  }

  lemma NamedBy(r: Instance, id: string)
    ensures Named(r, id) <==> r.host + ":" + Dec(r.port) == id || r.host == id
  {
  }

  /** `findReplica`: the first replica so named. */
  function Find(replicas: seq<Instance>, id: string): (found: Option<Instance>)
    ensures found.Some? ==> found.value in replicas && Named(found.value, id)
    ensures found.None? ==> forall i | 0 <= i < |replicas| :: !Named(replicas[i], id)
  {
    if replicas == [] then None
    else if Named(replicas[0], id) then Some(replicas[0])
    else Find(replicas[1..], id)
  }

  lemma {:induction false} FindFirst(replicas: seq<Instance>, id: string, at: nat)
    requires at < |replicas| && Named(replicas[at], id)
    requires forall i | 0 <= i < at :: !Named(replicas[i], id)
    ensures Find(replicas, id) == Some(replicas[at])
    decreases |replicas|
  {
    if at == 0 {
    } else {
      FindFirst(replicas[1..], id, at - 1);
    }
  }

  /** No earlier replica's host spells out the printed id of replica `at`. */
  predicate Unshadowed(replicas: seq<Instance>, at: nat)
    requires at < |replicas|
  {
    forall i | 0 <= i < at :: replicas[i].host != InstanceId(AddrOf(replicas[at]))
  }

  lemma FoundUnshadowed(c: Cluster, at: nat)
    requires at < |c.replicas| && DistinctMembers(c) && Unshadowed(c.replicas, at)
    ensures Find(c.replicas, InstanceId(AddrOf(c.replicas[at]))) == Some(c.replicas[at])
  {
    var id := InstanceId(AddrOf(c.replicas[at]));
    forall i | 0 <= i < at
      ensures !Named(c.replicas[i], id)
    {
      if InstanceId(AddrOf(c.replicas[i])) == id {
        InstanceIdInjective(AddrOf(c.replicas[i]), AddrOf(c.replicas[at]));
      }
    }
    FindFirst(c.replicas, id, at);
  }

  /** A replica is found again through its printed id exactly when no earlier host spells that id out. */
  lemma FoundAgain(c: Cluster, at: nat)
    requires at < |c.replicas| && DistinctMembers(c)
    ensures Find(c.replicas, InstanceId(AddrOf(c.replicas[at]))) == Some(c.replicas[at]) <==> Unshadowed(c.replicas, at)
  {
    if Unshadowed(c.replicas, at) {
      FoundUnshadowed(c, at);
    } else {
      var shadow :| 0 <= shadow < at && c.replicas[shadow].host == InstanceId(AddrOf(c.replicas[at]));
      ShadowedId(c, shadow, at);
    }
  }

  /** A host that spells out another member's id shadows it: the earlier replica is promoted instead. */
  lemma ShadowedId(c: Cluster, shadow: nat, at: nat)
    requires shadow < at < |c.replicas| && c.replicas[shadow].host == InstanceId(AddrOf(c.replicas[at]))
    ensures Find(c.replicas, InstanceId(AddrOf(c.replicas[at]))) != None
    ensures exists i :: 0 <= i <= shadow && Find(c.replicas, InstanceId(AddrOf(c.replicas[at]))) == Some(c.replicas[i])
  {
    var id := InstanceId(AddrOf(c.replicas[at]));
    var i := 0;
    while !Named(c.replicas[i], id)
      invariant 0 <= i <= shadow
      invariant forall j | 0 <= j < i :: !Named(c.replicas[j], id)
      decreases shadow - i
    {
      i := i + 1;
    }
    FindFirst(c.replicas, id, i);
  }
}
