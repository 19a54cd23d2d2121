/** One failover or switchover: the phases of the runner and the routing it leaves behind. */
module Failover {
  import opened Text
  import opened Topology
  import opened ServerTable
  import opened ProxySql
  import opened Candidates

  const WRITER: int := 10
  const READER: int := 20

  datatype Phase = Idle | Detecting | CandidateSelection | Promoting | Reconfiguring | Completed | Failed

  datatype Step =
    | RunningPreHooks
    | SelectingCandidate
    | PromotingTo(id: string)
    | StartedReplication
    | ReconfiguringReplicas
    | UpdatingRouting
    | Succeeded
    | FailedWith(error: string)
    | QueuedForRecovery(id: string)

  /** The answers of the outside world: an error text where a hook or the promotion fails. */
  datatype World = World(hooks: seq<Option<string>>, promotion: Option<string>, lost: Lost)

  /** How a run ends. */
  datatype Verdict =
    | HookFailed(error: string)
    | NoCandidate
    | CandidateNotFound(id: string)
    | PromotionFailed(id: string, error: string)
    | Promoted(id: string, chosen: Instance)

  function FirstError(hooks: seq<Option<string>>): Option<string> {
    if hooks == [] then None
    else if hooks[0].Some? then hooks[0]
    else FirstError(hooks[1..])
  }

  /** The requested target, or the id of the selected replica. */
  function TargetId(c: Cluster, requested: string): Option<string> {
    if requested != "" then Some(requested)
    else if Select(c.replicas).None? then None
    else Some(InstanceId(AddrOf(Select(c.replicas).value)))
  }

  function Judge(c: Cluster, requested: string, world: World): Verdict {
    var target := TargetId(c, requested);
    if FirstError(world.hooks).Some? then HookFailed(FirstError(world.hooks).value)
    else if target.None? then NoCandidate
    else if Find(c.replicas, target.value).None? then CandidateNotFound(target.value)
    else if world.promotion.Some? then PromotionFailed(target.value, world.promotion.value)
    else Promoted(target.value, Find(c.replicas, target.value).value)
  }

  function ErrorText(v: Verdict): string {
    match v
    case HookFailed(e) => e
    case NoCandidate => "No suitable candidate found for promotion"
    case CandidateNotFound(id) => "Candidate " + id + " not found"
    case PromotionFailed(_, e) => if e == "" then "Promotion failed" else e
    case Promoted(_, _) => ""
  }

  /** The phases a run goes through, in order. */
  function Phases(v: Verdict): seq<Phase> {
    match v
    case HookFailed(_) => [Detecting] + [Phase.Failed]
    case NoCandidate => [Detecting, CandidateSelection] + [Phase.Failed]
    case CandidateNotFound(_) => [Detecting, CandidateSelection] + [Phase.Failed]
    case PromotionFailed(_, _) => [Detecting, CandidateSelection, Promoting] + [Phase.Failed]
    case Promoted(_, _) => [Detecting, CandidateSelection, Promoting] + [Reconfiguring] + [Completed]
  }

  function StepsOf(v: Verdict, isSwitchover: bool): seq<Step> {
    match v
    case HookFailed(_) => [RunningPreHooks] + [FailedWith(ErrorText(v))]
    case NoCandidate => [RunningPreHooks, SelectingCandidate] + [FailedWith(ErrorText(v))]
    case CandidateNotFound(_) => [RunningPreHooks, SelectingCandidate] + [FailedWith(ErrorText(v))]
    case PromotionFailed(id, _) => [RunningPreHooks, SelectingCandidate, PromotingTo(id)] + [FailedWith(ErrorText(v))]
    case Promoted(id, _) =>
      (if isSwitchover then [RunningPreHooks, SelectingCandidate, PromotingTo(id)] + [StartedReplication]
       else [RunningPreHooks, SelectingCandidate, PromotingTo(id)])
      + [ReconfiguringReplicas] + [UpdatingRouting] + [Succeeded]
  }

  function Rank(p: Phase): nat {
    match p
    case Idle => 0
    case Detecting => 1
    case CandidateSelection => 2
    case Promoting => 3
    case Reconfiguring => 4
    case Completed => 5
    case Failed => 5
  }

  /** Phases only move forward and end in exactly one of the two final ones. */
  lemma PhasesMoveForward(v: Verdict)
    ensures forall i, j | 0 <= i < j < |Phases(v)| :: Rank(Phases(v)[i]) < Rank(Phases(v)[j])
    ensures forall i | 0 <= i < |Phases(v)| :: Phases(v)[i] in {Completed, Phase.Failed} <==> i == |Phases(v)| - 1
  {
    match v {
      case HookFailed(_) => assert |Phases(v)| == 2;
      case NoCandidate => assert |Phases(v)| == 3;
      case CandidateNotFound(_) => assert |Phases(v)| == 3;
      case PromotionFailed(_, _) => assert |Phases(v)| == 4;
      case Promoted(_, _) => assert |Phases(v)| == 5;
    }
  }

  lemma {:induction false} FirstErrorNone(hooks: seq<Option<string>>)
    ensures FirstError(hooks).None? <==> forall i | 0 <= i < |hooks| :: hooks[i].None?
  {
    if hooks == [] {
    } else {
      FirstErrorNone(hooks[1..]);
      assert forall i | 1 <= i < |hooks| :: hooks[i] == hooks[1..][i - 1];
    }
  }

  /** Some replica can be promoted: a named one, or an online one when none is named. */
  predicate Selectable(c: Cluster, requested: string) {
    if requested != "" then exists i :: 0 <= i < |c.replicas| && Named(c.replicas[i], requested)
    else exists i :: 0 <= i < |c.replicas| && c.replicas[i].state.Online?
  }

  lemma SelectionSucceeds(c: Cluster, requested: string)
    ensures TargetId(c, requested).Some? && Find(c.replicas, TargetId(c, requested).value).Some? <==>
            Selectable(c, requested)
  {
    SelectIsBest(c.replicas);
    if requested == "" && Select(c.replicas).Some? {
      var at :| BestAt(c.replicas, at) && c.replicas[at] == Select(c.replicas).value;
      assert Named(c.replicas[at], InstanceId(AddrOf(c.replicas[at])));
    }
  }

  /** A run is completed exactly when every hook, the selection and the promotion succeeded. */
  lemma CompletedExactly(c: Cluster, requested: string, world: World)
    ensures Judge(c, requested, world).Promoted? <==>
            && (forall i | 0 <= i < |world.hooks| :: world.hooks[i].None?)
            && Selectable(c, requested)
            && world.promotion.None?
  {
    FirstErrorNone(world.hooks);
    SelectionSucceeds(c, requested);
  }

  /** Hook `k` is the first to throw, with the error `e`. */
  predicate FirstToThrow(hooks: seq<Option<string>>, k: int, e: string) {
    0 <= k < |hooks| && hooks[k] == Some(e) && forall i | 0 <= i < k :: hooks[i] == None
  }

  lemma {:induction false} FirstErrorAt(hooks: seq<Option<string>>, k: int, e: string)
    requires FirstToThrow(hooks, k, e)
    ensures FirstError(hooks) == Some(e)
  {
    if k == 0 {
    } else {
      assert hooks[0] == None;
      FirstErrorAt(hooks[1..], k - 1, e);
    }
  }

  /** A run whose hook throws ends before anything is chosen, with the error of the first one that does. */
  lemma FailsByHook(c: Cluster, requested: string, world: World, k: int, e: string)
    requires FirstToThrow(world.hooks, k, e)
    ensures var v := Judge(c, requested, world);
            !v.Promoted? && ErrorText(v) == e && Phases(v) == [Detecting, Phase.Failed]
  {
    FirstErrorAt(world.hooks, k, e);
  }

  /** Otherwise: what a failing run tells and how far it came, by what went wrong first. */
  lemma FailsWith(c: Cluster, requested: string, world: World)
    requires forall i | 0 <= i < |world.hooks| :: world.hooks[i] == None
    ensures var v := Judge(c, requested, world);
            && (!Selectable(c, requested) ==>
                  && !v.Promoted? && Phases(v) == [Detecting, CandidateSelection, Phase.Failed]
                  && ErrorText(v) == if requested == "" then "No suitable candidate found for promotion"
                                     else "Candidate " + requested + " not found")
            && (Selectable(c, requested) && world.promotion.Some? ==>
                  && !v.Promoted? && Phases(v) == [Detecting, CandidateSelection, Promoting, Phase.Failed]
                  && ErrorText(v) == if world.promotion.value == "" then "Promotion failed"
                                     else world.promotion.value)
  {
    FirstErrorNone(world.hooks);
    SelectionSucceeds(c, requested);
    SelectIsBest(c.replicas);
  }

  /** The steps of a failing run end with its error; it has no step of a phase it did not reach. */
  lemma FailingSteps(v: Verdict, isSwitchover: bool)
    requires !v.Promoted?
    ensures StepsOf(v, isSwitchover) ==
            [RunningPreHooks]
            + (if |Phases(v)| >= 3 then [SelectingCandidate] else [])
            + (if |Phases(v)| >= 4 then [PromotingTo(v.id)] else [])
            + [FailedWith(ErrorText(v))]
  {
  }

  /** What a completed run goes through. */
  lemma CompletesWith(v: Verdict)
    requires v.Promoted?
    ensures && Phases(v) == [Detecting, CandidateSelection, Promoting, Reconfiguring, Completed]
            && StepsOf(v, false) == [RunningPreHooks, SelectingCandidate, PromotingTo(v.id),
                                     ReconfiguringReplicas, UpdatingRouting, Succeeded]
            && StepsOf(v, true) == [RunningPreHooks, SelectingCandidate, PromotingTo(v.id), StartedReplication,
                                    ReconfiguringReplicas, UpdatingRouting, Succeeded]
  {
  }

  /** Whom a completed run names: the target asked for, or the id of the one it selects; and whom it promotes. */
  lemma PromotesNamed(c: Cluster, requested: string, world: World)
    requires Judge(c, requested, world).Promoted?
    ensures var v := Judge(c, requested, world);
            && (requested != "" ==> v.id == requested)
            && (requested == "" ==>
                  exists at :: LeastLag(c.replicas, at) && v.id == c.replicas[at].host + ":" + Dec(c.replicas[at].port))
            && (v.chosen.host == v.id || v.chosen.host + ":" + Dec(v.chosen.port) == v.id)
            && v.chosen in c.replicas
  {
    SelectsLeastLag(c.replicas);
  }

  /** The program's default hostgroups. */
  lemma DefaultHostgroups()
    ensures WRITER == 10 && READER == 20
  {
  }

  /** Without a target the best replica is promoted exactly when no earlier replica's host spells out its id. */
  lemma AutomaticChoice(c: Cluster, world: World, at: nat)
    requires DistinctMembers(c) && BestAt(c.replicas, at) && Judge(c, "", world).Promoted?
    ensures Judge(c, "", world).id == InstanceId(AddrOf(c.replicas[at]))
    ensures Judge(c, "", world).chosen == c.replicas[at] <==> Unshadowed(c.replicas, at)
  {
    SelectsBest(c.replicas, at);
    FoundAgain(c, at);
  }

  /** The replicas that are told to follow the new primary: those whose printed id is not the target id. */
  function Others(replicas: seq<Instance>, id: string): (others: seq<Instance>)
    ensures forall r :: r in others <==> r in replicas && InstanceId(AddrOf(r)) != id
  {
    if replicas == [] then []
    else
      Others(replicas[..|replicas| - 1], id) +
      if InstanceId(AddrOf(replicas[|replicas| - 1])) != id then [replicas[|replicas| - 1]] else []
  }

  /** Who is relocated in a run. */
  function Relocated(c: Cluster, v: Verdict): seq<Instance> {
    if v.Promoted? then Others(c.replicas, v.id) else []
  }

  /** Replica `k` is the first one the id names. */
  predicate FirstNamed(replicas: seq<Instance>, id: string, k: int) {
    0 <= k < |replicas| && Named(replicas[k], id) && forall i | 0 <= i < k :: !Named(replicas[i], id)
  }

  /**
   The first replica the target names is promoted, and it is told to follow itself exactly when the target is
   its host alone.
   */
  lemma FollowsItselfExactly(c: Cluster, requested: string, world: World, k: nat)
    requires Judge(c, requested, world).Promoted? && FirstNamed(c.replicas, TargetId(c, requested).value, k)
    ensures Judge(c, requested, world).chosen == c.replicas[k]
    ensures c.replicas[k] in Relocated(c, Judge(c, requested, world)) <==>
            c.replicas[k].host == TargetId(c, requested).value
  {
    var id := TargetId(c, requested).value;
    FindFirst(c.replicas, id, k);
    if c.replicas[k].host == id {
      assert |InstanceId(AddrOf(c.replicas[k]))| > |id|;
    }
  }

  /** Without a target every replica but the best one is relocated, whichever of them was promoted. */
  lemma AutomaticRelocatesOthers(c: Cluster, world: World, at: nat, r: Instance)
    requires DistinctMembers(c) && BestAt(c.replicas, at) && Judge(c, "", world).Promoted?
    ensures r in Relocated(c, Judge(c, "", world)) <==> r in c.replicas && r != c.replicas[at]
  {
    SelectsBest(c.replicas, at);
    if r in c.replicas && InstanceId(AddrOf(r)) == InstanceId(AddrOf(c.replicas[at])) {
      SameId(c, r, at);
    }
  }

  lemma SameId(c: Cluster, r: Instance, at: nat)
    requires DistinctMembers(c) && at < |c.replicas| && r in c.replicas
    requires InstanceId(AddrOf(r)) == InstanceId(AddrOf(c.replicas[at]))
    ensures r == c.replicas[at]
  {
    InstanceIdInjective(AddrOf(r), AddrOf(c.replicas[at]));
    var i :| 0 <= i < |c.replicas| && c.replicas[i] == r;
  }

  lemma ChosenIsReplica(c: Cluster, requested: string, world: World)
    requires Judge(c, requested, world).Promoted?
    ensures Judge(c, requested, world).chosen in c.replicas
    ensures AddrOf(Judge(c, requested, world).chosen) in ReplicaAddrs(c.replicas)
  {
    var i :| 0 <= i < |c.replicas| && c.replicas[i] == Judge(c, requested, world).chosen;
    assert AddrOf(c.replicas[i]) in ReplicaAddrs(c.replicas);
  }

  /** Without a target the promoted instance is told to follow itself exactly when the best replica is shadowed. */
  lemma AutomaticFollowsItself(c: Cluster, world: World, at: nat)
    requires DistinctMembers(c) && BestAt(c.replicas, at) && Judge(c, "", world).Promoted?
    ensures Judge(c, "", world).chosen in Relocated(c, Judge(c, "", world)) <==> !Unshadowed(c.replicas, at)
  {
    var v := Judge(c, "", world);
    ChosenIsReplica(c, "", world);
    AutomaticChoice(c, world, at);
    AutomaticRelocatesOthers(c, world, at, v.chosen);
  }

  /** An offline replica in front of an online one, whose host spells out the online one's id. */
  function Shadowing(host: string, port: nat, other: nat): Cluster {
    Cluster("c", "c", None,
            [Instance(InstanceId(Addr(host, port)), other, ReplicaRole, Offline, None),
             Instance(host, port, ReplicaRole, Online, Some(0))])
  }

  /** A run without a target then promotes the offline replica and tells it to follow itself. */
  lemma ShadowPromoted(host: string, port: nat, other: nat)
    ensures var c, world := Shadowing(host, port, other), World([], None, {});
            var v := Judge(c, "", world);
            DistinctMembers(c) && v.Promoted? && v.chosen == c.replicas[0] && v.chosen in Relocated(c, v)
  {
    var c, world := Shadowing(host, port, other), World([], None, {});
    assert |c.replicas[0].host| > |c.replicas[1].host|;
    assert BestAt(c.replicas, 1);
    CompletedExactly(c, "", world);
    assert c.replicas[1].state.Online?;
    AutomaticChoice(c, world, 1);
    AutomaticFollowsItself(c, world, 1);
    assert c.replicas[0].host == InstanceId(AddrOf(c.replicas[1]));
    ShadowedId(c, 0, 1);
  }

  /** For instance `::1` behind `::1:3306`, as hosts are spelled in IPv6. */
  lemma ShadowPromotedAtLoopback()
    ensures var c := Cluster("c", "c", None,
                             [Instance("::1:3306", 3307, ReplicaRole, Offline, None),
                              Instance("::1", 3306, ReplicaRole, Online, Some(0))]);
            var v := Judge(c, "", World([], None, {}));
            v.Promoted? && v.chosen.state.Offline? && v.chosen in Relocated(c, v)
  {
    assert Dec(3) == "3";
    assert Dec(33) == "33";
    assert Dec(330) == "330";
    assert Dec(3306) == "3306";
    assert InstanceId(Addr("::1", 3306)) == "::1:3306";
    ShadowPromoted("::1", 3306, 3307);
  }

  /** The topology the runner hands to ProxySQL: the new primary is still among the replicas. */
  function Rerouted(c: Cluster, chosen: Instance): Cluster {
    c.(primary := Some(chosen))
  }

  /** What a run does to the server table: nothing unless it promotes, and else one sync of the new topology. */
  ghost predicate Rerouting(c: Cluster, v: Verdict, t: Table, t': Table, lost: Lost) {
    if v.Promoted? then Leaves(t, t', Rerouted(c, v.chosen), WRITER, READER, lost) else t' == t
  }

  /**
   Because the promoted instance is still listed as a replica, the sync that ends every completed run
   leaves the writer hostgroup empty and all replicas, the new primary included, as readers.
   */
  lemma NoWriterAfterwards(t: Table, t': Table, c: Cluster, requested: string, world: World)
    requires Judge(c, requested, world).Promoted? && RowsServed(world.lost)
    ensures Rerouting(c, Judge(c, requested, world), t, t', world.lost) ==>
              Members(t', WRITER) == {} && Members(t', READER) == ReplicaAddrs(c.replicas)
  {
    if Rerouting(c, Judge(c, requested, world), t, t', world.lost) {
      var d := Rerouted(c, Judge(c, requested, world).chosen);
      LeavesSynced(t, t', d, WRITER, READER, world.lost);
      SyncOutcome(t, d, WRITER, READER);
      ChosenIsReplica(c, requested, world);
      assert PrimaryAddrs(d) - ReplicaAddrs(d.replicas) == {};
    }
  }

  /**
   Whatever statements are lost, the promoted instance is a writer exactly when it was one or its INSERT ran, and
   every DELETE of its turn as a replica is lost.
   */
  lemma WriterOnlyByLoss(t: Table, t': Table, c: Cluster, requested: string, world: World)
    requires Judge(c, requested, world).Promoted?
    ensures Rerouting(c, Judge(c, requested, world), t, t', world.lost) ==>
              var a := AddrOf(Judge(c, requested, world).chosen);
              a in Members(t', WRITER) <==>
              && (Key(WRITER, a) in t || InsertPrimary !in world.lost)
              && (forall n: nat | n < |c.replicas| && AddrOf(c.replicas[n]) == a :: MoveReplica(n) in world.lost)
  {
    if Rerouting(c, Judge(c, requested, world), t, t', world.lost) {
      var d, lost := Rerouted(c, Judge(c, requested, world).chosen), world.lost;
      var a := AddrOf(d.primary.value);
      var rows :| (ReadServers !in lost ==> Lists(rows, t)) && t' == Outcome(t, rows, d, WRITER, READER, lost);
      PrunedKeepsExpected(t, rows, d, WRITER, READER, lost, Key(WRITER, a));
      OutcomeHas(t, rows, d, WRITER, READER, lost, Key(WRITER, a));
      assert a in Members(t', WRITER) <==> Key(WRITER, a) in t';
    }
  }

  /** The old primary is a reader afterwards exactly when the topology also listed it as a replica. */
  lemma OldPrimaryRead(t: Table, t': Table, c: Cluster, requested: string, world: World)
    requires Judge(c, requested, world).Promoted? && RowsServed(world.lost) && c.primary.Some?
    ensures Rerouting(c, Judge(c, requested, world), t, t', world.lost) ==>
              && (AddrOf(c.primary.value) in Members(t', WRITER) + Members(t', READER) <==>
                  AddrOf(c.primary.value) in ReplicaAddrs(c.replicas))
              && (DistinctMembers(c) ==> AddrOf(c.primary.value) !in Members(t', WRITER) + Members(t', READER))
  {
    NoWriterAfterwards(t, t', c, requested, world);
  }

  function PrimaryId(c: Cluster): string {
    if c.primary.Some? then InstanceId(AddrOf(c.primary.value)) else ""
  }

  class FailoverOperation {
    const clusterId: string
    const oldPrimaryId: string
    var newPrimaryId: string     // "" when not chosen yet
    var state: Phase
    var steps: seq<Step>
    var error: Option<string>
    ghost var visited: seq<Phase>

    constructor (c: Cluster, target: string)
      ensures newPrimaryId == target && state == Idle && steps == [] && error == None && visited == []
      ensures clusterId == c.id && oldPrimaryId == PrimaryId(c)
    {
      clusterId := c.id;
      oldPrimaryId := PrimaryId(c);
      newPrimaryId := target;
      state, steps, error, visited := Idle, [], None, [];
    }

    /** An operation that was refused before it ran. */
    constructor Refused(c: Cluster, error: string)
      ensures state == Phase.Failed && this.error == Some(error) && steps == [] && visited == []
      ensures newPrimaryId == "" && clusterId == c.id && oldPrimaryId == PrimaryId(c)
    {
      clusterId := c.id;
      oldPrimaryId := PrimaryId(c);
      newPrimaryId := "";
      state, steps, this.error, visited := Phase.Failed, [], Some(error), [];
    }

    /** Phases, steps, final state and error are those of the verdict. */
    ghost predicate Ended(v: Verdict, isSwitchover: bool)
      reads this
    {
      && visited == Phases(v) && steps == StepsOf(v, isSwitchover)
      && state == (if v.Promoted? then Completed else Phase.Failed)
      && error == (if v.Promoted? then None else Some(ErrorText(v)))
    }

    method Enter(phase: Phase, step: Step)
      modifies this`state, this`steps, this`visited
      ensures state == phase && visited == old(visited) + [phase] && steps == old(steps) + [step]
    {
      state := phase;
      visited := visited + [phase];
      steps := steps + [step];
    }

    method AddStep(step: Step)
      modifies this`steps
      ensures steps == old(steps) + [step]
    {
      steps := steps + [step];
    }
  }

  class OperationRunner {
    const proxysql: ProxySQLManager

    constructor (proxysql: ProxySQLManager)
      ensures this.proxysql == proxysql
    {
      this.proxysql := proxysql;
    }

    method RunPreHooks(hooks: seq<Option<string>>) returns (thrown: Option<string>)
      ensures thrown == FirstError(hooks)
    {
      for n := 0 to |hooks|
        invariant FirstError(hooks) == FirstError(hooks[n..])
      {
        if hooks[n].Some? {
          return hooks[n];
        }
        assert hooks[n..][1..] == hooks[n + 1..];
      }
      thrown := None;
    }

    /** Sets the id when none was requested, then looks the replica up. */
    method SelectCandidate(op: FailoverOperation, c: Cluster) returns (chosen: Option<Instance>, thrown: string)
      modifies op`state, op`steps, op`visited, op`newPrimaryId
      ensures op.state == CandidateSelection && op.visited == old(op.visited) + [CandidateSelection]
      ensures op.steps == old(op.steps) + [SelectingCandidate]
      ensures var target := TargetId(c, old(op.newPrimaryId));
              && op.newPrimaryId == (if target.Some? then target.value else "")
              && chosen == (if target.Some? then Find(c.replicas, target.value) else None)
              && thrown == (if target.None? then ErrorText(NoCandidate) else ErrorText(CandidateNotFound(target.value)))
    {
      op.Enter(CandidateSelection, SelectingCandidate);
      if op.newPrimaryId == "" {
        var candidate := Select(c.replicas);
        if candidate.None? {
          return None, "No suitable candidate found for promotion";
        }
        op.newPrimaryId := InstanceId(AddrOf(candidate.value));
      }
      chosen := Find(c.replicas, op.newPrimaryId);
      thrown := "Candidate " + op.newPrimaryId + " not found";
    }

    method HandleFailure(op: FailoverOperation, error: string)
      modifies op`state, op`steps, op`visited, op`error
      ensures op.state == Phase.Failed && op.visited == old(op.visited) + [Phase.Failed]
      ensures op.error == Some(error) && op.steps == old(op.steps) + [FailedWith(error)]
    {
      op.error := Some(error);
      op.Enter(Phase.Failed, FailedWith(error));
    }

    /** One relocation call per other replica; their failures are swallowed. */
    method ReconfigureReplicas(op: FailoverOperation, c: Cluster) returns (moved: seq<Instance>)
      modifies op`state, op`steps, op`visited
      ensures op.state == Reconfiguring && op.visited == old(op.visited) + [Reconfiguring]
      ensures op.steps == old(op.steps) + [ReconfiguringReplicas]
      ensures moved == Others(c.replicas, op.newPrimaryId)
    {
      op.Enter(Reconfiguring, ReconfiguringReplicas);
      moved := [];
      for n := 0 to |c.replicas|
        invariant moved == Others(c.replicas[..n], op.newPrimaryId)
      {
        assert c.replicas[..n + 1][..n] == c.replicas[..n];
        if InstanceId(AddrOf(c.replicas[n])) != op.newPrimaryId {
          moved := moved + [c.replicas[n]];
        }
      }
      assert c.replicas[..|c.replicas|] == c.replicas;
    }

    /** The report is not looked at: a failed sync still completes the operation. */
    method UpdateRouting(op: FailoverOperation, c: Cluster, chosen: Instance, lost: Lost)
      modifies op`steps, proxysql
      ensures op.steps == old(op.steps) + [UpdatingRouting]
      ensures Leaves(old(proxysql.table), proxysql.table, Rerouted(c, chosen), WRITER, READER, lost)
    {
      op.AddStep(UpdatingRouting);
      ghost var rows;
      var report;
      report, rows := proxysql.SyncCluster(Rerouted(c, chosen), WRITER, READER, lost);
    }

    /** No candidate, or none of the name. */
    method FailSelection(op: FailoverOperation, error: string, isSwitchover: bool, ghost v: Verdict)
      requires op.visited == [Detecting, CandidateSelection] && op.steps == [RunningPreHooks, SelectingCandidate]
      requires (v.NoCandidate? || v.CandidateNotFound?) && error == ErrorText(v)
      modifies op`state, op`steps, op`visited, op`error
      ensures op.Ended(v, isSwitchover)
    {
      HandleFailure(op, error);
    }

    method FailPromotion(op: FailoverOperation, error: string, isSwitchover: bool, ghost v: Verdict)
      requires op.visited == [Detecting, CandidateSelection, Promoting]
      requires v.PromotionFailed? && error == ErrorText(v)
      requires op.steps == [RunningPreHooks, SelectingCandidate, PromotingTo(v.id)]
      modifies op`state, op`steps, op`visited, op`error
      ensures op.Ended(v, isSwitchover)
    {
      HandleFailure(op, error);
    }

    /** Reconfiguration and routing after a promotion. */
    method Complete(op: FailoverOperation, c: Cluster, chosen: Instance, isSwitchover: bool, lost: Lost,
                    ghost v: Verdict)
      returns (moved: seq<Instance>)
      requires op.visited == [Detecting, CandidateSelection, Promoting] && op.error == None
      requires op.steps == [RunningPreHooks, SelectingCandidate, PromotingTo(op.newPrimaryId)]
      requires v == Promoted(op.newPrimaryId, chosen)
      modifies op`state, op`steps, op`visited, proxysql
      ensures op.Ended(v, isSwitchover) && moved == Relocated(c, v)
      ensures Leaves(old(proxysql.table), proxysql.table, Rerouted(c, chosen), WRITER, READER, lost)
    {
      if isSwitchover {
        op.AddStep(StartedReplication);
      }
      ghost var steps := [RunningPreHooks, SelectingCandidate, PromotingTo(op.newPrimaryId)];
      assert op.steps == if isSwitchover then steps + [StartedReplication] else steps;
      moved := Finish(op, c, chosen, lost);
    }

    method Finish(op: FailoverOperation, c: Cluster, chosen: Instance, lost: Lost) returns (moved: seq<Instance>)
      modifies op`state, op`steps, op`visited, proxysql
      ensures op.state == Completed && op.visited == old(op.visited) + [Reconfiguring] + [Completed]
      ensures op.steps == old(op.steps) + [ReconfiguringReplicas] + [UpdatingRouting] + [Succeeded]
      ensures moved == Others(c.replicas, op.newPrimaryId)
      ensures Leaves(old(proxysql.table), proxysql.table, Rerouted(c, chosen), WRITER, READER, lost)
    {
      moved := ReconfigureReplicas(op, c);
      UpdateRouting(op, c, chosen, lost);
      op.Enter(Completed, Succeeded);
    }

    /** Promotion of a chosen replica, and what follows it. */
    method Promote(op: FailoverOperation, c: Cluster, chosen: Instance, isSwitchover: bool, world: World,
                   ghost v: Verdict)
      returns (moved: seq<Instance>)
      requires op.visited == [Detecting, CandidateSelection] && op.steps == [RunningPreHooks, SelectingCandidate]
      requires op.error == None
      requires v == if world.promotion.Some? then PromotionFailed(op.newPrimaryId, world.promotion.value)
                    else Promoted(op.newPrimaryId, chosen)
      modifies op`state, op`steps, op`visited, op`error, proxysql
      ensures op.Ended(v, isSwitchover) && moved == Relocated(c, v)
      ensures Rerouting(c, v, old(proxysql.table), proxysql.table, world.lost)
    {
      op.Enter(Promoting, PromotingTo(op.newPrimaryId));
      if world.promotion.Some? {
        var error := if world.promotion.value == "" then "Promotion failed" else world.promotion.value;
        FailPromotion(op, error, isSwitchover, v);
        moved := [];
      } else {
        moved := Complete(op, c, chosen, isSwitchover, world.lost, v);
      }
    }

    /** What follows the pre-hooks when none of them throws. */
    method SelectAndPromote(op: FailoverOperation, c: Cluster, isSwitchover: bool, world: World, ghost v: Verdict)
      returns (moved: seq<Instance>)
      requires op.visited == [Detecting] && op.steps == [RunningPreHooks] && op.error == None
      requires FirstError(world.hooks).None? && v == Judge(c, op.newPrimaryId, world)
      modifies op, proxysql
      ensures op.Ended(v, isSwitchover) && moved == Relocated(c, v)
      ensures op.newPrimaryId == if v.NoCandidate? then old(op.newPrimaryId) else v.id
      ensures Rerouting(c, v, old(proxysql.table), proxysql.table, world.lost)
    {
      var chosen, error := SelectCandidate(op, c);
      assert op.visited == [Detecting, CandidateSelection] && op.steps == [RunningPreHooks, SelectingCandidate];
      if chosen.None? {
        FailSelection(op, error, isSwitchover, v);
        moved := [];
      } else {
        moved := Promote(op, c, chosen.value, isSwitchover, world, v);
      }
    }

    /** `execute` */
    method Execute(op: FailoverOperation, c: Cluster, isSwitchover: bool, world: World)
      returns (ghost v: Verdict, moved: seq<Instance>)
      requires op.state == Idle && op.visited == [] && op.steps == [] && op.error == None
      modifies op, proxysql
      ensures v == Judge(c, old(op.newPrimaryId), world) && moved == Relocated(c, v)
      ensures op.Ended(v, isSwitchover)
      ensures op.newPrimaryId == if v.HookFailed? || v.NoCandidate? then old(op.newPrimaryId) else v.id
      ensures Rerouting(c, v, old(proxysql.table), proxysql.table, world.lost)
    {
      v := Judge(c, op.newPrimaryId, world);
      op.Enter(Detecting, RunningPreHooks);
      assert op.visited == [Detecting] && op.steps == [RunningPreHooks];
      var thrown := RunPreHooks(world.hooks);
      if thrown.Some? {
        HandleFailure(op, thrown.value);
        moved := [];
      } else {
        moved := SelectAndPromote(op, c, isSwitchover, world, v);
      }
    }
  }
}
