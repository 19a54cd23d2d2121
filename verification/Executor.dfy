/** The failover executor: what it refuses, what it records, and which old primaries it queues. */
module Executor {
  import opened Text
  import opened Topology
  import ProxySql
  import Candidates
  import opened Failover
  import opened Recovery

  predicate PrimaryHealthy(c: Cluster) {
    c.primary.Some? && c.primary.value.state.Online?
  }

  predicate TargetKnown(c: Cluster, target: string) {
    target == "" || Candidates.Find(c.replicas, target).Some?
  }

  /** `host:port, host:port` */
  function Listing(replicas: seq<Instance>): string {
    if replicas == [] then ""
    else
      InstanceId(AddrOf(replicas[0])) + (if |replicas| == 1 then "" else ", ") + Listing(replicas[1..])
  }

  function UnknownTarget(c: Cluster, target: string): string {
    "Target '" + target + "' not found in cluster replicas. Available: " + Listing(c.replicas)
  }

  const HEALTHY := "Primary is healthy. Use switchover for planned primary change."
  const UNHEALTHY := "Switchover requires a healthy primary. Use failover for unhealthy primary."

  /** Why a manual failover is refused before it runs, if it is. */
  function ManualRefusal(c: Cluster, target: string): Option<string> {
    if PrimaryHealthy(c) then Some(HEALTHY)
    else if !TargetKnown(c, target) then Some(UnknownTarget(c, target))
    else None
  }

  function SwitchoverRefusal(c: Cluster, target: string): Option<string> {
    if !PrimaryHealthy(c) then Some(UNHEALTHY)
    else if !TargetKnown(c, target) then Some(UnknownTarget(c, target))
    else None
  }

  /** The two requests exclude each other: whatever the cluster looks like, one of them is refused. */
  lemma OneRefused(c: Cluster, target: string)
    ensures ManualRefusal(c, target).Some? || SwitchoverRefusal(c, target).Some?
    ensures ManualRefusal(c, target).Some? && SwitchoverRefusal(c, target).Some? <==> !TargetKnown(c, target)
  {
  }

  // ---------------------------------------------------------------------------
  // Who is refused, on the cluster itself
  // ---------------------------------------------------------------------------

  /** The primary is known and online. */
  predicate OnlinePrimary(c: Cluster) {
    c.primary != None && c.primary.value.state == Online
  }

  /** No target is asked for, or a replica has it as host or as `host:port`. */
  predicate Targetable(c: Cluster, target: string) {
    target == "" || exists i :: 0 <= i < |c.replicas| && HasName(c.replicas[i], target)
  }

  predicate HasName(r: Instance, target: string) {
    r.host == target || r.host + ":" + Dec(r.port) == target
  }

  /** All hooks, the selection and the promotion go well. */
  predicate GoesWell(c: Cluster, target: string, world: World) {
    (forall i | 0 <= i < |world.hooks| :: world.hooks[i] == None) && Selectable(c, target) && world.promotion == None
  }

  /**
   A manual failover is refused exactly for an online primary or a target that no replica has, and a switchover
   exactly for a primary that is not online or such a target; the primary is looked at first.
   */
  lemma RefusedExactly(c: Cluster, target: string)
    ensures ManualRefusal(c, target) ==
            if OnlinePrimary(c) then Some("Primary is healthy. Use switchover for planned primary change.")
            else if !Targetable(c, target) then Some(UnknownTarget(c, target))
            else None
    ensures SwitchoverRefusal(c, target) ==
            if !OnlinePrimary(c) then
              Some("Switchover requires a healthy primary. Use failover for unhealthy primary.")
            else if !Targetable(c, target) then Some(UnknownTarget(c, target))
            else None
  {
    forall i | 0 <= i < |c.replicas|
      ensures HasName(c.replicas[i], target) <==> Candidates.Named(c.replicas[i], target)
    {
      Candidates.NamedBy(c.replicas[i], target);
    }
  }

  /** The message lists the ids of all replicas. */
  lemma UnknownTargetText(c: Cluster, target: string, r: Instance)
    ensures UnknownTarget(c.(replicas := []), target) ==
            "Target '" + target + "' not found in cluster replicas. Available: "
    ensures Listing([r]) == r.host + ":" + Dec(r.port)
    ensures c.replicas != [] ==> Listing([r] + c.replicas) == r.host + ":" + Dec(r.port) + ", " + Listing(c.replicas)
  {
    assert [r][1..] == [] && ([r] + c.replicas)[1..] == c.replicas;
    assert Listing([]) == "";
  }

  /** A request that is not refused completes exactly when all goes well. */
  lemma CompletesWhen(c: Cluster, target: string, world: World)
    ensures Judge(c, target, world).Promoted? <==> GoesWell(c, target, world)
  {
    CompletedExactly(c, target, world);
  }

  /** The queue events of one failover: the old primary when the run completed and there was one. */
  function QueueEvents(c: Cluster, v: Verdict): seq<QueueEvent> {
    if v.Promoted? && c.primary.Some? && v.id != "" then
      var a := AddrOf(c.primary.value);
      [Queued(InstanceId(a), Pending(c.id, a, v.id))]
    else []
  }

  /** A completed run always knows the id of the new primary. */
  lemma PromotedHasId(c: Cluster, requested: string, world: World)
    requires Judge(c, requested, world).Promoted?
    ensures Judge(c, requested, world).id != ""
  {
    if requested == "" {
      var r := Candidates.Select(c.replicas).value;
      assert |InstanceId(AddrOf(r))| >= 1;
    }
  }

  /** What a sequential run of the executor does to the queue: failovers, and instances that leave it. */
  datatype Call =
    | Failover(c: Cluster, requested: string, world: World)
    | Departs(id: string)               // recovered or cleared

  function LogAfter(calls: seq<Call>): seq<QueueEvent> {
    if calls == [] then []
    else
      LogAfter(calls[..|calls| - 1]) +
      match calls[|calls| - 1]
      case Failover(c, requested, world) => QueueEvents(c, Judge(c, requested, world))
      case Departs(id) => [Left(id)]
  }

  /** A batch that recovers `ids` counts as so many departures. */
  function Departures(ids: seq<string>): seq<Call> {
    if ids == [] then [] else Departures(ids[..|ids| - 1]) + [Departs(ids[|ids| - 1])]
  }

  /** What a batch adds to the queue's log is what its departures add. */
  lemma {:induction false} BatchDeparts(calls: seq<Call>, ids: seq<string>)
    ensures LogAfter(calls + Departures(ids)) == LogAfter(calls) + Lefts(ids)
    decreases |ids|
  {
    if ids == [] {
      assert calls + Departures(ids) == calls;
    } else {
      var last := |ids| - 1;
      var before := calls + Departures(ids[..last]);
      BatchDeparts(calls, ids[..last]);
      assert calls + Departures(ids) == before + [Departs(ids[last])];
      assert (before + [Departs(ids[last])])[..|before|] == before;
    }
  }

  /** A completed failover away from the primary `id`. */
  predicate Deposes(call: Call, id: string) {
    && call.Failover? && Judge(call.c, call.requested, call.world).Promoted?
    && call.c.primary.Some? && InstanceId(AddrOf(call.c.primary.value)) == id
  }

  predicate NotSinceLeft(calls: seq<Call>, k: int, id: string) {
    0 <= k < |calls| && Deposes(calls[k], id) && forall j | k < j < |calls| :: calls[j] != Departs(id)
  }

  lemma WaitingAfter(calls: seq<Call>, last: Call, id: string)
    ensures id in Waiting(LogAfter(calls + [last])) <==>
            Deposes(last, id) || (last != Departs(id) && id in Waiting(LogAfter(calls)))
  {
    assert (calls + [last])[..|calls|] == calls;
    var log := LogAfter(calls);
    if last.Departs? {
      assert (log + [Left(last.id)])[..|log|] == log;
    } else {
      var v := Judge(last.c, last.requested, last.world);
      if v.Promoted? {
        PromotedHasId(last.c, last.requested, last.world);
      }
      if QueueEvents(last.c, v) != [] {
        assert (log + QueueEvents(last.c, v))[..|log|] == log;
      } else {
        assert log + QueueEvents(last.c, v) == log;
      }
    }
  }

  /** The queue is exactly the old primaries of completed failovers that have not left it since. */
  lemma {:induction false} PendingExactly(calls: seq<Call>, id: string)
    ensures id in Waiting(LogAfter(calls)) <==> exists k :: NotSinceLeft(calls, k, id)
    decreases |calls|
  {
    if calls == [] {
    } else {
      var last := |calls| - 1;
      PendingExactly(calls[..last], id);
      assert calls == calls[..last] + [calls[last]];
      PendingStep(calls[..last], calls[last], calls, id);
    }
  }

  lemma PendingStep(calls: seq<Call>, last: Call, all: seq<Call>, id: string)
    requires all == calls + [last]
    requires id in Waiting(LogAfter(calls)) <==> exists k :: NotSinceLeft(calls, k, id)
    ensures id in Waiting(LogAfter(all)) <==> exists k :: NotSinceLeft(all, k, id)
  {
    WaitingAfter(calls, last, id);
    NotLeftAfter(calls, last, id);
  }

  lemma NotLeftAfter(calls: seq<Call>, last: Call, id: string)
    ensures (exists k :: NotSinceLeft(calls + [last], k, id)) <==>
            Deposes(last, id) || (last != Departs(id) && exists k :: NotSinceLeft(calls, k, id))
  {
    var all := calls + [last];
    assert all[|calls|] == last && forall i | 0 <= i < |calls| :: all[i] == calls[i];
    if Deposes(last, id) {
      assert NotSinceLeft(all, |calls|, id);
    } else {
      assert forall k :: NotSinceLeft(all, k, id) ==> NotSinceLeft(calls, k, id);
      assert last != Departs(id) ==> forall k :: NotSinceLeft(calls, k, id) ==> NotSinceLeft(all, k, id);
    }
  }

  /** The step that tells of the queueing. */
  function QueueSteps(c: Cluster, v: Verdict): seq<Step> {
    if v.Promoted? && c.primary.Some? then [QueuedForRecovery(PrimaryId(c))] else []
  }

  /** The run tells whom it queues. */
  lemma QueueingTold(c: Cluster, requested: string, world: World)
    ensures var v := Judge(c, requested, world);
            var steps, queued := QueueSteps(c, v), QueueEvents(c, v);
            |steps| == |queued| <= 1 && forall i | 0 <= i < |steps| :: steps[i] == QueuedForRecovery(queued[i].id)
  {
    if Judge(c, requested, world).Promoted? {
      PromotedHasId(c, requested, world);
    }
  }

  /** No later call of the list deposes `id` again. */
  predicate LastDeposed(calls: seq<Call>, k: int, id: string) {
    NotSinceLeft(calls, k, id) && forall j | k < j < |calls| :: !Deposes(calls[j], id)
  }

  /**
   What waits is what the last failover away from the instance knew of it: its cluster, its address, and the new
   primary by the name of that run.
   */
  lemma {:induction false} PendingData(calls: seq<Call>, k: int, id: string)
    requires LastDeposed(calls, k, id)
    ensures var call := calls[k];
            && id in Waiting(LogAfter(calls))
            && Waiting(LogAfter(calls))[id] ==
               Pending(call.c.id, Addr(call.c.primary.value.host, call.c.primary.value.port),
                       Judge(call.c, call.requested, call.world).id)
    decreases |calls|
  {
    var last := |calls| - 1;
    var front := calls[..last];
    assert calls == front + [calls[last]];
    if k == last {
      DeposedLast(front, calls[last], id);
    } else {
      assert forall j | 0 <= j < last :: front[j] == calls[j];
      PendingData(front, k, id);
      OtherCall(front, calls[last], id);
    }
  }

  lemma DeposedLast(calls: seq<Call>, last: Call, id: string)
    requires Deposes(last, id)
    ensures id in Waiting(LogAfter(calls + [last]))
    ensures Waiting(LogAfter(calls + [last]))[id] ==
            Pending(last.c.id, AddrOf(last.c.primary.value), Judge(last.c, last.requested, last.world).id)
  {
    assert (calls + [last])[..|calls|] == calls;
    PromotedHasId(last.c, last.requested, last.world);
    var log, more := LogAfter(calls), QueueEvents(last.c, Judge(last.c, last.requested, last.world));
    assert (log + more)[..|log|] == log;
  }

  lemma OtherCall(calls: seq<Call>, last: Call, id: string)
    requires !Deposes(last, id) && last != Departs(id) && id in Waiting(LogAfter(calls))
    ensures id in Waiting(LogAfter(calls + [last]))
    ensures Waiting(LogAfter(calls + [last]))[id] == Waiting(LogAfter(calls))[id]
  {
    assert (calls + [last])[..|calls|] == calls;
    var log := LogAfter(calls);
    if last.Departs? {
      assert (log + [Left(last.id)])[..|log|] == log;
    } else {
      var more := QueueEvents(last.c, Judge(last.c, last.requested, last.world));
      if more != [] {
        assert (log + more)[..|log|] == log;
      } else {
        assert log + more == log;
      }
    }
  }

  class FailoverExecutor {
    const runner: OperationRunner
    const recovery: RecoveryManager
    var currentOperation: FailoverOperation?
    var history: seq<FailoverOperation>

    constructor (proxysql: ProxySql.ProxySQLManager)
      ensures history == [] && currentOperation == null
      ensures runner.proxysql == proxysql && fresh(recovery) && recovery.Valid() && recovery.pending == map[]
    {
      runner := new OperationRunner(proxysql);
      recovery := new RecoveryManager();
      currentOperation, history := null, [];
    }

    method RecordRefusal(c: Cluster, error: string) returns (op: FailoverOperation)
      modifies this`history
      ensures fresh(op) && history == old(history) + [op]
      ensures op.state == Phase.Failed && op.error == Some(error) && op.visited == []
    {
      op := new FailoverOperation.Refused(c, error);
      history := history + [op];
    }

    /** Runs a failover; a completed one queues the old primary. */
    method ExecuteFailoverOperation(op: FailoverOperation, c: Cluster, world: World)
      returns (ghost v: Verdict, moved: seq<Instance>)
      requires recovery.Valid()
      requires op.state == Idle && op.visited == [] && op.steps == [] && op.error == None
      modifies this, op, recovery, runner.proxysql
      ensures recovery.Valid() && history == old(history) + [op] && currentOperation == null
      ensures v == Judge(c, old(op.newPrimaryId), world)
      ensures op.visited == Phases(v) && op.state == (if v.Promoted? then Completed else Phase.Failed)
      ensures op.error == if v.Promoted? then None else Some(ErrorText(v))
      ensures op.steps == StepsOf(v, false) + QueueSteps(c, v)
      ensures moved == Relocated(c, v) && Rerouting(c, v, old(runner.proxysql.table), runner.proxysql.table, world.lost)
      ensures recovery.log == old(recovery.log) + QueueEvents(c, v)
    {
      currentOperation := op;
      v, moved := runner.Execute(op, c, false, world);
      if v.Promoted? {
        PromotedHasId(c, old(op.newPrimaryId), world);
      }
      if op.state == Completed && c.primary.Some? && op.newPrimaryId != "" {
        var a := AddrOf(c.primary.value);
        recovery.QueueForRecovery(InstanceId(a), Pending(c.id, a, op.newPrimaryId));
        op.AddStep(QueuedForRecovery(InstanceId(a)));
      }
      history := history + [op];
      currentOperation := null;
    }

    method ExecuteSwitchoverOperation(op: FailoverOperation, c: Cluster, world: World)
      returns (ghost v: Verdict, moved: seq<Instance>)
      requires op.state == Idle && op.visited == [] && op.steps == [] && op.error == None
      modifies this, op, runner.proxysql
      ensures history == old(history) + [op] && currentOperation == null
      ensures v == Judge(c, old(op.newPrimaryId), world) && op.Ended(v, true)
      ensures moved == Relocated(c, v) && Rerouting(c, v, old(runner.proxysql.table), runner.proxysql.table, world.lost)
    {
      currentOperation := op;
      v, moved := runner.Execute(op, c, true, world);
      history := history + [op];
      currentOperation := null;
    }

    method ExecuteAutomaticFailover(c: Cluster, world: World) returns (op: FailoverOperation)
      requires recovery.Valid()
      modifies this, recovery, runner.proxysql
      ensures recovery.Valid() && fresh(op) && history == old(history) + [op]
      ensures op.state == (if Judge(c, "", world).Promoted? then Completed else Phase.Failed)
      ensures recovery.log == old(recovery.log) + QueueEvents(c, Judge(c, "", world))
      ensures Rerouting(c, Judge(c, "", world), old(runner.proxysql.table), runner.proxysql.table, world.lost)
    {
      op := new FailoverOperation(c, "");
      var _, _ := ExecuteFailoverOperation(op, c, world);
    }

    /** Only for a primary that is down; a healthy one is refused and nothing else changes. */
    method ExecuteManualFailover(c: Cluster, target: string, world: World) returns (op: FailoverOperation)
      requires recovery.Valid()
      modifies this, recovery, runner.proxysql
      ensures recovery.Valid() && fresh(op) && history == old(history) + [op]
      ensures op.state == Completed <==> ManualRefusal(c, target).None? && Judge(c, target, world).Promoted?
      ensures op.state in {Completed, Phase.Failed}
      ensures ManualRefusal(c, target).Some? ==>
                && op.error == ManualRefusal(c, target) && op.visited == []
                && runner.proxysql.table == old(runner.proxysql.table) && recovery.log == old(recovery.log)
      ensures ManualRefusal(c, target).None? ==>
                && op.visited == Phases(Judge(c, target, world))
                && Rerouting(c, Judge(c, target, world), old(runner.proxysql.table), runner.proxysql.table, world.lost)
                && recovery.log == old(recovery.log) + QueueEvents(c, Judge(c, target, world))
      ensures OnlinePrimary(c) ==>
                && op.state == Phase.Failed && op.visited == []
                && op.error == Some("Primary is healthy. Use switchover for planned primary change.")
                && runner.proxysql.table == old(runner.proxysql.table) && recovery.log == old(recovery.log)
      ensures !OnlinePrimary(c) && Targetable(c, target) ==>
                op.visited != [] && (op.state == Completed <==> GoesWell(c, target, world))
    {
      RefusedExactly(c, target);
      if c.primary.Some? && c.primary.value.state.Online? {
        op := RecordRefusal(c, HEALTHY);
        return;
      }
      if target != "" && Candidates.Find(c.replicas, target).None? {
        op := RecordRefusal(c, UnknownTarget(c, target));
        return;
      }
      CompletesWhen(c, target, world);
      op := new FailoverOperation(c, target);
      var _, _ := ExecuteFailoverOperation(op, c, world);
    }

    /** Only for a healthy primary; it never touches the recovery queue. */
    method ExecuteSwitchover(c: Cluster, target: string, world: World) returns (op: FailoverOperation)
      modifies this, runner.proxysql
      ensures fresh(op) && history == old(history) + [op]
      ensures op.state == Completed <==> SwitchoverRefusal(c, target).None? && Judge(c, target, world).Promoted?
      ensures op.state in {Completed, Phase.Failed}
      ensures SwitchoverRefusal(c, target).Some? ==>
                && op.error == SwitchoverRefusal(c, target) && op.visited == []
                && runner.proxysql.table == old(runner.proxysql.table)
      ensures SwitchoverRefusal(c, target).None? ==>
                && op.visited == Phases(Judge(c, target, world))
                && Rerouting(c, Judge(c, target, world), old(runner.proxysql.table), runner.proxysql.table, world.lost)
      ensures !OnlinePrimary(c) ==>
                && op.state == Phase.Failed && op.visited == []
                && op.error == Some("Switchover requires a healthy primary. Use failover for unhealthy primary.")
                && runner.proxysql.table == old(runner.proxysql.table)
      ensures OnlinePrimary(c) && Targetable(c, target) ==>
                op.visited != [] && (op.state == Completed <==> GoesWell(c, target, world))
    {
      RefusedExactly(c, target);
      if c.primary.None? || !c.primary.value.state.Online? {
        op := RecordRefusal(c, UNHEALTHY);
        return;
      }
      if target != "" && Candidates.Find(c.replicas, target).None? {
        op := RecordRefusal(c, UnknownTarget(c, target));
        return;
      }
      CompletesWhen(c, target, world);
      op := new FailoverOperation(c, target);
      var _, _ := ExecuteSwitchoverOperation(op, c, world);
    }
  }
}
