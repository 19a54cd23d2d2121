/**
 The coordinator object: its maps, locks, timers and counters. Each method is one stretch of code that
 runs without suspending, and does what the step of the same name in SyncSteps.dfy says.
 */
module SyncCoordinator {
  import opened Text
  import opened Topology
  import opened ServerTable
  import opened ProxySql
  import TopologyHash
  import opened SyncSteps
  import SyncRuns

  lemma Kept(cfg: Config, s: State, e: Event)
    requires Inv(cfg, s) && Enabled(s, e)
    ensures Wired(s.desk) && Inv(cfg, Next(cfg, s, e)) && Wired(Next(cfg, s, e).desk)
  {
    StepKeeps(cfg, s, e);
    Wires(cfg.maxRetries, Next(cfg, s, e).desk);
  }

  lemma AttemptKeeps(cfg: Config, s: State, s': State, owner: nat, fails: bool, added: nat, damage: Damage)
    requires Inv(cfg, s) && TryingAt(s.desk, owner)
    requires s' == if fails then FailStep(cfg, s, owner, damage) else SucceedStep(cfg, s, owner, added, damage)
    ensures Inv(cfg, s') && Wired(s'.desk) && |s'.desk.calls| == |s.desk.calls|
  {
    if fails {
      FailStepKeeps(cfg, s, owner, damage);
    } else {
      SucceedStepKeeps(cfg, s, owner, added, damage);
    }
    Wires(cfg.maxRetries, s'.desk);
  }

  /**
   An INSERT of the primary that is swallowed on an empty table: the sync is recorded as a success and the
   next one is skipped. Unless the primary is also a replica, no server takes writes, and the skip is wrong.
   */
  lemma SwallowedInsertSkips(c: Cluster) returns (states: seq<State>, events: seq<Event>)
    requires TopologyHash.Clean(c) && ValidCluster(Some(c))
    ensures var cfg := Config(5000, 1000, 2, true, 10, 20);
            && SyncRuns.Run(cfg, states, events)
            && SyncRuns.SkipsAsUnchanged(cfg, states[|events|], TimerFires(c.id))
            && states[|events|].desk.timers[c.id].cluster == c
            && (SyncRuns.UpToDate(cfg, states[|events|], c) <==> PrimaryAddrs(c) <= ReplicaAddrs(c.replicas))
  {
    var lost: Lost := {InsertPrimary};
    states, events := SyncRuns.SwallowedSkipHappens(EMPTY, c, [], lost);
    forall a | a in ReplicaAddrs(c.replicas)
      ensures ReaderRan(EMPTY, c, 20, lost, a) && Moved(c.replicas, a, lost)
    {
      AllInserted(c.replicas, a, lost);
    }
    assert forall a | a in PrimaryAddrs(c) :: WriterRan(EMPTY, c, 10, lost, a) <==> a in ReplicaAddrs(c.replicas);
  }

  /** What a call of `syncCluster` for `c` did to the table, and which kind of damage that is to the coordinator. */
  ghost predicate Called(cfg: Config, t: Table, t': Table, c: Cluster, lost: Lost, added: nat, damage: Damage) {
    && Leaves(t, t', c, cfg.writer, cfg.reader, lost)
    && (cfg.writer != cfg.reader && RowsServed(lost) ==>
          damage == Rewritten && added == Added(t, c, cfg.writer, cfg.reader))
    && (damage.Untouched? <==> !(cfg.writer != cfg.reader && RowsServed(lost)) && t' == t)
  }

  /** An attempt changes the table first and then concludes. */
  lemma TwoStages(cfg: Config, s: State, owner: nat, added: nat, damage: Damage)
    requires TryingAt(s.desk, owner)
    ensures var called := s.(board := Damaged(cfg, s.board, s.desk.flights[owner].cluster, damage));
            && SucceedStep(cfg, called, owner, added, Untouched) == SucceedStep(cfg, s, owner, added, damage)
            && FailStep(cfg, called, owner, Untouched) == FailStep(cfg, s, owner, damage)
  {
  }

  class SyncCoordinator {
    const cfg: Config
    const proxysql: ProxySQLManager
    var lastSyncTime: map<string, int>
    var lastTopologyHash: map<string, string>
    var locks: map<string, nat>
    var pendingDebounces: map<string, Timer>
    var promises: map<nat, Flight>
    var total: nat
    var succeeded: nat
    var failed: nat
    var skipped: nat
    var now: int
    var callers: nat
    ghost var calls: seq<Call>
    ghost var clusters: map<string, Cluster>
    ghost var wrote: Option<Cluster>

    ghost function View(): State
      reads this, proxysql
    {
      State(now,
            Desk(pendingDebounces, locks, promises, calls),
            Cache(lastSyncTime, lastTopologyHash, clusters),
            Stats(total, succeeded, failed, skipped),
            Board(proxysql.table, wrote))
    }

    ghost predicate Valid()
      reads this, proxysql
    {
      Counted() && Inv(cfg, View())
    }

    /** What the single stretches of code rely on. */
    ghost predicate Counted()
      reads this, proxysql
    {
      callers == |calls| && Wired(View().desk)
    }

    constructor (cfg: Config, proxysql: ProxySQLManager, now: int)
      ensures Valid() && this.cfg == cfg && this.proxysql == proxysql
      ensures View() == Initial(now, proxysql.table)
    {
      this.cfg := cfg;
      this.proxysql := proxysql;
      this.now := now;
      lastSyncTime, lastTopologyHash, locks, pendingDebounces, promises := map[], map[], map[], map[], map[];
      total, succeeded, failed, skipped, callers := 0, 0, 0, 0, 0;
      calls, clusters, wrote := [], map[], None;
      new;
      assert Underway(View().desk.flights) == {};
    }

    /** `sync`: answers invalid input at once, joins a running sync, or (re)starts the debounce timer. */
    method Sync(cluster: Option<Cluster>, force: bool) returns (joined: Option<nat>, answer: Option<SyncResult>)
      requires Valid()
      modifies this
      ensures Valid() && View() == CallStep(cfg, old(View()), cluster, force)
      ensures answer == if ValidCluster(cluster) then None else Some(Skipped(InvalidInput))
      ensures joined == if ValidCluster(cluster) && cluster.value.id in old(locks)
                        then Some(old(locks)[cluster.value.id]) else None
    {
      Kept(cfg, View(), SyncCall(cluster, force));
      joined, answer := PlaceCall(cluster, force);
    }

    method PlaceCall(cluster: Option<Cluster>, force: bool) returns (joined: Option<nat>, answer: Option<SyncResult>)
      requires Counted()
      modifies this
      ensures callers == |calls| && View() == CallStep(cfg, old(View()), cluster, force)
      ensures answer == if ValidCluster(cluster) then None else Some(Skipped(InvalidInput))
      ensures joined == if ValidCluster(cluster) && cluster.value.id in old(locks)
                        then Some(old(locks)[cluster.value.id]) else None
    {
      joined, answer := None, None;
      ghost var was := calls;
      if cluster.None? || cluster.value.id == "" || (cluster.value.primary.None? && |cluster.value.replicas| == 0) {
        answer := Some(Skipped(InvalidInput));
        calls := was + [Call(if cluster.Some? then cluster.value.id else "", Answered(Skipped(InvalidInput)))];
        callers := callers + 1;
        return;
      }
      var id := cluster.value.id;
      ClearPending(id);
      if id in locks {
        joined := Some(locks[id]);
        calls := calls + [Call(id, OnFlight(locks[id]))];
      } else {
        var due := now + if force then 0 else cfg.debounceMs;
        pendingDebounces := pendingDebounces[id := Timer(callers, cluster.value, force, due)];
        calls := calls + [Call(id, OnTimer)];
      }
      callers := callers + 1;
    }

    method ClearPending(id: string)
      requires Wired(View().desk)
      modifies this`pendingDebounces, this`calls
      ensures pendingDebounces == old(pendingDebounces) - {id}
      ensures calls == if id in old(pendingDebounces)
                       then SetStatus(old(calls), old(pendingDebounces)[id].owner, Superseded(|old(calls)|))
                       else old(calls)
    {
      if id in pendingDebounces {
        calls := SetStatus(calls, pendingDebounces[id].owner, Superseded(|calls|));
        pendingDebounces := pendingDebounces - {id};
      }
    }

    /** The timer callback: `executeSync` and `doSync` up to the first attempt. */
    method TimerCallback(id: string)
      requires Valid() && Enabled(View(), TimerFires(id))
      modifies this
      ensures Valid() && View() == FireStep(cfg, old(View()), id)
    {
      Kept(cfg, View(), TimerFires(id));
      assert TimerOk(View().desk, id);
      Fire(id);
    }

    method Fire(id: string)
      requires Counted() && id in pendingDebounces && TimerOk(View().desk, id)
      modifies this
      ensures callers == |calls| && View() == FireStep(cfg, old(View()), id)
    {
      var timer := pendingDebounces[id];
      pendingDebounces := pendingDebounces - {id};
      if !cfg.enabled {
        calls := SetStatus(calls, timer.owner, Answered(Skipped(Disabled)));
        return;
      }
      var phase := StartSync(timer.cluster, timer.force);
      promises := promises[timer.owner := Flight(timer.cluster, phase)];
      locks := locks[timer.cluster.id := timer.owner];
      calls := SetStatus(calls, timer.owner, OnFlight(timer.owner));
    }

    /** The skip checks of `doSync`. */
    method StartSync(cluster: Cluster, force: bool) returns (phase: Phase)
      modifies this`total, this`failed, this`skipped
      ensures var skip := SkipCheck(cfg, Cache(lastSyncTime, lastTopologyHash, clusters), now, cluster, force);
              && phase == FirstPhase(cfg, skip)
              && skipped == old(skipped) + (if skip.Some? then 1 else 0)
              && total == old(total) + (if skip.Some? then 0 else 1)
              && failed == old(failed) + (if skip.None? && cfg.maxRetries < 1 then 1 else 0)
    {
      var lastSync := if cluster.id in lastSyncTime then lastSyncTime[cluster.id] else 0;
      if !force && now - lastSync < cfg.cooldownMs {
        skipped := skipped + 1;
        return Settled(Skipped(Cooldown));
      }
      var topologyHash := TopologyHash.Hash(cluster);
      if !force && cluster.id in lastTopologyHash && lastTopologyHash[cluster.id] == topologyHash {
        skipped := skipped + 1;
        return Settled(Skipped(NoChange));
      }
      total := total + 1;
      if cfg.maxRetries < 1 {
        failed := failed + 1;
        return Settled(GaveUp);
      }
      phase := Trying(1);
    }

    /** One turn of the retry loop of `doSync`: a `syncCluster` call and what follows it. */
    method Attempt(owner: nat, lost: Lost) returns (ghost added: nat, ghost damage: Damage)
      requires Valid() && TryingAt(View().desk, owner)
      modifies this`lastSyncTime, this`lastTopologyHash, this`clusters, this`succeeded, this`failed, this`promises
      modifies this`wrote, proxysql
      ensures Valid()
      ensures View() == if Tail in lost then FailStep(cfg, old(View()), owner, damage)
                        else SucceedStep(cfg, old(View()), owner, added, damage)
      ensures Called(cfg, old(proxysql.table), proxysql.table, old(promises)[owner].cluster, lost, added, damage)
    {
      ghost var s := View();
      added, damage := TryOnce(owner, lost);
      AttemptKeeps(cfg, s, View(), owner, Tail in lost, added, damage);
    }

    method TryOnce(owner: nat, lost: Lost) returns (ghost added: nat, ghost damage: Damage)
      requires Counted() && TryingAt(View().desk, owner)
      modifies this`lastSyncTime, this`lastTopologyHash, this`clusters, this`succeeded, this`failed, this`promises
      modifies this`wrote, proxysql
      ensures View() == if Tail in lost then FailStep(cfg, old(View()), owner, damage)
                        else SucceedStep(cfg, old(View()), owner, added, damage)
      ensures Called(cfg, old(proxysql.table), proxysql.table, old(promises)[owner].cluster, lost, added, damage)
    {
      ghost var s := View();
      var report;
      report, damage := CallProxySql(promises[owner].cluster, lost);
      added := report.added;
      Conclude(owner, report);
      TwoStages(cfg, s, owner, added, damage);
    }

    method Conclude(owner: nat, report: SyncReport)
      requires TryingAt(View().desk, owner)
      modifies this`lastSyncTime, this`lastTopologyHash, this`clusters, this`succeeded, this`failed, this`promises
      ensures View() == if report.success then SucceedStep(cfg, old(View()), owner, report.added, Untouched)
                        else FailStep(cfg, old(View()), owner, Untouched)
    {
      if report.success {
        RecordSuccess(owner, report.added);
      } else {
        RecordFailure(owner);
      }
    }

    method CallProxySql(c: Cluster, lost: Lost) returns (report: SyncReport, ghost damage: Damage)
      modifies this`wrote, proxysql
      ensures report.success <==> Tail !in lost
      ensures View() == old(View()).(board := Damaged(cfg, old(View()).board, c, damage))
      ensures Called(cfg, old(proxysql.table), proxysql.table, c, lost, report.added, damage)
    {
      ghost var rows;
      report, rows := proxysql.SyncCluster(c, cfg.writer, cfg.reader, lost);
      damage := if cfg.writer != cfg.reader && RowsServed(lost) then Rewritten
                else if proxysql.table == old(proxysql.table) then Untouched
                else Mangled(proxysql.table);
      wrote := if damage.Rewritten? then Some(c) else if damage.Untouched? then wrote else None;
    }

    /** Only a success updates the caches. */
    method RecordSuccess(owner: nat, added: nat)
      requires TryingAt(View().desk, owner)
      modifies this`lastSyncTime, this`lastTopologyHash, this`clusters, this`succeeded, this`promises
      ensures View() == old(View()).(
                desk := PhaseDesk(old(View()).desk, owner, Settled(Success(added))),
                cache := Remember(old(View()).cache, old(promises)[owner].cluster, now),
                stats := old(View()).stats.(succeeded := old(succeeded) + 1))
    {
      var flight := promises[owner];
      var id := flight.cluster.id;
      lastSyncTime := lastSyncTime[id := now];
      lastTopologyHash := lastTopologyHash[id := TopologyHash.Hash(flight.cluster)];
      clusters := clusters[id := flight.cluster];
      succeeded := succeeded + 1;
      promises := promises[owner := flight.(phase := Settled(Success(added)))];
    }

    /** The next attempt, or the end of the loop. */
    method RecordFailure(owner: nat)
      requires TryingAt(View().desk, owner)
      modifies this`failed, this`promises
      ensures var k := old(promises)[owner].phase.attempt;
              View() == old(View()).(
                desk := PhaseDesk(old(View()).desk, owner,
                                  if k < cfg.maxRetries then Trying(k + 1) else Settled(GaveUp)),
                stats := old(View()).stats.(failed := old(failed) + if k < cfg.maxRetries then 0 else 1))
    {
      var flight := promises[owner];
      if flight.phase.attempt < cfg.maxRetries {
        promises := promises[owner := flight.(phase := Trying(flight.phase.attempt + 1))];
      } else {
        failed := failed + 1;
        promises := promises[owner := flight.(phase := Settled(GaveUp))];
      }
    }

    /** The `finally` of `executeSync`, and the delivery of the result to everyone who awaits it. */
    method Release(owner: nat) returns (result: SyncResult)
      requires Valid() && Enabled(View(), ReleaseLock(owner))
      modifies this
      ensures Valid() && View() == old(View()).(desk := ReleaseDesk(old(View()).desk, owner))
      ensures |calls| == |old(calls)|
      ensures forall i | 0 <= i < |calls| && old(calls)[i].status == OnFlight(owner) ::
                calls[i].status == Answered(result)
    {
      Kept(cfg, View(), ReleaseLock(owner));
      result := Settle(owner);
    }

    method Settle(owner: nat) returns (result: SyncResult)
      requires Counted() && Enabled(View(), ReleaseLock(owner))
      modifies this
      ensures callers == |calls| && View() == old(View()).(desk := ReleaseDesk(old(View()).desk, owner))
      ensures |calls| == |old(calls)|
      ensures forall i | 0 <= i < |calls| && old(calls)[i].status == OnFlight(owner) ::
                calls[i].status == Answered(result)
    {
      var flight := promises[owner];
      result := flight.phase.result;
      locks := locks - {flight.cluster.id};
      promises := promises - {owner};
      calls := Deliver(calls, owner, result);
    }

    method ResetCooldownOf(id: string)
      requires Valid()
      modifies this`lastSyncTime
      ensures Valid() && View() == Next(cfg, old(View()), ResetCooldown(id))
    {
      Kept(cfg, View(), ResetCooldown(id));
      lastSyncTime := lastSyncTime - {id};
    }

    method ClearCacheMaps()
      requires Valid()
      modifies this`lastSyncTime, this`lastTopologyHash, this`clusters
      ensures Valid() && View() == Next(cfg, old(View()), ClearCache)
    {
      Kept(cfg, View(), ClearCache);
      lastTopologyHash := map[];
      lastSyncTime := map[];
      clusters := map[];
    }
  }
}
