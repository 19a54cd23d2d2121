/** When a sync works, what its callers are told, and by which call: read off the history of a run. */
module SyncAnswers {
  import opened Text
  import opened Topology
  import opened TopologyHash
  import opened SyncSteps
  import opened SyncRuns

  // ---------------------------------------------------------------------------
  // What the cache remembers
  // ---------------------------------------------------------------------------

  /** Step `i` is the last success for `id` before step `j`. */
  ghost predicate LastSuccess(states: seq<State>, events: seq<Event>, i: nat, j: nat, id: string)
    requires j <= |events| && |states| == |events| + 1
  {
    i < j && SucceedsAt(states, events, i, id) && forall k | i < k < j :: !SucceedsAt(states, events, k, id)
  }

  /** No reset in between makes the coordinator forget when `id` was synced. */
  predicate TimeKept(events: seq<Event>, i: nat, j: nat, id: string)
    requires j <= |events|
  {
    forall k | i < k < j :: !events[k].ClearCache? && events[k] != ResetCooldown(id)
  }

  /** No clearing in between makes it forget the topology. */
  predicate HashKept(events: seq<Event>, i: nat, j: nat)
    requires j <= |events|
  {
    forall k | i < k < j :: !events[k].ClearCache?
  }

  lemma OneLastSuccess(states: seq<State>, events: seq<Event>, i: nat, i': nat, j: nat, id: string)
    requires j <= |events| && |states| == |events| + 1
    requires LastSuccess(states, events, i, j, id) && LastSuccess(states, events, i', j, id)
    ensures i == i'
  {
  }

  /** The topology that succeeded at step `i`. */
  function SucceededWith(states: seq<State>, events: seq<Event>, i: nat, id: string): Cluster
    requires i < |events| && |states| == |events| + 1 && SucceedsAt(states, events, i, id)
  {
    states[i].desk.flights[events[i].owner].cluster
  }

  /** What one step does to the records of `id`. */
  lemma RecordStep(cfg: Config, s: State, e: Event, id: string)
    requires Wired(s.desk) && Enabled(s, e)
    ensures var before, after := s.cache, Next(cfg, s, e).cache;
            if e.AttemptSucceeds? && s.desk.flights[e.owner].cluster.id == id then
              && id in after.times && after.times[id] == s.now
              && id in after.hashes && after.hashes[id] == Hash(s.desk.flights[e.owner].cluster)
            else
              && (id in after.times <==> id in before.times && !e.ClearCache? && e != ResetCooldown(id))
              && (id in after.times ==> after.times[id] == before.times[id])
              && (id in after.hashes <==> id in before.hashes && !e.ClearCache?)
              && (id in after.hashes ==> after.hashes[id] == before.hashes[id])
  {
  }

  lemma SuccessIsLast(states: seq<State>, events: seq<Event>, i: nat, id: string)
    requires i < |events| && |states| == |events| + 1 && SucceedsAt(states, events, i, id)
    ensures LastSuccess(states, events, i, i + 1, id)
  {
  }

  lemma LastStays(states: seq<State>, events: seq<Event>, i: nat, j: nat, id: string)
    requires j < |events| && |states| == |events| + 1 && !SucceedsAt(states, events, j, id)
    ensures LastSuccess(states, events, i, j + 1, id) <==> LastSuccess(states, events, i, j, id)
  {
  }

  lemma KeptStep(events: seq<Event>, i: nat, j: nat, id: string)
    requires i < j < |events|
    ensures TimeKept(events, i, j + 1, id) <==>
            TimeKept(events, i, j, id) && !events[j].ClearCache? && events[j] != ResetCooldown(id)
    ensures HashKept(events, i, j + 1) <==> HashKept(events, i, j) && !events[j].ClearCache?
  {
  }

  /** The recorded time is that of the last success, if nothing has made the coordinator forget it. */
  lemma {:induction false} TimeTells(cfg: Config, states: seq<State>, events: seq<Event>, j: nat, id: string)
    requires Run(cfg, states, events) && j <= |events|
    ensures id in states[j].cache.times <==>
            exists i: nat :: LastSuccess(states, events, i, j, id) && TimeKept(events, i, j, id)
    ensures forall i: nat | LastSuccess(states, events, i, j, id) && TimeKept(events, i, j, id) ::
              id in states[j].cache.times && states[j].cache.times[id] == states[i].now
  {
    if j == 0 {
    } else {
      var p := j - 1;
      TimeTells(cfg, states, events, p, id);
      assert StepAt(cfg, states, events, p);
      RecordStep(cfg, states[p], events[p], id);
      if SucceedsAt(states, events, p, id) {
        SuccessIsLast(states, events, p, id);
        assert TimeKept(events, p, j, id);
      } else {
        forall i: nat
          ensures LastSuccess(states, events, i, j, id) <==> LastSuccess(states, events, i, p, id)
        {
          LastStays(states, events, i, p, id);
        }
        forall i: nat | i < p
          ensures TimeKept(events, i, j, id) <==>
                  TimeKept(events, i, p, id) && !events[p].ClearCache? && events[p] != ResetCooldown(id)
        {
          KeptStep(events, i, p, id);
        }
      }
    }
  }

  /** The hash recorded for `id`, if any, is that of its last success, unless the cache was cleared since. */
  ghost predicate HashTold(states: seq<State>, events: seq<Event>, j: nat, id: string)
    requires j <= |events| && |states| == |events| + 1
  {
    && (id in states[j].cache.hashes <==>
        exists i: nat :: LastSuccess(states, events, i, j, id) && HashKept(events, i, j))
    && (forall i: nat | LastSuccess(states, events, i, j, id) && HashKept(events, i, j) ::
          id in states[j].cache.hashes && states[j].cache.hashes[id] == Hash(SucceededWith(states, events, i, id)))
  }

  lemma HashToldAnew(states: seq<State>, events: seq<Event>, p: nat, j: nat, id: string)
    requires j == p + 1 <= |events| && |states| == |events| + 1 && SucceedsAt(states, events, p, id)
    requires id in states[j].cache.hashes
    requires states[j].cache.hashes[id] == Hash(SucceededWith(states, events, p, id))
    ensures HashTold(states, events, j, id)
  {
    SuccessIsLast(states, events, p, id);
    assert HashKept(events, p, j);
    forall i: nat | LastSuccess(states, events, i, j, id)
      ensures i == p
    {
      OneLastSuccess(states, events, i, p, j, id);
    }
  }

  lemma HashToldStill(states: seq<State>, events: seq<Event>, p: nat, j: nat, id: string)
    requires j == p + 1 <= |events| && |states| == |events| + 1 && !SucceedsAt(states, events, p, id)
    requires HashTold(states, events, p, id)
    requires var before, after := states[p].cache.hashes, states[j].cache.hashes;
             && (id in after <==> id in before && !events[p].ClearCache?)
             && (id in after ==> after[id] == before[id])
    ensures HashTold(states, events, j, id)
  {
    forall i: nat
      ensures LastSuccess(states, events, i, j, id) <==> LastSuccess(states, events, i, p, id)
    {
      LastStays(states, events, i, p, id);
    }
    forall i: nat | i < p
      ensures HashKept(events, i, j) <==> HashKept(events, i, p) && !events[p].ClearCache?
    {
      KeptStep(events, i, p, id);
    }
    if id in states[j].cache.hashes {
      var i: nat :| LastSuccess(states, events, i, p, id) && HashKept(events, i, p);
      assert LastSuccess(states, events, i, j, id) && HashKept(events, i, j);
    }
    if i: nat :| LastSuccess(states, events, i, j, id) && HashKept(events, i, j) {
      assert LastSuccess(states, events, i, p, id) && HashKept(events, i, p);
    }
  }

  lemma {:induction false} HashTells(cfg: Config, states: seq<State>, events: seq<Event>, j: nat, id: string)
    requires Run(cfg, states, events) && j <= |events|
    ensures HashTold(states, events, j, id)
  {
    if j == 0 {
    } else {
      HashTells(cfg, states, events, j - 1, id);
      assert StepAt(cfg, states, events, j - 1);
      RecordStep(cfg, states[j - 1], events[j - 1], id);
      if SucceedsAt(states, events, j - 1, id) {
        HashToldAnew(states, events, j - 1, j, id);
      } else {
        HashToldStill(states, events, j - 1, j, id);
      }
    }
  }

  // ---------------------------------------------------------------------------
  // When a sync works
  // ---------------------------------------------------------------------------

  /** The cooldown is over: since the last success that is not forgotten, or since the epoch. */
  ghost predicate Cooled(cfg: Config, states: seq<State>, events: seq<Event>, j: nat, id: string)
    requires j <= |events| && |states| == |events| + 1
  {
    && (forall i: nat | LastSuccess(states, events, i, j, id) && TimeKept(events, i, j, id) ::
          states[j].now - states[i].now >= cfg.cooldownMs)
    && ((forall i: nat | LastSuccess(states, events, i, j, id) :: !TimeKept(events, i, j, id)) ==>
          states[j].now >= cfg.cooldownMs)
  }

  /** The topology is another one than that of the last success, or that one is forgotten. */
  ghost predicate Changed(states: seq<State>, events: seq<Event>, j: nat, id: string, c: Cluster)
    requires j <= |events| && |states| == |events| + 1
  {
    forall i: nat | LastSuccess(states, events, i, j, id) && HashKept(events, i, j) ::
      !SameData(SucceededWith(states, events, i, id), c)
  }

  lemma CooledTells(cfg: Config, states: seq<State>, events: seq<Event>, j: nat, id: string)
    requires Run(cfg, states, events) && j <= |events|
    ensures Cooled(cfg, states, events, j, id) <==>
            states[j].now - (if id in states[j].cache.times then states[j].cache.times[id] else 0) >= cfg.cooldownMs
  {
    TimeTells(cfg, states, events, j, id);
    if id in states[j].cache.times {
      var i: nat :| LastSuccess(states, events, i, j, id) && TimeKept(events, i, j, id);
      forall i': nat | LastSuccess(states, events, i', j, id)
        ensures i' == i
      {
        OneLastSuccess(states, events, i, i', j, id);
      }
    }
  }

  lemma SucceededClean(cfg: Config, states: seq<State>, events: seq<Event>, i: nat, id: string)
    requires Run(cfg, states, events) && CleanCalls(events) && i < |events| && SucceedsAt(states, events, i, id)
    ensures Clean(SucceededWith(states, events, i, id))
  {
    RunRecords(cfg, states, events, i);
  }

  lemma ChangedTells(cfg: Config, states: seq<State>, events: seq<Event>, j: nat, id: string, c: Cluster)
    requires Run(cfg, states, events) && CleanCalls(events) && j <= |events| && Clean(c)
    ensures Changed(states, events, j, id, c) <==>
            !(id in states[j].cache.hashes && states[j].cache.hashes[id] == Hash(c))
  {
    HashTells(cfg, states, events, j, id);
    forall i: nat | LastSuccess(states, events, i, j, id)
      ensures SameData(SucceededWith(states, events, i, id), c) <==>
              Hash(SucceededWith(states, events, i, id)) == Hash(c)
    {
      SucceededClean(cfg, states, events, i, id);
      HashSeesData(SucceededWith(states, events, i, id), c);
    }
    if id in states[j].cache.hashes {
      var i: nat :| LastSuccess(states, events, i, j, id) && HashKept(events, i, j);
      assert states[j].cache.hashes[id] == Hash(SucceededWith(states, events, i, id));
      forall i': nat | LastSuccess(states, events, i', j, id)
        ensures i' == i
      {
        OneLastSuccess(states, events, i, i', j, id);
      }
    }
  }

  /** What the timer of `id` that fires at step `j` starts: a first attempt, or an answer at once. */
  ghost predicate FiresWith(states: seq<State>, events: seq<Event>, j: nat, id: string, phase: Phase)
    requires j < |events| && |states| == |events| + 1 && id in states[j].desk.timers
  {
    var t := states[j].desk.timers[id];
    t.owner in states[j + 1].desk.flights && states[j + 1].desk.flights[t.owner] == Flight(t.cluster, phase)
  }

  /**
   A sync whose timer fires makes its first attempt exactly when it is forced, or the cooldown is over and the
   topology has changed. Otherwise it ends at once, and the reason given is the cooldown before anything else.
   */
  lemma WorksExactly(cfg: Config, states: seq<State>, events: seq<Event>, j: nat, id: string)
    requires Run(cfg, states, events) && CleanCalls(events) && j < |events| && events[j] == TimerFires(id)
    requires cfg.enabled
    ensures id in states[j].desk.timers
    ensures var t := states[j].desk.timers[id];
            var works := t.force || (Cooled(cfg, states, events, j, id) && Changed(states, events, j, id, t.cluster));
            var why := if Cooled(cfg, states, events, j, id) then NoChange else Cooldown;
            && FiresWith(states, events, j, id,
                         if !works then Settled(Skipped(why))
                         else if cfg.maxRetries >= 1 then Trying(1)
                         else Settled(GaveUp))
            && states[j + 1].stats == Counted(states[j].stats, works, cfg.maxRetries >= 1)
  {
    assert StepAt(cfg, states, events, j);
    RunKeeps(cfg, states, events, j);
    RunRecords(cfg, states, events, j);
    assert TimerOk(states[j].desk, id);
    CooledTells(cfg, states, events, j, id);
    ChangedTells(cfg, states, events, j, id, states[j].desk.timers[id].cluster);
    FiresAs(cfg, states[j], id);
  }

  /** One more sync is counted: as skipped or as started, and as failed when no attempt is allowed. */
  function Counted(stats: Stats, works: bool, tries: bool): Stats {
    if !works then stats.(skipped := stats.skipped + 1)
    else if tries then stats.(total := stats.total + 1)
    else stats.(total := stats.total + 1, failed := stats.failed + 1)
  }

  /** One firing, in terms of the records. */
  lemma FiresAs(cfg: Config, s: State, id: string)
    requires Wired(s.desk) && id in s.desk.timers && s.desk.timers[id].cluster.id == id && cfg.enabled
    ensures var t, s' := s.desk.timers[id], FireStep(cfg, s, id);
            var cooled := s.now - (if id in s.cache.times then s.cache.times[id] else 0) >= cfg.cooldownMs;
            var same := id in s.cache.hashes && s.cache.hashes[id] == Hash(t.cluster);
            var works := t.force || (cooled && !same);
            && t.owner in s'.desk.flights
            && s'.desk.flights[t.owner] ==
               Flight(t.cluster,
                      if !works then Settled(Skipped(if cooled then NoChange else Cooldown))
                      else if cfg.maxRetries >= 1 then Trying(1)
                      else Settled(GaveUp))
            && s'.stats == Counted(s.stats, works, cfg.maxRetries >= 1)
  {
  }

  /** While syncing is switched off, a timer that fires answers its caller and starts nothing. */
  lemma DisabledAnswers(cfg: Config, states: seq<State>, events: seq<Event>, j: nat, id: string)
    requires Run(cfg, states, events) && j < |events| && events[j] == TimerFires(id) && !cfg.enabled
    ensures id in states[j].desk.timers
    ensures var d, d', me := states[j].desk, states[j + 1].desk, states[j].desk.timers[id].owner;
            && me < |d.calls| == |d'.calls| && d'.calls[me].status == Answered(Skipped(Disabled))
            && d'.flights == d.flights && d'.locks == d.locks && d'.timers == d.timers - {id}
            && states[j + 1].stats == states[j].stats
  {
    assert StepAt(cfg, states, events, j);
  }

  /** A coordinator that never synced `id`, or forgot both records, works on the first call after the cooldown. */
  lemma FirstSyncWorks(cfg: Config, states: seq<State>, events: seq<Event>, j: nat, id: string)
    requires Run(cfg, states, events) && CleanCalls(events) && j < |events| && events[j] == TimerFires(id)
    requires cfg.enabled && cfg.maxRetries >= 1 && states[j].now >= cfg.cooldownMs
    requires forall i: nat | LastSuccess(states, events, i, j, id) :: !HashKept(events, i, j)
    ensures id in states[j].desk.timers && FiresWith(states, events, j, id, Trying(1))
  {
    assert forall i: nat | LastSuccess(states, events, i, j, id) ::
        TimeKept(events, i, j, id) ==> HashKept(events, i, j);
    WorksExactly(cfg, states, events, j, id);
  }

  // ---------------------------------------------------------------------------
  // Which call a timer belongs to
  // ---------------------------------------------------------------------------

  /** A call for `id` that is accepted. */
  predicate CallsFor(e: Event, id: string) {
    && e.SyncCall? && e.cluster.Some? && e.cluster.value.id == id != ""
    && (e.cluster.value.primary.Some? || e.cluster.value.replicas != [])
  }

  lemma TimerStep(cfg: Config, s: State, e: Event, id: string)
    requires Wired(s.desk) && Enabled(s, e)
    ensures var timers := Next(cfg, s, e).desk.timers;
            id in timers ==>
              if CallsFor(e, id) then
                && timers[id].owner == |s.desk.calls| && e == SyncCall(Some(timers[id].cluster), timers[id].force)
                && timers[id].due == s.now + if timers[id].force then 0 else cfg.debounceMs
              else id in s.desk.timers && timers[id] == s.desk.timers[id]
  {
  }

  /**
   Debouncing: a timer belongs to the last accepted call for its cluster, carries that call's topology, and
   is due `debounceMs` after that call, or at once when forced.
   */
  lemma {:induction false} TimerTells(cfg: Config, states: seq<State>, events: seq<Event>, j: nat, id: string)
    returns (i: nat)
    requires Run(cfg, states, events) && j <= |events| && id in states[j].desk.timers
    ensures i < j && forall k | i < k < j :: !CallsFor(events[k], id)
    ensures var t := states[j].desk.timers[id];
            && events[i] == SyncCall(Some(t.cluster), t.force) && t.owner == |states[i].desk.calls|
            && t.due == states[i].now + if t.force then 0 else cfg.debounceMs
  {
    if j == 0 {
      assert false;
    } else {
      assert StepAt(cfg, states, events, j - 1);
      TimerStep(cfg, states[j - 1], events[j - 1], id);
      if CallsFor(events[j - 1], id) {
        i := j - 1;
      } else {
        i := TimerTells(cfg, states, events, j - 1, id);
      }
    }
  }

  /** A sync never starts before its timer is due: the last call for its cluster is `debounceMs` old, or forced. */
  lemma StartsDebounced(cfg: Config, states: seq<State>, events: seq<Event>, j: nat, id: string) returns (i: nat)
    requires Run(cfg, states, events) && j < |events| && events[j] == TimerFires(id)
    ensures i < j && CallsFor(events[i], id) && forall k | i < k < j :: !CallsFor(events[k], id)
    ensures states[j].now - states[i].now >= if events[i].force then 0 else cfg.debounceMs
  {
    assert StepAt(cfg, states, events, j);
    i := TimerTells(cfg, states, events, j, id);
    RunKeeps(cfg, states, events, j);
    assert TimerOk(states[j].desk, id);
  }

  /**
   Where a new caller stands: refused without a cluster that has an id and a member, joined to the running sync of
   its cluster, or alone on a timer of its own.
   */
  lemma CallPlaces(cfg: Config, states: seq<State>, events: seq<Event>, j: nat)
    requires Run(cfg, states, events) && j < |events| && events[j].SyncCall?
    ensures |states[j + 1].desk.calls| == |states[j].desk.calls| + 1
    ensures var d, d', c := states[j].desk, states[j + 1].desk, events[j].cluster;
            var mine := d'.calls[|d.calls|].status;
            if c.None? || c.value.id == "" || (c.value.primary.None? && c.value.replicas == []) then
              mine == Answered(Skipped(InvalidInput)) && d'.timers == d.timers
            else
              && (forall n | n in d.flights && d.flights[n].cluster.id == c.value.id ::
                    mine == OnFlight(n) && d'.timers == d.timers)
              && ((forall n | n in d.flights :: d.flights[n].cluster.id != c.value.id) ==>
                    && mine == OnTimer && c.value.id in d'.timers
                    && d'.timers[c.value.id].owner == |d.calls|)
  {
    assert StepAt(cfg, states, events, j);
    RunKeeps(cfg, states, events, j);
    var d, c := states[j].desk, events[j].cluster;
    assert c.Some? && c.value.id in d.locks ==> LockOk(d, c.value.id);
    assert c.Some? && c.value.id in d.timers ==> TimerOk(d, c.value.id);
    assert forall n | n in d.flights :: FlightOk(cfg.maxRetries, d, n);
  }

  // ---------------------------------------------------------------------------
  // What the callers are told
  // ---------------------------------------------------------------------------

  /** How many of the first `j` events are failed attempts of the sync `n`. */
  function Failures(events: seq<Event>, j: nat, n: nat): nat
    requires j <= |events|
  {
    if j == 0 then 0
    else Failures(events, j - 1, n) + if events[j - 1].AttemptFails? && events[j - 1].owner == n then 1 else 0
  }

  /** One of them is its success with `added` servers. */
  predicate Succeeded(events: seq<Event>, j: nat, n: nat, added: nat)
    requires j <= |events|
  {
    exists i: nat | i < j :: events[i].AttemptSucceeds? && events[i].owner == n && events[i].added == added
  }

  predicate NoSuccess(events: seq<Event>, j: nat, n: nat)
    requires j <= |events|
  {
    forall i: nat | i < j :: !(events[i].AttemptSucceeds? && events[i].owner == n)
  }

  /** The phase of a sync tells its attempts. */
  predicate PhaseTold(cfg: Config, events: seq<Event>, j: nat, n: nat, phase: Phase)
    requires j <= |events|
  {
    match phase
    case Trying(k) => Failures(events, j, n) == k - 1 && NoSuccess(events, j, n)
    case Settled(Success(added)) => Succeeded(events, j, n, added) && Failures(events, j, n) < cfg.maxRetries
    case Settled(GaveUp) =>
      Failures(events, j, n) == (if cfg.maxRetries >= 1 then cfg.maxRetries else 0) && NoSuccess(events, j, n)
    case Settled(Skipped(_)) => Failures(events, j, n) == 0 && NoSuccess(events, j, n)
  }

  /** A sync that is still to come has no attempts, and a running one those its phase tells. */
  ghost predicate Told(cfg: Config, s: State, events: seq<Event>, j: nat, n: nat)
    requires j <= |events|
  {
    && (n in s.desk.flights ==> PhaseTold(cfg, events, j, n, s.desk.flights[n].phase))
    && (n !in s.desk.flights && (n < |s.desk.calls| ==> s.desk.calls[n].status == OnTimer) ==>
          Failures(events, j, n) == 0 && NoSuccess(events, j, n))
  }

  lemma HistoryStep(events: seq<Event>, j: nat, n: nat)
    requires j < |events|
    ensures Failures(events, j + 1, n) ==
            Failures(events, j, n) + if events[j].AttemptFails? && events[j].owner == n then 1 else 0
    ensures NoSuccess(events, j + 1, n) <==>
            NoSuccess(events, j, n) && !(events[j].AttemptSucceeds? && events[j].owner == n)
    ensures forall added :: Succeeded(events, j + 1, n, added) <==>
              || Succeeded(events, j, n, added)
              || (events[j].AttemptSucceeds? && events[j].owner == n && events[j].added == added)
  {
    if events[j].AttemptSucceeds? && events[j].owner == n {
      var last: nat := j;
      assert Succeeded(events, j + 1, n, events[last].added);
    }
  }

  lemma PhaseStays(cfg: Config, events: seq<Event>, j: nat, n: nat, phase: Phase)
    requires j < |events| && PhaseTold(cfg, events, j, n, phase)
    requires (events[j].AttemptFails? || events[j].AttemptSucceeds?) ==> events[j].owner != n
    ensures PhaseTold(cfg, events, j + 1, n, phase)
  {
    HistoryStep(events, j, n);
  }

  lemma AttemptTold(cfg: Config, s: State, events: seq<Event>, j: nat)
    requires j < |events| && (events[j].AttemptFails? || events[j].AttemptSucceeds?)
    requires Inv(cfg, s) && Wired(s.desk) && Enabled(s, events[j])
    requires Told(cfg, s, events, j, events[j].owner)
    ensures Told(cfg, Next(cfg, s, events[j]), events, j + 1, events[j].owner)
  {
    assert FlightOk(cfg.maxRetries, s.desk, events[j].owner);
    HistoryStep(events, j, events[j].owner);
  }

  lemma ToldStep(cfg: Config, s: State, events: seq<Event>, j: nat, n: nat)
    requires j < |events| && Inv(cfg, s) && Wired(s.desk) && Enabled(s, events[j]) && Told(cfg, s, events, j, n)
    ensures Told(cfg, Next(cfg, s, events[j]), events, j + 1, n)
  {
    var e := events[j];
    if (e.AttemptFails? || e.AttemptSucceeds?) && e.owner == n {
      AttemptTold(cfg, s, events, j);
      return;
    }
    assert n in s.desk.flights ==> FlightOk(cfg.maxRetries, s.desk, n);
    assert e.TimerFires? ==> TimerOk(s.desk, e.id);
    HistoryStep(events, j, n);
    if n < |s.desk.calls| {
      StatusAfter(cfg, s, e, n);
    }
    if n in s.desk.flights {
      PhaseStays(cfg, events, j, n, s.desk.flights[n].phase);
    }
  }

  lemma {:induction false} RunTold(cfg: Config, states: seq<State>, events: seq<Event>, j: nat, n: nat)
    requires Run(cfg, states, events) && j <= |events|
    ensures Told(cfg, states[j], events, j, n)
  {
    if j == 0 {
    } else {
      RunTold(cfg, states, events, j - 1, n);
      RunKeeps(cfg, states, events, j - 1);
      assert StepAt(cfg, states, events, j - 1);
      ToldStep(cfg, states[j - 1], events, j - 1, n);
    }
  }

  /**
   When a sync ends, everyone who joined it, and no one else, is told what became of its attempts: success with
   the servers of the attempt that succeeded, giving up after `maxRetries` failures, or a skip without any attempt.
   */
  lemma AnswersTell(cfg: Config, states: seq<State>, events: seq<Event>, j: nat, c: nat)
    requires Run(cfg, states, events) && j < |events| && events[j].ReleaseLock? && c < |states[j].desk.calls|
    ensures c < |states[j + 1].desk.calls|
    ensures var n, was, now := events[j].owner, states[j].desk.calls[c].status, states[j + 1].desk.calls[c].status;
            if was != OnFlight(n) then now == was
            else now.Answered? && PhaseTold(cfg, events, j, n, Settled(now.result))
  {
    assert StepAt(cfg, states, events, j);
    RunTold(cfg, states, events, j, events[j].owner);
  }
}
