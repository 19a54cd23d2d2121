/** What holds of the sync coordinator over whole runs. */
module SyncRuns {
  import opened Text
  import opened Topology
  import opened ServerTable
  import opened TopologyHash
  import opened SyncSteps
  import ProxySql

  /** `states` is what the events make of an initial state, each event enabled where it happens. */
  ghost predicate Run(cfg: Config, states: seq<State>, events: seq<Event>) {
    && cfg.writer != cfg.reader
    && |states| == |events| + 1
    && (exists now, table :: states[0] == Initial(now, table))
    && (forall i | 0 <= i < |events| :: StepAt(cfg, states, events, i))
  }

  ghost predicate StepAt(cfg: Config, states: seq<State>, events: seq<Event>, i: nat)
    requires i < |events| && |states| == |events| + 1
  {
    Wired(states[i].desk) && Enabled(states[i], events[i]) && states[i + 1] == Next(cfg, states[i], events[i])
  }

  lemma {:induction false} RunKeeps(cfg: Config, states: seq<State>, events: seq<Event>, i: nat)
    requires Run(cfg, states, events) && i < |states|
    ensures Inv(cfg, states[i])
  {
    if i > 0 {
      RunKeeps(cfg, states, events, i - 1);
      assert StepAt(cfg, states, events, i - 1);
      StepKeeps(cfg, states[i - 1], events[i - 1]);
    } else {
      assert Underway(states[0].desk.flights) == {};
    }
  }

  // ---------------------------------------------------------------------------
  // Locks, timers and callers
  // ---------------------------------------------------------------------------

  lemma OnlyOneFlight(max: int, d: Desk)
    requires DeskOk(max, d)
    ensures forall m, n | m in d.flights && n in d.flights ::
              d.flights[m].cluster.id == d.flights[n].cluster.id ==> m == n
    ensures d.timers.Keys !! d.locks.Keys
    ensures d.locks.Keys == set n | n in d.flights :: d.flights[n].cluster.id
  {
    assert forall n | n in d.flights :: FlightOk(max, d, n);
    assert forall id | id in d.timers :: TimerOk(d, id);
    forall id | id in d.locks
      ensures id in set n | n in d.flights :: d.flights[n].cluster.id
    {
      assert LockOk(d, id);
    }
  }

  /** No cluster ever has two syncs in flight, nor a live timer beside a lock; locks are the syncs in flight. */
  lemma OneSyncPerCluster(cfg: Config, states: seq<State>, events: seq<Event>, i: nat)
    requires Run(cfg, states, events) && i < |states|
    ensures var d := states[i].desk;
            && (forall m, n | m in d.flights && n in d.flights ::
                  d.flights[m].cluster.id == d.flights[n].cluster.id ==> m == n)
            && d.timers.Keys !! d.locks.Keys
            && d.locks.Keys == set n | n in d.flights :: d.flights[n].cluster.id
  {
    RunKeeps(cfg, states, events, i);
    OnlyOneFlight(cfg.maxRetries, states[i].desk);
  }

  /** Every caller is answered, joined to the running sync, on the live timer, or superseded. */
  lemma EveryCallerPlaced(cfg: Config, states: seq<State>, events: seq<Event>, i: nat, c: nat)
    requires Run(cfg, states, events) && i < |states| && c < |states[i].desk.calls|
    ensures CallOk(states[i].desk, c)
  {
    RunKeeps(cfg, states, events, i);
  }

  /** How one step may change where a caller stands. */
  predicate Moves(e: Event, id: string, was: Status, now: Status) {
    || now == was
    || (was.OnTimer? && now.Superseded? && e.SyncCall? && ValidCluster(e.cluster) && e.cluster.value.id == id)
    || (was.OnTimer? && (now.OnFlight? || now.Answered?) && e.TimerFires? && e.id == id)
    || (was.OnFlight? && now.Answered? && e == ReleaseLock(was.owner))
  }

  lemma StatusAfter(cfg: Config, s: State, e: Event, c: nat)
    requires Inv(cfg, s) && Wired(s.desk) && Enabled(s, e) && c < |s.desk.calls|
    ensures var calls := Next(cfg, s, e).desk.calls;
            && c < |calls| && calls[c].id == s.desk.calls[c].id
            && Moves(e, calls[c].id, s.desk.calls[c].status, calls[c].status)
  {
    match e {
      case SyncCall(cl, force) =>
        CallAfterCall(cfg.maxRetries, s.desk, cl, force, s.now + if force then 0 else cfg.debounceMs, c);
      case TimerFires(id) => assert TimerOk(s.desk, id);
      case _ =>
    }
  }

  /** A caller is superseded exactly by a valid call for its cluster while it waits for the timer. */
  lemma SupersededWhen(cfg: Config, s: State, e: Event, c: nat)
    requires Inv(cfg, s) && Wired(s.desk) && Enabled(s, e) && c < |s.desk.calls|
    requires !s.desk.calls[c].status.Superseded?
    ensures c < |Next(cfg, s, e).desk.calls|
    ensures Next(cfg, s, e).desk.calls[c].status.Superseded? <==>
            && s.desk.calls[c].status.OnTimer? && e.SyncCall?
            && ValidCluster(e.cluster) && e.cluster.value.id == s.desk.calls[c].id
  {
    StatusAfter(cfg, s, e, c);
    if e.SyncCall? {
      CallAfterCall(cfg.maxRetries, s.desk, e.cluster, e.force, s.now + if e.force then 0 else cfg.debounceMs, c);
    }
  }

  /**
   An answer never changes, and a superseded caller is never answered however the run goes on: "every
   caller is answered" fails for the callers whose timer a later call cleared.
   */
  lemma {:induction false} VerdictsAreFinal(cfg: Config, states: seq<State>, events: seq<Event>, i: nat, j: nat, c: nat)
    requires Run(cfg, states, events) && i <= j < |states| && c < |states[i].desk.calls|
    requires states[i].desk.calls[c].status.Answered? || states[i].desk.calls[c].status.Superseded?
    ensures c < |states[j].desk.calls| && states[j].desk.calls[c] == states[i].desk.calls[c]
  {
    if i == j {
    } else {
      VerdictsAreFinal(cfg, states, events, i, j - 1, c);
      RunKeeps(cfg, states, events, j - 1);
      assert StepAt(cfg, states, events, j - 1);
      StatusAfter(cfg, states[j - 1], events[j - 1], c);
    }
  }

  /** With nothing in flight or on a timer, everyone is answered except the superseded. */
  lemma AllAnsweredWhenIdle(cfg: Config, states: seq<State>, events: seq<Event>, i: nat, c: nat)
    requires Run(cfg, states, events) && i < |states| && c < |states[i].desk.calls|
    requires states[i].desk.timers == map[] && states[i].desk.flights == map[]
    ensures states[i].desk.calls[c].status.Answered? || states[i].desk.calls[c].status.Superseded?
  {
    EveryCallerPlaced(cfg, states, events, i, c);
  }

  // ---------------------------------------------------------------------------
  // Counters and spacing
  // ---------------------------------------------------------------------------

  /** Syncs past the skip checks succeeded, failed or are still trying; none exceeds its attempts. */
  lemma CountersBalance(cfg: Config, states: seq<State>, events: seq<Event>, i: nat)
    requires Run(cfg, states, events) && i < |states|
    ensures states[i].stats.total ==
            states[i].stats.succeeded + states[i].stats.failed + |Underway(states[i].desk.flights)|
    ensures forall n | n in Underway(states[i].desk.flights) ::
              1 <= states[i].desk.flights[n].phase.attempt <= cfg.maxRetries
  {
    RunKeeps(cfg, states, events, i);
    assert forall n | n in states[i].desk.flights :: FlightOk(cfg.maxRetries, states[i].desk, n);
  }

  /** The step forgets when the cluster was last synced. */
  predicate Forgets(e: Event, id: string) {
    e.ClearCache? || (e.ResetCooldown? && e.id == id)
  }

  lemma StepMovesTime(cfg: Config, s: State, e: Event, id: string)
    requires Wired(s.desk) && Enabled(s, e) && !Forgets(e, id)
    ensures Next(cfg, s, e).now >= s.now
    ensures id in s.cache.times ==>
              && id in Next(cfg, s, e).cache.times
              && (Next(cfg, s, e).cache.times[id] == s.cache.times[id] || Next(cfg, s, e).cache.times[id] == s.now)
  {
  }

  lemma SuccessSetsTime(cfg: Config, s: State, owner: nat, added: nat, damage: Damage)
    requires TryingAt(s.desk, owner)
    ensures var id, s' := s.desk.flights[owner].cluster.id, SucceedStep(cfg, s, owner, added, damage);
            s'.now == s.now && id in s'.cache.times && s'.cache.times[id] == s.now
  {
  }

  lemma TimeMovesAt(cfg: Config, states: seq<State>, events: seq<Event>, i: nat, id: string)
    requires Run(cfg, states, events) && i < |events| && !Forgets(events[i], id)
    ensures states[i + 1].now >= states[i].now
    ensures id in states[i].cache.times ==>
              && id in states[i + 1].cache.times
              && states[i + 1].cache.times[id] in {states[i].cache.times[id], states[i].now}
  {
    assert StepAt(cfg, states, events, i);
    StepMovesTime(cfg, states[i], events[i], id);
  }

  /** At step `i` of the run a sync of cluster `id` succeeds. */
  ghost predicate SucceedsAt(states: seq<State>, events: seq<Event>, i: nat, id: string)
    requires i < |events| && |states| == |events| + 1
  {
    && events[i].AttemptSucceeds? && events[i].owner in states[i].desk.flights
    && states[i].desk.flights[events[i].owner].cluster.id == id
  }

  lemma SuccessAtSetsTime(cfg: Config, states: seq<State>, events: seq<Event>, i: nat, id: string)
    requires Run(cfg, states, events) && i < |events| && SucceedsAt(states, events, i, id)
    ensures states[i + 1].now == states[i].now
    ensures id in states[i + 1].cache.times && states[i + 1].cache.times[id] == states[i].now
  {
    assert StepAt(cfg, states, events, i);
    SuccessSetsTime(cfg, states[i], events[i].owner, events[i].added, events[i].damage);
    assert states[i + 1] == SucceedStep(cfg, states[i], events[i].owner, events[i].added, events[i].damage);
  }

  /** A recorded time never falls behind `since` again unless it is forgotten. */
  lemma {:induction false} RecordedTimeHolds(cfg: Config, states: seq<State>, events: seq<Event>, i: nat, k: nat,
                                             id: string, since: int)
    requires Run(cfg, states, events) && i <= k < |states|
    requires id in states[i].cache.times && since <= states[i].cache.times[id] && since <= states[i].now
    requires forall j | i <= j < k :: !Forgets(events[j], id)
    ensures since <= states[k].now
    ensures id in states[k].cache.times && since <= states[k].cache.times[id]
  {
    if i == k {
    } else {
      RecordedTimeHolds(cfg, states, events, i, k - 1, id, since);
      TimeMovesAt(cfg, states, events, k - 1, id);
    }
  }

  /** At step `j` of the run the timer of `id` fires, unforced, and the sync gets past the skip checks. */
  ghost predicate WorksAt(states: seq<State>, events: seq<Event>, j: nat, id: string)
    requires j < |events| && |states| == |events| + 1
  {
    && events[j] == TimerFires(id) && id in states[j].desk.timers && !states[j].desk.timers[id].force
    && states[j + 1].stats.total > states[j].stats.total
  }

  lemma WorkPassedCooldown(cfg: Config, s: State, id: string)
    requires Wired(s.desk) && id in s.desk.timers && TimerOk(s.desk, id) && !s.desk.timers[id].force
    requires FireStep(cfg, s, id).stats.total > s.stats.total
    ensures s.now - LastSync(s.cache.times, id) >= cfg.cooldownMs
  {
  }

  lemma WorkAtPassedCooldown(cfg: Config, states: seq<State>, events: seq<Event>, j: nat, id: string)
    requires Run(cfg, states, events) && j < |events| && WorksAt(states, events, j, id)
    ensures states[j].now - LastSync(states[j].cache.times, id) >= cfg.cooldownMs
  {
    RunKeeps(cfg, states, events, j);
    assert TimerOk(states[j].desk, id);
    assert StepAt(cfg, states, events, j);
    assert states[j + 1] == FireStep(cfg, states[j], id);
    WorkPassedCooldown(cfg, states[j], id);
  }

  /**
   Between a success and the next unforced sync of the same cluster that does work lie at least
   `cooldownMs`, unless the time was forgotten in between.
   */
  lemma SyncsAreSpaced(cfg: Config, states: seq<State>, events: seq<Event>, i: nat, j: nat, id: string)
    requires Run(cfg, states, events) && i < j < |events|
    requires SucceedsAt(states, events, i, id) && WorksAt(states, events, j, id)
    requires forall k | i < k < j :: !Forgets(events[k], id)
    ensures states[j].now - states[i].now >= cfg.cooldownMs
  {
    SuccessAtSetsTime(cfg, states, events, i, id);
    RecordedTimeHolds(cfg, states, events, i + 1, j, id, states[i].now);
    WorkAtPassedCooldown(cfg, states, events, j, id);
  }

  // ---------------------------------------------------------------------------
  // Skipping as `no_change`
  // ---------------------------------------------------------------------------

  /** Every cluster handed to `sync` has a clean id and clean hosts. */
  predicate CleanCalls(events: seq<Event>) {
    forall i | 0 <= i < |events| && events[i].SyncCall? && events[i].cluster.Some? :: Clean(events[i].cluster.value)
  }

  /** Recorded hashes are the hashes of the recorded clusters. */
  predicate Faithful(cache: Cache) {
    && cache.clusters.Keys == cache.hashes.Keys
    && (forall id | id in cache.clusters ::
          && cache.clusters[id].id == id && Clean(cache.clusters[id])
          && cache.hashes[id] == Hash(cache.clusters[id]))
  }

  predicate CleanDesk(d: Desk) {
    && (forall id | id in d.timers :: Clean(d.timers[id].cluster))
    && (forall n | n in d.flights :: Clean(d.flights[n].cluster))
  }

  predicate UpToDateOn(cfg: Config, t: Table, c: Cluster) {
    Synced(t, c, cfg.writer, cfg.reader) == t
  }

  /** Nothing would change if the cluster were synced. */
  predicate UpToDate(cfg: Config, s: State, c: Cluster) {
    UpToDateOn(cfg, s.board.table, c)
  }

  /** The table is what an attempt last wrote it to be. */
  predicate Tracks(cfg: Config, b: Board) {
    b.wrote.Some? ==> UpToDateOn(cfg, b.table, b.wrote.value)
  }

  lemma CallStaysClean(d: Desk, c: Option<Cluster>, force: bool, due: int)
    requires Wired(d) && CleanDesk(d) && (c.Some? ==> Clean(c.value))
    ensures CleanDesk(CallDesk(d, c, force, due))
  {
  }

  lemma StepStaysClean(cfg: Config, s: State, e: Event)
    requires Wired(s.desk) && Enabled(s, e) && CleanDesk(s.desk)
    requires e.SyncCall? && e.cluster.Some? ==> Clean(e.cluster.value)
    ensures CleanDesk(Next(cfg, s, e).desk)
  {
    if e.SyncCall? {
      CallStaysClean(s.desk, e.cluster, e.force, s.now + if e.force then 0 else cfg.debounceMs);
    }
  }

  lemma StepStaysFaithful(cfg: Config, s: State, e: Event)
    requires Wired(s.desk) && Enabled(s, e) && CleanDesk(s.desk) && Faithful(s.cache)
    ensures Faithful(Next(cfg, s, e).cache)
  {
  }

  lemma DamageTracks(cfg: Config, b: Board, c: Cluster, damage: Damage)
    requires cfg.writer != cfg.reader && Tracks(cfg, b)
    ensures Tracks(cfg, Damaged(cfg, b, c, damage))
  {
    SyncIdempotent(b.table, c, c, cfg.writer, cfg.reader);
  }

  lemma StepTracks(cfg: Config, s: State, e: Event)
    requires cfg.writer != cfg.reader && Tracks(cfg, s.board)
    requires Wired(s.desk) && Enabled(s, e)
    ensures Tracks(cfg, Next(cfg, s, e).board)
  {
    match e {
      case AttemptFails(n, damage) => DamageTracks(cfg, s.board, s.desk.flights[n].cluster, damage);
      case AttemptSucceeds(n, _, damage) => DamageTracks(cfg, s.board, s.desk.flights[n].cluster, damage);
      case _ =>
    }
  }

  lemma {:induction false} RunRecords(cfg: Config, states: seq<State>, events: seq<Event>, i: nat)
    requires Run(cfg, states, events) && CleanCalls(events) && i < |states|
    ensures CleanDesk(states[i].desk) && Faithful(states[i].cache) && Tracks(cfg, states[i].board)
  {
    if i == 0 {
    } else {
      RunRecords(cfg, states, events, i - 1);
      assert StepAt(cfg, states, events, i - 1);
      StepStaysClean(cfg, states[i - 1], events[i - 1]);
      StepStaysFaithful(cfg, states[i - 1], events[i - 1]);
      StepTracks(cfg, states[i - 1], events[i - 1]);
    }
  }

  /** The timer that fires is skipped because the hash is the recorded one. */
  ghost predicate SkipsAsUnchanged(cfg: Config, s: State, e: Event) {
    && e.TimerFires? && Enabled(s, e) && cfg.enabled
    && SkipCheck(cfg, s.cache, s.now, s.desk.timers[e.id].cluster, s.desk.timers[e.id].force) == Some(NoChange)
  }

  /**
   The hash is a faithful cache key: a skipped topology needs no sync exactly when the topology whose
   success was recorded still needs none.
   */
  lemma SkipTrustsRecord(cfg: Config, states: seq<State>, events: seq<Event>, i: nat)
    requires Run(cfg, states, events) && CleanCalls(events) && i < |events|
    ensures SkipsAsUnchanged(cfg, states[i], events[i]) ==>
              && events[i].id in states[i].cache.clusters
              && (UpToDate(cfg, states[i], states[i].desk.timers[events[i].id].cluster) <==>
                  UpToDate(cfg, states[i], states[i].cache.clusters[events[i].id]))
  {
    if SkipsAsUnchanged(cfg, states[i], events[i]) {
      var s, id := states[i], events[i].id;
      RunRecords(cfg, states, events, i);
      RunKeeps(cfg, states, events, i);
      assert TimerOk(s.desk, id);
      HashFixesRouting(s.desk.timers[id].cluster, s.cache.clusters[id]);
      SyncIdempotent(s.board.table, s.desk.timers[id].cluster, s.cache.clusters[id], cfg.writer, cfg.reader);
    }
  }

  /**
   In terms of the topology the table was last written for: it must place the same keys. It differs from the
   recorded one after a failed attempt that had already rewritten the rows, or after another cluster was
   synced into the same hostgroups.
   */
  lemma SkipTrustsWriter(cfg: Config, states: seq<State>, events: seq<Event>, i: nat)
    requires Run(cfg, states, events) && CleanCalls(events) && i < |events|
    ensures
      SkipsAsUnchanged(cfg, states[i], events[i]) && states[i].board.wrote.Some? ==>
        var b, c := states[i].board, states[i].desk.timers[events[i].id].cluster;
        && (UpToDate(cfg, states[i], c) <==>
            && Wanted(b.wrote.value, cfg.writer, cfg.reader) == Wanted(c, cfg.writer, cfg.reader)
            && RewritesNothing(b.table, c, cfg.reader))
        && (SameRouting(b.wrote.value, c) ==> UpToDate(cfg, states[i], c))
  {
    var b := states[i].board;
    RunRecords(cfg, states, events, i);
    if SkipsAsUnchanged(cfg, states[i], events[i]) && b.wrote.Some? {
      var c := states[i].desk.timers[events[i].id].cluster;
      FixedPointExactly(b.table, b.wrote.value, c, cfg.writer, cfg.reader);
      if SameRouting(b.wrote.value, c) {
        SyncIdempotent(b.table, b.wrote.value, c, cfg.writer, cfg.reader);
      }
    }
  }

  /** The step records nothing and leaves the table alone. */
  predicate Passive(e: Event) {
    !e.AttemptSucceeds? && (e.AttemptFails? ==> e.damage.Untouched?)
  }

  lemma PassiveStep(cfg: Config, s: State, e: Event, id: string)
    requires Wired(s.desk) && Enabled(s, e) && Passive(e)
    ensures Next(cfg, s, e).board == s.board
    ensures var hashes := Next(cfg, s, e).cache.hashes;
            id in hashes ==> id in s.cache.hashes && hashes[id] == s.cache.hashes[id]
  {
  }

  lemma {:induction false} PassiveRun(cfg: Config, states: seq<State>, events: seq<Event>, j: nat, i: nat, id: string)
    requires Run(cfg, states, events) && j <= i < |states| && forall k | j <= k < i :: Passive(events[k])
    ensures states[i].board == states[j].board
    ensures id in states[i].cache.hashes ==>
              id in states[j].cache.hashes && states[i].cache.hashes[id] == states[j].cache.hashes[id]
  {
    if i == j {
    } else {
      PassiveRun(cfg, states, events, j, i - 1, id);
      assert StepAt(cfg, states, events, i - 1);
      PassiveStep(cfg, states[i - 1], events[i - 1], id);
    }
  }

  lemma SuccessAtSetsHash(cfg: Config, states: seq<State>, events: seq<Event>, j: nat, id: string)
    requires Run(cfg, states, events) && CleanCalls(events) && j < |events| && SucceedsAt(states, events, j, id)
    ensures var d := states[j].desk.flights[events[j].owner].cluster;
            Clean(d) && id in states[j + 1].cache.hashes && states[j + 1].cache.hashes[id] == Hash(d)
  {
    RunRecords(cfg, states, events, j);
    assert StepAt(cfg, states, events, j);
    assert states[j + 1] == SucceedStep(cfg, states[j], events[j].owner, events[j].added, events[j].damage);
  }

  /** What the success at step `j` recorded is what a later skip trusts: both topologies route alike. */
  lemma SkipSeesSuccess(cfg: Config, states: seq<State>, events: seq<Event>, j: nat, i: nat)
    requires Run(cfg, states, events) && CleanCalls(events) && j < i < |events|
    requires SkipsAsUnchanged(cfg, states[i], events[i]) && SucceedsAt(states, events, j, events[i].id)
    requires forall k | j < k < i :: Passive(events[k])
    ensures SameRouting(states[j].desk.flights[events[j].owner].cluster, states[i].desk.timers[events[i].id].cluster)
  {
    var id := events[i].id;
    SuccessAtSetsHash(cfg, states, events, j, id);
    PassiveRun(cfg, states, events, j + 1, i, id);
    RunKeeps(cfg, states, events, i);
    RunRecords(cfg, states, events, i);
    assert TimerOk(states[i].desk, id);
    HashFixesRouting(states[j].desk.flights[events[j].owner].cluster, states[i].desk.timers[id].cluster);
  }

  /** At step `j` an attempt for `d` read `rows`, lost `lost` and left what the other statements make of the table. */
  ghost predicate AttemptAt(cfg: Config, states: seq<State>, events: seq<Event>, j: nat, d: Cluster,
                            rows: seq<ProxySql.Server>, lost: ProxySql.Lost)
    requires j < |events| && |states| == |events| + 1
  {
    && (events[j].AttemptFails? || events[j].AttemptSucceeds?)
    && events[j].owner in states[j].desk.flights && states[j].desk.flights[events[j].owner].cluster == d
    && states[j + 1].board.table == ProxySql.Outcome(states[j].board.table, rows, d, cfg.writer, cfg.reader, lost)
  }

  /** Step `i` is skipped after an attempt for the same servers at step `j`, with nothing written in between. */
  ghost predicate SkipFollows(cfg: Config, states: seq<State>, events: seq<Event>, j: nat, i: nat, d: Cluster)
    requires j < i < |events| && |states| == |events| + 1
  {
    && SkipsAsUnchanged(cfg, states[i], events[i])
    && (SucceedsAt(states, events, j, events[i].id) || SameRouting(d, states[i].desk.timers[events[i].id].cluster))
    && (forall k | j < k < i :: Passive(events[k]))
  }

  /**
   In terms of the statements: after the success that recorded the hash, or a later failure for the same servers,
   the skip is sound exactly when every statement that this attempt needed ran.
   */
  lemma SkipTrustsStatements(cfg: Config, states: seq<State>, events: seq<Event>, j: nat, i: nat, d: Cluster,
                             rows: seq<ProxySql.Server>, lost: ProxySql.Lost)
    requires Run(cfg, states, events) && CleanCalls(events) && j < i < |events|
    ensures
      AttemptAt(cfg, states, events, j, d, rows, lost) && SkipFollows(cfg, states, events, j, i, d) ==>
        (UpToDate(cfg, states[i], states[i].desk.timers[events[i].id].cluster) <==>
         && ProxySql.NeededRan(states[j].board.table, rows, d, cfg.writer, cfg.reader, lost)
         && ProxySql.RewriteRan(states[j].board.table, d, cfg.reader, lost))
  {
    if AttemptAt(cfg, states, events, j, d, rows, lost) && SkipFollows(cfg, states, events, j, i, d) {
      var c := SkipSeesAttempt(cfg, states, events, j, i, d, rows, lost);
      BoardStays(cfg, states, events, j, i);
      StatementsDecide(cfg, states[j].board.table, rows, d, lost, c);
    }
  }

  lemma BoardStays(cfg: Config, states: seq<State>, events: seq<Event>, j: nat, i: nat)
    requires Run(cfg, states, events) && j < i < |events| && forall k | j < k < i :: Passive(events[k])
    ensures states[i].board == states[j + 1].board
  {
    PassiveRun(cfg, states, events, j + 1, i, "");
  }

  lemma SkipSeesAttempt(cfg: Config, states: seq<State>, events: seq<Event>, j: nat, i: nat, d: Cluster,
                        rows: seq<ProxySql.Server>, lost: ProxySql.Lost)
    returns (c: Cluster)
    requires Run(cfg, states, events) && CleanCalls(events) && j < i < |events|
    ensures
      AttemptAt(cfg, states, events, j, d, rows, lost) && SkipFollows(cfg, states, events, j, i, d) ==>
        c == states[i].desk.timers[events[i].id].cluster && SameRouting(d, c)
  {
    c := d;
    if AttemptAt(cfg, states, events, j, d, rows, lost) && SkipFollows(cfg, states, events, j, i, d) {
      c := states[i].desk.timers[events[i].id].cluster;
      if !SameRouting(d, c) {
        SkipSeesSuccess(cfg, states, events, j, i);
      }
    }
  }

  lemma StatementsDecide(cfg: Config, t: Table, rows: seq<ProxySql.Server>, d: Cluster, lost: ProxySql.Lost, c: Cluster)
    requires cfg.writer != cfg.reader && SameRouting(d, c)
    ensures UpToDateOn(cfg, ProxySql.Outcome(t, rows, d, cfg.writer, cfg.reader, lost), c) <==>
            && ProxySql.NeededRan(t, rows, d, cfg.writer, cfg.reader, lost)
            && ProxySql.RewriteRan(t, d, cfg.reader, lost)
  {
    SyncIdempotent(ProxySql.Outcome(t, rows, d, cfg.writer, cfg.reader, lost), d, c, cfg.writer, cfg.reader);
    ProxySql.SettlesExactly(t, rows, d, cfg.writer, cfg.reader, lost);
  }

  /** All calls are for one cluster, failed attempts leave the table alone, and successful ones lost no statement. */
  ghost predicate Quiet(events: seq<Event>, id: string) {
    && (forall i | 0 <= i < |events| && events[i].SyncCall? && ValidCluster(events[i].cluster) ::
          events[i].cluster.value.id == id)
    && (forall i | 0 <= i < |events| && events[i].AttemptFails? :: events[i].damage.Untouched?)
    && (forall i | 0 <= i < |events| && events[i].AttemptSucceeds? :: events[i].damage.Rewritten?)
  }

  /** Timers and flights are all for one cluster. */
  predicate Solo(d: Desk, id: string) {
    && (forall other | other in d.timers :: other == id)
    && (forall n | n in d.flights :: d.flights[n].cluster.id == id)
  }

  /** Whatever is recorded for the cluster is what the table holds. */
  predicate Agrees(cfg: Config, cache: Cache, t: Table, id: string) {
    id in cache.clusters ==> UpToDateOn(cfg, t, cache.clusters[id])
  }

  lemma StepStaysSolo(cfg: Config, s: State, e: Event, id: string)
    requires Wired(s.desk) && Enabled(s, e) && Solo(s.desk, id)
    requires e.TimerFires? ==> TimerOk(s.desk, e.id)
    requires e.SyncCall? && ValidCluster(e.cluster) ==> e.cluster.value.id == id
    ensures Solo(Next(cfg, s, e).desk, id)
  {
  }

  lemma StepAgrees(cfg: Config, s: State, e: Event, id: string)
    requires cfg.writer != cfg.reader
    requires Wired(s.desk) && Enabled(s, e) && Solo(s.desk, id) && Agrees(cfg, s.cache, s.board.table, id)
    requires e.AttemptFails? ==> e.damage.Untouched?
    requires e.AttemptSucceeds? ==> e.damage.Rewritten?
    ensures Agrees(cfg, Next(cfg, s, e).cache, Next(cfg, s, e).board.table, id)
  {
    if e.AttemptSucceeds? {
      var c := s.desk.flights[e.owner].cluster;
      SyncIdempotent(s.board.table, c, c, cfg.writer, cfg.reader);
    }
  }

  lemma {:induction false} QuietRunAgrees(cfg: Config, states: seq<State>, events: seq<Event>, id: string, i: nat)
    requires Run(cfg, states, events) && Quiet(events, id) && i < |states|
    ensures Solo(states[i].desk, id) && Agrees(cfg, states[i].cache, states[i].board.table, id)
  {
    if i == 0 {
    } else {
      QuietRunAgrees(cfg, states, events, id, i - 1);
      RunKeeps(cfg, states, events, i - 1);
      assert StepAt(cfg, states, events, i - 1);
      assert events[i - 1].TimerFires? ==> TimerOk(states[i - 1].desk, events[i - 1].id);
      StepStaysSolo(cfg, states[i - 1], events[i - 1], id);
      StepAgrees(cfg, states[i - 1], events[i - 1], id);
    }
  }

  /** In quiet runs every `no_change` skip is sound: the sync it saves would change nothing. */
  lemma QuietSkipsAreSound(cfg: Config, states: seq<State>, events: seq<Event>, id: string, i: nat)
    requires Run(cfg, states, events) && CleanCalls(events) && Quiet(events, id) && i < |events|
    requires SkipsAsUnchanged(cfg, states[i], events[i])
    ensures UpToDate(cfg, states[i], states[i].desk.timers[events[i].id].cluster)
  {
    QuietRunAgrees(cfg, states, events, id, i);
    SkipTrustsRecord(cfg, states, events, i);
  }

  /** ... and the hostgroups hold the rows of every topology with the recorded hash, whatever they held at first. */
  lemma QuietRecordsAreRows(cfg: Config, states: seq<State>, events: seq<Event>, id: string, i: nat, c: Cluster)
    requires Run(cfg, states, events) && CleanCalls(events) && Quiet(events, id) && i < |states|
    requires id in states[i].cache.hashes && states[i].cache.hashes[id] == Hash(c) && Clean(c)
    ensures UpToDate(cfg, states[i], c)
    ensures Members(states[i].board.table, cfg.writer) == PrimaryAddrs(c) - ReplicaAddrs(c.replicas)
    ensures Members(states[i].board.table, cfg.reader) == ReplicaAddrs(c.replicas)
  {
    QuietRunAgrees(cfg, states, events, id, i);
    RunRecords(cfg, states, events, i);
    HashFixesRouting(c, states[i].cache.clusters[id]);
    SyncIdempotent(states[i].board.table, c, states[i].cache.clusters[id], cfg.writer, cfg.reader);
    SyncOutcome(states[i].board.table, c, cfg.writer, cfg.reader);
  }

  // ---------------------------------------------------------------------------
  // A skip that is not sound
  // ---------------------------------------------------------------------------

  ghost predicate Idle(cfg: Config, states: seq<State>, events: seq<Event>) {
    && Run(cfg, states, events) && CleanCalls(events)
    && var d := states[|events|].desk;
       d.timers == map[] && d.locks == map[] && d.flights == map[]
  }

  lemma Extend(cfg: Config, states: seq<State>, events: seq<Event>, e: Event) returns (longer: seq<State>)
    requires Run(cfg, states, events) && CleanCalls(events)
    requires e.SyncCall? && e.cluster.Some? ==> Clean(e.cluster.value)
    requires Enabled(states[|events|], e)
    ensures Wired(states[|events|].desk)
    ensures longer == states + [Next(cfg, states[|events|], e)]
    ensures Run(cfg, longer, events + [e]) && CleanCalls(events + [e])
  {
    RunKeeps(cfg, states, events, |events|);
    Wires(cfg.maxRetries, states[|events|].desk);
    longer := states + [Next(cfg, states[|events|], e)];
    var more := events + [e];
    forall i | 0 <= i < |more|
      ensures StepAt(cfg, longer, more, i)
    {
      if i < |events| {
        assert StepAt(cfg, states, events, i);
      }
    }
    assert longer[0] == states[0];
  }

  /** A forced call whose timer fires at once: the sync starts its first attempt. */
  lemma StartForced(cfg: Config, states: seq<State>, events: seq<Event>, c: Cluster)
    returns (states': seq<State>, events': seq<Event>)
    requires Idle(cfg, states, events) && cfg.enabled && cfg.maxRetries >= 1
    requires Clean(c) && ValidCluster(Some(c))
    ensures Run(cfg, states', events') && CleanCalls(events') && states'[0] == states[0]
    ensures var s, s', me := states[|events|], states'[|events'|], |states[|events|].desk.calls|;
            && s'.now == s.now && s'.cache == s.cache && s'.board == s.board
            && s'.desk.timers == map[] && s'.desk.locks == map[c.id := me]
            && s'.desk.flights == map[me := Flight(c, Trying(1))]
  {
    states' := Extend(cfg, states, events, SyncCall(Some(c), true));
    events' := events + [SyncCall(Some(c), true)];
    states' := Extend(cfg, states', events', TimerFires(c.id));
    events' := events' + [TimerFires(c.id)];
  }

  /** A forced sync that succeeds. */
  lemma SyncForced(cfg: Config, states: seq<State>, events: seq<Event>, c: Cluster, damage: Damage)
    returns (states': seq<State>, events': seq<Event>)
    requires Idle(cfg, states, events) && cfg.enabled && cfg.maxRetries >= 1
    requires Clean(c) && ValidCluster(Some(c))
    ensures Idle(cfg, states', events') && states'[0] == states[0]
    ensures var s, s' := states[|events|], states'[|events'|];
            && s'.now == s.now && s'.cache == Remember(s.cache, c, s.now)
            && s'.board == Damaged(cfg, s.board, c, damage)
  {
    var me := |states[|events|].desk.calls|;
    states', events' := StartForced(cfg, states, events, c);
    states' := Extend(cfg, states', events', AttemptSucceeds(me, 0, damage));
    events' := events' + [AttemptSucceeds(me, 0, damage)];
    states' := Extend(cfg, states', events', ReleaseLock(me));
    events' := events' + [ReleaseLock(me)];
  }

  /** A forced sync whose two attempts both rewrite the rows and fail afterwards. */
  lemma FailForced(cfg: Config, states: seq<State>, events: seq<Event>, c: Cluster)
    returns (states': seq<State>, events': seq<Event>)
    requires Idle(cfg, states, events) && cfg.enabled && cfg.maxRetries == 2
    requires Clean(c) && ValidCluster(Some(c))
    ensures Idle(cfg, states', events') && states'[0] == states[0]
    ensures var s, s' := states[|events|], states'[|events'|];
            && s'.now == s.now && s'.cache == s.cache
            && s'.board == Damaged(cfg, Damaged(cfg, s.board, c, Rewritten), c, Rewritten)
  {
    var me := |states[|events|].desk.calls|;
    states', events' := StartForced(cfg, states, events, c);
    states' := Extend(cfg, states', events', AttemptFails(me, Rewritten));
    events' := events' + [AttemptFails(me, Rewritten)];
    states' := Extend(cfg, states', events', AttemptFails(me, Rewritten));
    events' := events' + [AttemptFails(me, Rewritten)];
    states' := Extend(cfg, states', events', ReleaseLock(me));
    events' := events' + [ReleaseLock(me)];
  }

  /** An unforced call after which the clock runs past cooldown and debounce: its timer is due. */
  lemma CallAndWait(cfg: Config, states: seq<State>, events: seq<Event>, c: Cluster)
    returns (states': seq<State>, events': seq<Event>)
    requires Idle(cfg, states, events) && cfg.debounceMs <= 6000 && Clean(c) && ValidCluster(Some(c))
    ensures Run(cfg, states', events') && CleanCalls(events') && states'[0] == states[0]
    ensures var s, s' := states[|events|], states'[|events'|];
            && s'.now == s.now + 6000 && s'.cache == s.cache && s'.board == s.board
            && s'.desk.timers == map[c.id := Timer(|s.desk.calls|, c, false, s.now + cfg.debounceMs)]
  {
    states' := Extend(cfg, states, events, SyncCall(Some(c), false));
    events' := events + [SyncCall(Some(c), false)];
    states' := Extend(cfg, states', events', Tick(6000));
    events' := events' + [Tick(6000)];
  }

  /**
   With the default settings and any two topologies of one cluster: sync the first, let the sync of the second
   fail after it rewrote the rows, and the next unforced sync of the first is skipped as unchanged. The table
   then holds the rows of the second: the skip is sound only when both place the same keys.
   */
  lemma StaleSkipHappens(table: Table, c: Cluster, d: Cluster) returns (states: seq<State>, events: seq<Event>)
    requires Clean(c) && ValidCluster(Some(c)) && Clean(d) && ValidCluster(Some(d)) && c.id == d.id
    ensures var cfg := Config(5000, 1000, 2, true, 10, 20);
            && Run(cfg, states, events) && CleanCalls(events)
            && states[0] == Initial(0, table)
            && SkipsAsUnchanged(cfg, states[|events|], TimerFires(c.id))
            && states[|events|].desk.timers[c.id].cluster == c
            && (UpToDate(cfg, states[|events|], c) <==> Wanted(c, 10, 20) == Wanted(d, 10, 20))
  {
    var cfg := Config(5000, 1000, 2, true, 10, 20);
    states, events := [Initial(0, table)], [];
    assert Idle(cfg, states, events);
    var ss, es := SyncForced(cfg, states, events, c, Rewritten);
    var ss', es' := FailForced(cfg, ss, es, d);
    states, events := CallAndWait(cfg, ss', es', c);
    TwiceRewritten(cfg, table, ss[|es|].board, c, d);
    assert states[|events|].board == ss'[|es'|].board;
    SeenAsUnchanged(cfg, states[|events|], c, 0);
  }

  lemma SeenAsUnchanged(cfg: Config, s: State, c: Cluster, since: int)
    requires cfg.enabled && s.now - since >= cfg.cooldownMs
    requires c.id in s.desk.timers && s.desk.timers[c.id].due <= s.now
    requires s.desk.timers[c.id].cluster == c && !s.desk.timers[c.id].force
    requires c.id in s.cache.times && s.cache.times[c.id] == since
    requires c.id in s.cache.hashes && s.cache.hashes[c.id] == Hash(c)
    ensures SkipsAsUnchanged(cfg, s, TimerFires(c.id))
  {
  }

  /**
   A success that lost statements is recorded all the same: whatever it read and lost, the next unforced sync
   of the same topology is skipped as unchanged, wrongly so unless every statement that was needed ran.
   */
  lemma SwallowedSkipHappens(table: Table, c: Cluster, rows: seq<ProxySql.Server>, lost: ProxySql.Lost)
    returns (states: seq<State>, events: seq<Event>)
    requires Clean(c) && ValidCluster(Some(c))
    ensures var cfg := Config(5000, 1000, 2, true, 10, 20);
            && Run(cfg, states, events) && CleanCalls(events) && states[0] == Initial(0, table)
            && SkipsAsUnchanged(cfg, states[|events|], TimerFires(c.id))
            && states[|events|].desk.timers[c.id].cluster == c
            && (UpToDate(cfg, states[|events|], c) <==>
                ProxySql.NeededRan(table, rows, c, 10, 20, lost) && ProxySql.RewriteRan(table, c, 20, lost))
  {
    var cfg := Config(5000, 1000, 2, true, 10, 20);
    states, events := [Initial(0, table)], [];
    assert Idle(cfg, states, events);
    var ss, es := SyncForced(cfg, states, events, c, Mangled(ProxySql.Outcome(table, rows, c, 10, 20, lost)));
    states, events := CallAndWait(cfg, ss, es, c);
    SeenAsUnchanged(cfg, states[|events|], c, 0);
    ProxySql.SettlesExactly(table, rows, c, 10, 20, lost);
  }

  lemma TwiceRewritten(cfg: Config, t: Table, b: Board, c: Cluster, d: Cluster)
    requires cfg.writer != cfg.reader && b.table == Synced(t, c, cfg.writer, cfg.reader)
    ensures UpToDateOn(cfg, Damaged(cfg, Damaged(cfg, b, d, Rewritten), d, Rewritten).table, c) <==>
            Wanted(c, cfg.writer, cfg.reader) == Wanted(d, cfg.writer, cfg.reader)
  {
    SyncIdempotent(b.table, d, d, cfg.writer, cfg.reader);
    FixedPointExactly(b.table, d, c, cfg.writer, cfg.reader);
    NothingRewritten(t, c, d, cfg.writer, cfg.reader);
  }

  lemma NothingRewritten(t: Table, c: Cluster, d: Cluster, w: int, r: int)
    requires w != r
    ensures RewritesNothing(Synced(Synced(t, c, w, r), d, w, r), c, r)
  {
    var t' := Synced(Synced(t, c, w, r), d, w, r);
    forall a | a in PrimaryAddrs(c) * ReplicaAddrs(c.replicas) && Key(r, a) in t'
      ensures t'[Key(r, a)] == DefaultRow(a)
    {
      ProxySql.SyncedAt(Synced(t, c, w, r), d, w, r, Key(r, a));
      SyncedHas(t, c, w, r, Key(r, a));
      ProxySql.SyncedAt(t, c, w, r, Key(r, a));
    }
  }
}
