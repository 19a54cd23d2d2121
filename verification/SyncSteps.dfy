/**
 The sync coordinator as a step system: calls, debounce timers, attempts, lock releases, resets and
 the clock interleave in any order. The steps of the class in SyncCoordinator.dfy are these steps.
 */
module SyncSteps {
  import opened Text
  import opened Topology
  import opened ServerTable
  import TopologyHash

  datatype Config = Config(
    cooldownMs: int,
    debounceMs: int,
    maxRetries: int,
    enabled: bool,
    writer: int,
    reader: int)

  datatype SkipReason = InvalidInput | Disabled | Cooldown | NoChange

  datatype SyncResult = Skipped(why: SkipReason) | Success(added: nat) | GaveUp

  /** Where a caller of `sync` stands. */
  datatype Status =
    | OnTimer                     // waits for the debounce timer of its cluster
    | OnFlight(owner: nat)        // waits for the sync that the call `owner` started
    | Answered(result: SyncResult)
    | Superseded(later: nat)      // its timer was cleared by a later call; nothing resolves it

  datatype Call = Call(id: string, status: Status)

  datatype Timer = Timer(owner: nat, cluster: Cluster, force: bool, due: int)

  /** A `doSync` promise: still making attempts, or settled but with its lock not yet released. */
  datatype Phase = Trying(attempt: int) | Settled(result: SyncResult)

  /** A running `doSync`, named by the call whose timer started it. */
  datatype Flight = Flight(cluster: Cluster, phase: Phase)

  /** Who waits for what. `calls` is a history of every call so far. */
  datatype Desk = Desk(
    timers: map<string, Timer>,
    locks: map<string, nat>,
    flights: map<nat, Flight>,
    calls: seq<Call>)

  /** What earlier successes left behind. `clusters` is a history: the topology behind each hash. */
  datatype Cache = Cache(times: map<string, int>, hashes: map<string, string>, clusters: map<string, Cluster>)

  datatype Stats = Stats(total: nat, succeeded: nat, failed: nat, skipped: nat)

  /** The server table; `wrote` is a history: the topology an attempt last wrote it for. */
  datatype Board = Board(table: Table, wrote: Option<Cluster>)

  datatype State = State(now: int, desk: Desk, cache: Cache, stats: Stats, board: Board)

  /** What an attempt did to the table, whether it succeeded or failed. */
  datatype Damage =
    | Untouched              // no statement changed a row
    | Rewritten              // every statement on the server rows ran
    | Mangled(left: Table)   // some statements on the server rows threw, which is swallowed

  datatype Event =
    | SyncCall(cluster: Option<Cluster>, force: bool)
    | TimerFires(id: string)
    | AttemptFails(owner: nat, damage: Damage)
    | AttemptSucceeds(owner: nat, added: nat, damage: Damage)
    | ReleaseLock(owner: nat)
    | ResetCooldown(id: string)
    | ClearCache
    | Tick(ms: nat)

  function Initial(now: int, table: Table): State {
    State(now, Desk(map[], map[], map[], []), Cache(map[], map[], map[]), Stats(0, 0, 0, 0), Board(table, None))
  }

  // ---------------------------------------------------------------------------
  // Steps on the desk
  // ---------------------------------------------------------------------------

  predicate ValidCluster(c: Option<Cluster>) {
    c.Some? && c.value.id != "" && (c.value.primary.Some? || c.value.replicas != [])
  }

  predicate Wired(d: Desk) {
    forall id | id in d.timers :: d.timers[id].owner < |d.calls|
  }

  function SetStatus(calls: seq<Call>, n: nat, status: Status): seq<Call>
    requires n < |calls|
  {
    calls[n := Call(calls[n].id, status)]
  }

  /** Everyone who waits for the sync of `owner` gets its result. */
  function Deliver(calls: seq<Call>, owner: nat, result: SyncResult): (out: seq<Call>)
    ensures |out| == |calls|
    ensures forall i | 0 <= i < |calls| ::
              out[i] == if calls[i].status == OnFlight(owner) then Call(calls[i].id, Answered(result)) else calls[i]
  {
    seq(|calls|, i requires 0 <= i < |calls| =>
      if calls[i].status == OnFlight(owner) then Call(calls[i].id, Answered(result)) else calls[i])
  }

  /** `sync`: clears the live timer, then joins the running sync or sets a new timer. */
  function CallDesk(d: Desk, c: Option<Cluster>, force: bool, due: int): (d': Desk)
    requires Wired(d)
    ensures d'.locks == d.locks && d'.flights == d.flights && |d'.calls| == |d.calls| + 1
  {
    var me := |d.calls|;
    if !ValidCluster(c) then
      d.(calls := d.calls + [Call(if c.Some? then c.value.id else "", Answered(Skipped(InvalidInput)))])
    else
      var id := c.value.id;
      var calls := if id in d.timers then SetStatus(d.calls, d.timers[id].owner, Superseded(me)) else d.calls;
      if id in d.locks then
        Desk(d.timers - {id}, d.locks, d.flights, calls + [Call(id, OnFlight(d.locks[id]))])
      else
        Desk((d.timers - {id})[id := Timer(me, c.value, force, due)], d.locks, d.flights, calls + [Call(id, OnTimer)])
  }

  /** The timer callback: `executeSync` up to its first suspension; no phase means syncing is disabled. */
  function FireDesk(d: Desk, id: string, phase: Option<Phase>): Desk
    requires Wired(d) && id in d.timers
  {
    var timer := d.timers[id];
    if phase.None? then
      d.(timers := d.timers - {id}, calls := SetStatus(d.calls, timer.owner, Answered(Skipped(Disabled))))
    else
      Desk(d.timers - {id},
           d.locks[id := timer.owner],
           d.flights[timer.owner := Flight(timer.cluster, phase.value)],
           SetStatus(d.calls, timer.owner, OnFlight(timer.owner)))
  }

  function PhaseDesk(d: Desk, owner: nat, phase: Phase): Desk
    requires owner in d.flights
  {
    d.(flights := d.flights[owner := Flight(d.flights[owner].cluster, phase)])
  }

  /** The `finally` of `executeSync`: it deletes whatever lock the cluster has. */
  function ReleaseDesk(d: Desk, owner: nat): Desk
    requires owner in d.flights && d.flights[owner].phase.Settled?
  {
    var f := d.flights[owner];
    Desk(d.timers, d.locks - {f.cluster.id}, d.flights - {owner}, Deliver(d.calls, owner, f.phase.result))
  }

  // ---------------------------------------------------------------------------
  // Steps
  // ---------------------------------------------------------------------------

  function LastSync(times: map<string, int>, id: string): int {
    if id in times then times[id] else 0
  }

  /** Why `doSync` stops before its first attempt. */
  function SkipCheck(cfg: Config, cache: Cache, now: int, c: Cluster, force: bool): Option<SkipReason> {
    if !force && now - LastSync(cache.times, c.id) < cfg.cooldownMs then Some(Cooldown)
    else if !force && c.id in cache.hashes && cache.hashes[c.id] == TopologyHash.Hash(c) then Some(NoChange)
    else None
  }

  function FirstPhase(cfg: Config, skip: Option<SkipReason>): Phase {
    if skip.Some? then Settled(Skipped(skip.value))
    else if cfg.maxRetries < 1 then Settled(GaveUp)
    else Trying(1)
  }

  function CallStep(cfg: Config, s: State, c: Option<Cluster>, force: bool): State
    requires Wired(s.desk)
  {
    s.(desk := CallDesk(s.desk, c, force, s.now + if force then 0 else cfg.debounceMs))
  }

  function FireStep(cfg: Config, s: State, id: string): State
    requires Wired(s.desk) && id in s.desk.timers
  {
    if !cfg.enabled then
      s.(desk := FireDesk(s.desk, id, None))
    else
      var timer := s.desk.timers[id];
      var skip := SkipCheck(cfg, s.cache, s.now, timer.cluster, timer.force);
      s.(desk := FireDesk(s.desk, id, Some(FirstPhase(cfg, skip))),
         stats := if skip.Some? then s.stats.(skipped := s.stats.skipped + 1)
                  else s.stats.(total := s.stats.total + 1,
                                failed := s.stats.failed + if cfg.maxRetries < 1 then 1 else 0))
  }

  predicate TryingAt(d: Desk, owner: nat) {
    owner in d.flights && d.flights[owner].phase.Trying?
  }

  function Damaged(cfg: Config, b: Board, c: Cluster, damage: Damage): Board {
    match damage
    case Untouched => b
    case Rewritten => Board(Synced(b.table, c, cfg.writer, cfg.reader), Some(c))
    case Mangled(left) => Board(left, None)
  }

  function FailStep(cfg: Config, s: State, owner: nat, damage: Damage): State
    requires TryingAt(s.desk, owner)
  {
    var f := s.desk.flights[owner];
    var again := f.phase.attempt < cfg.maxRetries;
    s.(desk := PhaseDesk(s.desk, owner, if again then Trying(f.phase.attempt + 1) else Settled(GaveUp)),
       stats := if again then s.stats else s.stats.(failed := s.stats.failed + 1),
       board := Damaged(cfg, s.board, f.cluster, damage))
  }

  function Remember(cache: Cache, c: Cluster, now: int): Cache {
    Cache(cache.times[c.id := now], cache.hashes[c.id := TopologyHash.Hash(c)], cache.clusters[c.id := c])
  }

  /** A success is recorded whatever became of the statements on the server rows. */
  function SucceedStep(cfg: Config, s: State, owner: nat, added: nat, damage: Damage): State
    requires TryingAt(s.desk, owner)
  {
    var c := s.desk.flights[owner].cluster;
    s.(desk := PhaseDesk(s.desk, owner, Settled(Success(added))),
       cache := Remember(s.cache, c, s.now),
       stats := s.stats.(succeeded := s.stats.succeeded + 1),
       board := Damaged(cfg, s.board, c, damage))
  }

  predicate Enabled(s: State, e: Event) {
    match e
    case TimerFires(id) => id in s.desk.timers && s.desk.timers[id].due <= s.now
    case AttemptFails(n, _) => TryingAt(s.desk, n)
    case AttemptSucceeds(n, _, _) => TryingAt(s.desk, n)
    case ReleaseLock(n) => n in s.desk.flights && s.desk.flights[n].phase.Settled?
    case _ => true
  }

  function Next(cfg: Config, s: State, e: Event): State
    requires Wired(s.desk) && Enabled(s, e)
  {
    match e
    case SyncCall(c, force) => CallStep(cfg, s, c, force)
    case TimerFires(id) => FireStep(cfg, s, id)
    case AttemptFails(n, damage) => FailStep(cfg, s, n, damage)
    case AttemptSucceeds(n, added, damage) => SucceedStep(cfg, s, n, added, damage)
    case ReleaseLock(n) => s.(desk := ReleaseDesk(s.desk, n))
    case ResetCooldown(id) => s.(cache := s.cache.(times := s.cache.times - {id}))
    case ClearCache => s.(cache := Cache(map[], map[], map[]))
    case Tick(ms) => s.(now := s.now + ms)
  }

  // ---------------------------------------------------------------------------
  // The invariant
  // ---------------------------------------------------------------------------

  /** A live timer belongs to the call that waits on it, and its cluster has no lock. */
  predicate TimerOk(d: Desk, id: string)
    requires id in d.timers
  {
    var t := d.timers[id];
    && t.cluster.id == id && ValidCluster(Some(t.cluster))
    && t.owner < |d.calls| && d.calls[t.owner] == Call(id, OnTimer)
    && id !in d.locks
  }

  /** A running sync is the one its cluster's lock names, and stays within its attempts. */
  predicate FlightOk(max: int, d: Desk, n: nat)
    requires n in d.flights
  {
    var f := d.flights[n];
    && n < |d.calls| && d.calls[n] == Call(f.cluster.id, OnFlight(n))
    && f.cluster.id in d.locks && d.locks[f.cluster.id] == n
    && (f.phase.Trying? ==> 1 <= f.phase.attempt <= max)
  }

  predicate LockOk(d: Desk, id: string)
    requires id in d.locks
  {
    d.locks[id] in d.flights && d.flights[d.locks[id]].cluster.id == id
  }

  /** A call is answered, on the live timer, joined to the running sync, or superseded by a later call. */
  predicate CallOk(d: Desk, i: nat)
    requires i < |d.calls|
  {
    match d.calls[i].status
    case OnTimer => d.calls[i].id in d.timers && d.timers[d.calls[i].id].owner == i
    case OnFlight(n) => n in d.flights && d.flights[n].cluster.id == d.calls[i].id
    case Answered(_) => true
    case Superseded(later) => i < later < |d.calls| && d.calls[later].id == d.calls[i].id
  }

  predicate DeskOk(max: int, d: Desk) {
    && (forall id | id in d.timers :: TimerOk(d, id))
    && (forall n | n in d.flights :: FlightOk(max, d, n))
    && (forall id | id in d.locks :: LockOk(d, id))
    && (forall i: nat | i < |d.calls| :: CallOk(d, i))
  }

  /** The syncs that are past the skip checks and not yet settled. */
  function Underway(flights: map<nat, Flight>): set<nat> {
    set n | n in flights && flights[n].phase.Trying?
  }

  predicate Balanced(s: State) {
    s.stats.total == s.stats.succeeded + s.stats.failed + |Underway(s.desk.flights)|
  }

  predicate Inv(cfg: Config, s: State) {
    DeskOk(cfg.maxRetries, s.desk) && Balanced(s)
  }

  lemma Wires(max: int, d: Desk)
    requires DeskOk(max, d)
    ensures Wired(d)
  {
    assert forall id | id in d.timers :: TimerOk(d, id);
  }

  /** A new call only appends to the calls and marks the one that waited for its cluster's timer. */
  lemma CallAfterCall(max: int, d: Desk, c: Option<Cluster>, force: bool, due: int, i: nat)
    requires DeskOk(max, d) && Wired(d) && i < |d.calls|
    ensures var d' := CallDesk(d, c, force, due);
            && |d'.calls| == |d.calls| + 1
            && d'.calls[i] == if ValidCluster(c) && d.calls[i] == Call(c.value.id, OnTimer)
                              then Call(d.calls[i].id, Superseded(|d.calls|)) else d.calls[i]
  {
    assert CallOk(d, i);
    if ValidCluster(c) && c.value.id in d.timers {
      assert TimerOk(d, c.value.id);
    }
  }

  lemma CallKeepsCall(max: int, d: Desk, c: Option<Cluster>, force: bool, due: int, i: nat)
    requires DeskOk(max, d) && Wired(d) && i <= |d.calls|
    ensures i < |CallDesk(d, c, force, due).calls| && CallOk(CallDesk(d, c, force, due), i)
  {
    var d' := CallDesk(d, c, force, due);
    if i < |d.calls| {
      assert CallOk(d, i);
      CallAfterCall(max, d, c, force, due, i);
      if d'.calls[i].status.Superseded? {
        assert d'.calls[d'.calls[i].status.later].id == d.calls[i].id;
      }
    } else if ValidCluster(c) && c.value.id in d.locks {
      assert LockOk(d, c.value.id);
    }
  }

  lemma CallKeeps(max: int, d: Desk, c: Option<Cluster>, force: bool, due: int)
    requires DeskOk(max, d) && Wired(d)
    ensures DeskOk(max, CallDesk(d, c, force, due))
  {
    var d' := CallDesk(d, c, force, due);
    forall id | id in d'.timers
      ensures TimerOk(d', id)
    {
      if id in d.timers {
        assert TimerOk(d, id);
        CallAfterCall(max, d, c, force, due, d.timers[id].owner);
      }
    }
    forall n | n in d'.flights
      ensures FlightOk(max, d', n)
    {
      assert FlightOk(max, d, n);
      CallAfterCall(max, d, c, force, due, n);
    }
    forall id | id in d'.locks
      ensures LockOk(d', id)
    {
      assert LockOk(d, id);
    }
    forall i: nat | i < |d'.calls|
      ensures CallOk(d', i)
    {
      CallKeepsCall(max, d, c, force, due, i);
    }
  }

  /** The call whose timer fires owns no running sync yet, and no lock names it. */
  lemma FireFinds(max: int, d: Desk, id: string)
    requires DeskOk(max, d) && id in d.timers
    ensures TimerOk(d, id) && d.timers[id].owner !in d.flights
    ensures forall id' | id' in d.locks :: d.locks[id'] != d.timers[id].owner
  {
    assert TimerOk(d, id);
    assert forall n | n in d.flights :: FlightOk(max, d, n);
    assert forall id' | id' in d.locks :: LockOk(d, id');
  }

  lemma FireKeepsCall(max: int, d: Desk, id: string, phase: Option<Phase>, i: nat)
    requires DeskOk(max, d) && id in d.timers && i < |d.calls|
    ensures CallOk(FireDesk(d, id, phase), i)
  {
    FireFinds(max, d, id);
    assert CallOk(d, i);
  }

  lemma FireKeeps(max: int, d: Desk, id: string, phase: Option<Phase>)
    requires DeskOk(max, d) && Wired(d) && id in d.timers
    requires phase.Some? && phase.value.Trying? ==> 1 <= phase.value.attempt <= max
    ensures DeskOk(max, FireDesk(d, id, phase))
  {
    var d' := FireDesk(d, id, phase);
    FireFinds(max, d, id);
    forall id' | id' in d'.timers
      ensures TimerOk(d', id')
    {
      assert TimerOk(d, id');
    }
    forall n | n in d'.flights
      ensures FlightOk(max, d', n)
    {
      assert n in d.flights ==> FlightOk(max, d, n);
    }
    forall id' | id' in d'.locks
      ensures LockOk(d', id')
    {
      assert id' in d.locks ==> LockOk(d, id');
    }
    forall i: nat | i < |d'.calls|
      ensures CallOk(d', i)
    {
      FireKeepsCall(max, d, id, phase, i);
    }
  }

  lemma PhaseKeeps(max: int, d: Desk, owner: nat, phase: Phase)
    requires DeskOk(max, d) && owner in d.flights
    requires phase.Trying? ==> 1 <= phase.attempt <= max
    ensures DeskOk(max, PhaseDesk(d, owner, phase))
  {
    var d' := PhaseDesk(d, owner, phase);
    forall id | id in d'.timers
      ensures TimerOk(d', id)
    {
      assert TimerOk(d, id);
    }
    forall n | n in d'.flights
      ensures FlightOk(max, d', n)
    {
      assert FlightOk(max, d, n) && FlightOk(max, d, owner);
    }
    forall id | id in d'.locks
      ensures LockOk(d', id)
    {
      assert LockOk(d, id);
    }
    forall i: nat | i < |d'.calls|
      ensures CallOk(d', i)
    {
      assert CallOk(d, i);
    }
  }

  lemma ReleaseKeepsCall(max: int, d: Desk, owner: nat, i: nat)
    requires DeskOk(max, d) && owner in d.flights && d.flights[owner].phase.Settled? && i < |d.calls|
    ensures CallOk(ReleaseDesk(d, owner), i)
  {
    assert FlightOk(max, d, owner) && CallOk(d, i);
    if d.calls[i].status.Superseded? {
      assert ReleaseDesk(d, owner).calls[d.calls[i].status.later].id == d.calls[i].id;
    }
  }

  lemma ReleaseKeeps(max: int, d: Desk, owner: nat)
    requires DeskOk(max, d) && owner in d.flights && d.flights[owner].phase.Settled?
    ensures DeskOk(max, ReleaseDesk(d, owner))
  {
    var d' := ReleaseDesk(d, owner);
    assert FlightOk(max, d, owner);
    forall id | id in d'.timers
      ensures TimerOk(d', id)
    {
      assert TimerOk(d, id);
    }
    forall n | n in d'.flights
      ensures FlightOk(max, d', n)
    {
      assert FlightOk(max, d, n);
    }
    forall id | id in d'.locks
      ensures LockOk(d', id)
    {
      assert LockOk(d, id);
    }
    forall i: nat | i < |d'.calls|
      ensures CallOk(d', i)
    {
      ReleaseKeepsCall(max, d, owner, i);
    }
  }

  // ---------------------------------------------------------------------------
  // The balance of the counters
  // ---------------------------------------------------------------------------

  lemma FlightCounted(flights: map<nat, Flight>, n: nat, f: Flight)
    ensures |Underway(flights[n := f])| ==
            |Underway(flights)| + (if f.phase.Trying? then 1 else 0)
                                - (if n in flights && flights[n].phase.Trying? then 1 else 0)
  {
    var u, u' := Underway(flights), Underway(flights[n := f]);
    assert u' - {n} == u - {n};
    assert n in u ==> u == (u - {n}) + {n};
    assert n in u' ==> u' == (u' - {n}) + {n};
  }

  lemma FireStepKeeps(cfg: Config, s: State, id: string)
    requires Inv(cfg, s) && Wired(s.desk) && id in s.desk.timers
    ensures Inv(cfg, FireStep(cfg, s, id))
  {
    var timer := s.desk.timers[id];
    FireFinds(cfg.maxRetries, s.desk, id);
    var skip := SkipCheck(cfg, s.cache, s.now, timer.cluster, timer.force);
    var phase := FirstPhase(cfg, skip);
    FireKeeps(cfg.maxRetries, s.desk, id, if cfg.enabled then Some(phase) else None);
    FlightCounted(s.desk.flights, timer.owner, Flight(timer.cluster, phase));
  }

  /** An attempt that moves a sync to `phase` keeps the balance when the counters follow. */
  lemma PhaseMoveKeeps(cfg: Config, s: State, s': State, owner: nat, phase: Phase)
    requires Inv(cfg, s) && TryingAt(s.desk, owner)
    requires s'.desk == PhaseDesk(s.desk, owner, phase)
    requires phase.Trying? ==> 1 <= phase.attempt <= cfg.maxRetries
    requires s'.stats.total == s.stats.total
    requires s'.stats.succeeded + s'.stats.failed ==
             s.stats.succeeded + s.stats.failed + if phase.Trying? then 0 else 1
    ensures Inv(cfg, s')
  {
    PhaseKeeps(cfg.maxRetries, s.desk, owner, phase);
    FlightCounted(s.desk.flights, owner, Flight(s.desk.flights[owner].cluster, phase));
  }

  lemma FailStepKeeps(cfg: Config, s: State, owner: nat, damage: Damage)
    requires Inv(cfg, s) && TryingAt(s.desk, owner)
    ensures Inv(cfg, FailStep(cfg, s, owner, damage))
  {
    assert FlightOk(cfg.maxRetries, s.desk, owner);
    var s' := FailStep(cfg, s, owner, damage);
    PhaseMoveKeeps(cfg, s, s', owner, s'.desk.flights[owner].phase);
  }

  lemma SucceedStepKeeps(cfg: Config, s: State, owner: nat, added: nat, damage: Damage)
    requires Inv(cfg, s) && TryingAt(s.desk, owner)
    ensures Inv(cfg, SucceedStep(cfg, s, owner, added, damage))
  {
    var s' := SucceedStep(cfg, s, owner, added, damage);
    PhaseMoveKeeps(cfg, s, s', owner, s'.desk.flights[owner].phase);
  }

  lemma CallStepKeeps(cfg: Config, s: State, c: Option<Cluster>, force: bool)
    requires Inv(cfg, s) && Wired(s.desk)
    ensures Inv(cfg, CallStep(cfg, s, c, force))
  {
    var due := s.now + if force then 0 else cfg.debounceMs;
    CallKeeps(cfg.maxRetries, s.desk, c, force, due);
    assert CallStep(cfg, s, c, force) == s.(desk := CallDesk(s.desk, c, force, due));
  }

  lemma ReleaseStepKeeps(cfg: Config, s: State, owner: nat)
    requires Inv(cfg, s) && owner in s.desk.flights && s.desk.flights[owner].phase.Settled?
    ensures Inv(cfg, s.(desk := ReleaseDesk(s.desk, owner)))
  {
    ReleaseKeeps(cfg.maxRetries, s.desk, owner);
    assert Underway(s.desk.flights - {owner}) == Underway(s.desk.flights);
  }

  /** Every step keeps the invariant. */
  lemma StepKeeps(cfg: Config, s: State, e: Event)
    requires Inv(cfg, s) && Enabled(s, e)
    ensures Wired(s.desk) && Inv(cfg, Next(cfg, s, e))
  {
    Wires(cfg.maxRetries, s.desk);
    match e {
      case SyncCall(c, force) => CallStepKeeps(cfg, s, c, force);
      case TimerFires(id) => FireStepKeeps(cfg, s, id);
      case AttemptFails(n, damage) => FailStepKeeps(cfg, s, n, damage);
      case AttemptSucceeds(n, added, damage) => SucceedStepKeeps(cfg, s, n, added, damage);
      case ReleaseLock(n) => ReleaseStepKeeps(cfg, s, n);
      case _ =>
    }
  }
}
