/** The ProxySQL manager: its cached view of the server table and the reconciliation of one cluster. */
module ProxySql {
  import opened Text
  import opened Topology
  import opened ServerTable

  datatype Server = Server(key: Key, row: Row)

  /** The statements of one `syncCluster` call; `n` counts the doomed rows or the replicas. */
  datatype Statement =
    | ReadServers
    | DeleteStale(n: nat)
    | DemotePrimary          // DELETE of the primary's reader row
    | InsertPrimary
    | MoveReplica(n: nat)    // DELETE of a replica's writer row
    | InsertReplica(n: nat)
    | Tail                   // replication hostgroups, rules, load and save

  /** The statements that throw. */
  type Lost = set<Statement>

  datatype SyncReport = SyncReport(added: nat, removed: nat, success: bool)

  /** `hostgroup:host:port`, the key of `servers` and of `expectedServers`. */
  function KeyText(k: Key): string {
    Num(k.hostgroup) + ":" + InstanceId(k.addr)
  }

  /** No two keys share a text, even for hosts that hold colons. */
  lemma KeyTextInjective(k: Key, l: Key)
    requires KeyText(k) == KeyText(l)
    ensures k == l
  {
    NumChars(k.hostgroup);
    NumChars(l.hostgroup);
    FirstSeparatorUnique(Num(k.hostgroup), InstanceId(k.addr), Num(l.hostgroup), InstanceId(l.addr), ':');
    ParseIntNum(k.hostgroup);
    ParseIntNum(l.hostgroup);
    InstanceIdInjective(k.addr, l.addr);
  }

  predicate Distinct(rows: seq<Server>) {
    forall i, j | 0 <= i < j < |rows| :: rows[i].key != rows[j].key
  }

  /** `rows` holds every row of `t` once, in any order. */
  predicate Lists(rows: seq<Server>, t: Table) {
    && Distinct(rows)
    && (forall i | 0 <= i < |rows| :: rows[i].key in t && rows[i].row == t[rows[i].key])
    && (forall k | k in t :: exists i :: 0 <= i < |rows| && rows[i].key == k)
  }

  /** The cache `servers` mirrors the table. */
  predicate Mirrors(servers: map<string, Server>, t: Table) {
    Copies(servers, t) && forall k | k in t :: KeyText(k) in servers
  }

  predicate Copies(servers: map<string, Server>, t: Table) {
    forall s | s in servers ::
      KeyText(servers[s].key) == s && servers[s].key in t && servers[s].row == t[servers[s].key]
  }

  predicate CopiedTo(servers: map<string, Server>, rows: seq<Server>, n: nat)
    requires n <= |rows|
  {
    forall i | 0 <= i < n :: KeyText(rows[i].key) in servers
  }

  lemma CopyKept(servers: map<string, Server>, s: Server, t: Table)
    requires Copies(servers, t) && s.key in t && s.row == t[s.key]
    ensures Copies(servers[KeyText(s.key) := s], t)
  {
  }

  lemma CopiesOne(servers: map<string, Server>, rows: seq<Server>, n: nat, t: Table)
    requires n < |rows| && Lists(rows, t) && CopiedTo(servers, rows, n) && Copies(servers, t)
    ensures var more := servers[KeyText(rows[n].key) := rows[n]];
            CopiedTo(more, rows, n + 1) && Copies(more, t)
  {
    CopyKept(servers, rows[n], t);
  }

  lemma AllCopied(servers: map<string, Server>, rows: seq<Server>, t: Table)
    requires Lists(rows, t) && CopiedTo(servers, rows, |rows|) && Copies(servers, t)
    ensures Mirrors(servers, t)
  {
    forall k | k in t
      ensures KeyText(k) in servers
    {
      var i :| 0 <= i < |rows| && rows[i].key == k;
    }
  }

  function InHostgroup(rows: seq<Server>, hostgroup: int): (kept: seq<Server>)
    ensures forall s :: s in kept <==> s in rows && s.key.hostgroup == hostgroup
    ensures Distinct(rows) ==> Distinct(kept)
  {
    if rows == [] then []
    else
      var rest := InHostgroup(rows[1..], hostgroup);
      if rows[0].key.hostgroup == hostgroup then [rows[0]] + rest else rest
  }

  function Chosen(rows: seq<Server>, hostgroup: Option<int>): seq<Server> {
    if hostgroup.Some? then InHostgroup(rows, hostgroup.value) else rows
  }

  /** The rows of one hostgroup, or all. */
  lemma ChosenExactly(rows: seq<Server>, hostgroup: Option<int>, s: Server)
    ensures s in Chosen(rows, hostgroup) <==> s in rows && (hostgroup == None || hostgroup == Some(s.key.hostgroup))
  {
  }

  // ---------------------------------------------------------------------------
  // Stale rows
  // ---------------------------------------------------------------------------

  function KeyTexts(keys: set<Key>): (texts: set<string>)
    ensures forall k :: KeyText(k) in texts <==> k in keys
  {
    var texts := set k | k in keys :: KeyText(k);
    assert forall k :: KeyText(k) in texts <==> k in keys by {
      forall k | KeyText(k) in texts
        ensures k in keys
      {
        var l :| l in keys && KeyText(l) == KeyText(k);
        KeyTextInjective(k, l);
      }
    }
    texts
  }

  lemma KeyTextsPlus(keys: set<Key>, k: Key)
    ensures KeyTexts(keys + {k}) == KeyTexts(keys) + {KeyText(k)}
  {
  }

  /** The keys collected after the primary and the first `n` replicas. */
  function ExpectedSoFar(c: Cluster, w: int, r: int, n: nat): set<Key>
    requires n <= |c.replicas|
  {
    KeysAt(w, PrimaryAddrs(c)) + KeysAt(r, ReplicaAddrs(c.replicas[..n]))
  }

  lemma OneMoreExpected(c: Cluster, w: int, r: int, n: nat)
    requires n < |c.replicas|
    ensures KeyTexts(ExpectedSoFar(c, w, r, n + 1)) ==
            KeyTexts(ExpectedSoFar(c, w, r, n)) + {KeyText(Key(r, AddrOf(c.replicas[n])))}
  {
    AddrsSnoc(c.replicas, n);
    KeyTextsPlus(ExpectedSoFar(c, w, r, n), Key(r, AddrOf(c.replicas[n])));
    assert ExpectedSoFar(c, w, r, n + 1) == ExpectedSoFar(c, w, r, n) + {Key(r, AddrOf(c.replicas[n]))};
  }

  function ExpectedTexts(c: Cluster, w: int, r: int): set<string> {
    KeyTexts(Expected(c, w, r))
  }

  /** The keys of the rows that are not expected and whose DELETE runs. */
  function DeletedKeys(rows: seq<Server>, expected: set<string>, lost: Lost): set<Key> {
    set n: nat | n < |rows| && DeleteStale(n) !in lost && KeyText(rows[n].key) !in expected :: rows[n].key
  }

  function DeleteCount(rows: seq<Server>, expected: set<string>, lost: Lost): nat {
    if rows == [] then 0
    else
      var last := |rows| - 1;
      DeleteCount(rows[..last], expected, lost)
      + if DeleteStale(last) !in lost && KeyText(rows[last].key) !in expected then 1 else 0
  }

  lemma OneMoreDeleted(rows: seq<Server>, n: nat, expected: set<string>, lost: Lost)
    requires n < |rows|
    ensures var goes := DeleteStale(n) !in lost && KeyText(rows[n].key) !in expected;
            && DeletedKeys(rows[..n + 1], expected, lost) ==
               DeletedKeys(rows[..n], expected, lost) + (if goes then {rows[n].key} else {})
            && DeleteCount(rows[..n + 1], expected, lost) ==
               DeleteCount(rows[..n], expected, lost) + if goes then 1 else 0
    ensures Distinct(rows) ==> rows[n].key !in DeletedKeys(rows[..n], expected, lost)
  {
    TakeSnoc(rows, n);
    assert rows[..n + 1][..n] == rows[..n] && rows[..n + 1][n] == rows[n];
  }

  /** Distinct rows are counted once each. */
  lemma {:induction false} DeletesCounted(rows: seq<Server>, n: nat, expected: set<string>, lost: Lost)
    requires Distinct(rows) && n <= |rows|
    ensures DeleteCount(rows[..n], expected, lost) == |DeletedKeys(rows[..n], expected, lost)|
  {
    if n == 0 {
      assert DeletedKeys(rows[..0], expected, lost) == {};
    } else {
      DeletesCounted(rows, n - 1, expected, lost);
      OneMoreDeleted(rows, n - 1, expected, lost);
    }
  }

  lemma BothHostgroupsDistinct(rows: seq<Server>, w: int, r: int)
    requires w != r && Distinct(rows)
    ensures Distinct(InHostgroup(rows, w) + InHostgroup(rows, r))
  {
    var ws, rs := InHostgroup(rows, w), InHostgroup(rows, r);
    assert forall i | 0 <= i < |ws| :: ws[i] in ws;
    assert forall i | 0 <= i < |rs| :: rs[i] in rs;
  }

  /** The rows of the two hostgroups, as the loop over stale rows goes through them. */
  function Current(rows: seq<Server>, w: int, r: int): (both: seq<Server>)
    ensures forall s :: s in both <==> s in rows && (s.key.hostgroup == w || s.key.hostgroup == r)
    ensures w != r && Distinct(rows) ==> Distinct(both)
  {
    if w != r && Distinct(rows) then
      BothHostgroupsDistinct(rows, w, r);
      InHostgroup(rows, w) + InHostgroup(rows, r)
    else
      InHostgroup(rows, w) + InHostgroup(rows, r)
  }

  /** When every DELETE runs, the rows that go are the stale ones. */
  lemma DoomedRowsAreStale(t: Table, rows: seq<Server>, c: Cluster, w: int, r: int, lost: Lost)
    requires Lists(rows, t) && forall n :: DeleteStale(n) !in lost
    ensures DeletedKeys(Current(rows, w, r), ExpectedTexts(c, w, r), lost) == Stale(t, c, w, r)
  {
    var both := Current(rows, w, r);
    forall k | k in Stale(t, c, w, r)
      ensures k in DeletedKeys(both, ExpectedTexts(c, w, r), lost)
    {
      var i :| 0 <= i < |rows| && rows[i].key == k;
      assert rows[i] in both;
      var n :| 0 <= n < |both| && both[n] == rows[i];
    }
    forall k | k in DeletedKeys(both, ExpectedTexts(c, w, r), lost)
      ensures k in Stale(t, c, w, r)
    {
      var n: nat :| n < |both| && both[n].key == k && KeyText(k) !in ExpectedTexts(c, w, r);
      assert both[n] in rows;
    }
  }

  // ---------------------------------------------------------------------------
  // The primary and the replicas
  // ---------------------------------------------------------------------------

  function Placed(t: Table, primary: Option<Instance>, w: int, r: int, lost: Lost): Table {
    if primary.None? then t
    else
      var a := AddrOf(primary.value);
      var demoted := if DemotePrimary in lost then t else Delete(t, Key(r, a));
      if InsertPrimary in lost then demoted else Insert(demoted, Key(w, a))
  }

  /** The insert counts when it runs on a table without the row. */
  function PlacedCount(t: Table, primary: Option<Instance>, w: int, r: int, lost: Lost): nat {
    if primary.None? || InsertPrimary in lost then 0
    else
      var a := AddrOf(primary.value);
      var demoted := if DemotePrimary in lost then t else Delete(t, Key(r, a));
      if Key(w, a) in demoted then 0 else 1
  }

  /** The n-th replica: without its DELETE there is no INSERT either. */
  function ReplicaStep(t: Table, a: Addr, w: int, r: int, n: nat, lost: Lost): Table {
    if MoveReplica(n) in lost then t
    else if InsertReplica(n) in lost then Delete(t, Key(w, a))
    else Insert(Delete(t, Key(w, a)), Key(r, a))
  }

  function ReplicaPass(t: Table, replicas: seq<Instance>, w: int, r: int, lost: Lost): Table {
    if replicas == [] then t
    else
      var last := |replicas| - 1;
      ReplicaStep(ReplicaPass(t, replicas[..last], w, r, lost), AddrOf(replicas[last]), w, r, last, lost)
  }

  function ReplicaCount(t: Table, replicas: seq<Instance>, w: int, r: int, lost: Lost): nat {
    if replicas == [] then 0
    else
      var last := |replicas| - 1;
      var a := AddrOf(replicas[last]);
      ReplicaCount(t, replicas[..last], w, r, lost)
      + if MoveReplica(last) !in lost && InsertReplica(last) !in lost
           && Key(r, a) !in Delete(ReplicaPass(t, replicas[..last], w, r, lost), Key(w, a))
        then 1 else 0
  }

  /** Some replica at `a` has its DELETE run. */
  predicate Moved(replicas: seq<Instance>, a: Addr, lost: Lost) {
    exists n: nat | n < |replicas| :: AddrOf(replicas[n]) == a && MoveReplica(n) !in lost
  }

  /** One replica: its writer row goes and its reader row comes; without the DELETE there is no INSERT either. */
  lemma OneReplica(t: Table, replica: Instance, w: int, r: int, lost: Lost)
    ensures var a := Addr(replica.host, replica.port);
            ReplicaPass(t, [replica], w, r, lost) ==
            if MoveReplica(0) in lost then t
            else
              var moved := t - {Key(w, a)};
              if InsertReplica(0) in lost || Key(r, a) in moved then moved else moved[Key(r, a) := DefaultRow(a)]
  {
    assert [replica][..0] == [];
  }

  /** The primary: its reader row goes and its writer row comes, each statement on its own. */
  lemma OnePrimary(t: Table, primary: Instance, w: int, r: int, lost: Lost)
    ensures var a := Addr(primary.host, primary.port);
            Placed(t, Some(primary), w, r, lost) ==
            var demoted := if DemotePrimary in lost then t else t - {Key(r, a)};
            if InsertPrimary in lost || Key(w, a) in demoted then demoted else demoted[Key(w, a) := DefaultRow(a)]
    ensures Placed(t, None, w, r, lost) == t
  {
  }

  /** Some replica at `a` has both its statements run. */
  predicate Inserted(replicas: seq<Instance>, a: Addr, lost: Lost) {
    exists n: nat | n < |replicas| :: AddrOf(replicas[n]) == a && MoveReplica(n) !in lost && InsertReplica(n) !in lost
  }

  lemma MovedSnoc(replicas: seq<Instance>, a: Addr, lost: Lost)
    requires replicas != []
    ensures var last := |replicas| - 1;
            && (Moved(replicas, a, lost) <==>
                Moved(replicas[..last], a, lost) || (AddrOf(replicas[last]) == a && MoveReplica(last) !in lost))
            && (Inserted(replicas, a, lost) <==>
                Inserted(replicas[..last], a, lost)
                || (AddrOf(replicas[last]) == a && MoveReplica(last) !in lost && InsertReplica(last) !in lost))
  {
    var last := |replicas| - 1;
    assert forall n: nat | n < last :: replicas[..last][n] == replicas[n];
  }

  /** What the pass over the replicas leaves, whichever statements throw: writers go, readers come, all else stays. */
  lemma {:induction false} ReplicaPassAt(t: Table, replicas: seq<Instance>, w: int, r: int, lost: Lost, k: Key)
    requires w != r
    ensures k in ReplicaPass(t, replicas, w, r, lost) <==>
            if k.hostgroup == r then k in t || Inserted(replicas, k.addr, lost)
            else k in t && !(k.hostgroup == w && Moved(replicas, k.addr, lost))
    ensures k in ReplicaPass(t, replicas, w, r, lost) ==>
              ReplicaPass(t, replicas, w, r, lost)[k] == if k in t then t[k] else DefaultRow(k.addr)
    decreases |replicas|
  {
    if replicas == [] {
    } else {
      ReplicaPassAt(t, replicas[..|replicas| - 1], w, r, lost, k);
      MovedSnoc(replicas, k.addr, lost);
    }
  }

  /** One more replica is counted when it has no reader row yet at its turn. */
  lemma OneMoreCounted(t: Table, replicas: seq<Instance>, n: nat, w: int, r: int, lost: Lost)
    requires n < |replicas|
    ensures var before, a := ReplicaPass(t, replicas[..n], w, r, lost), AddrOf(replicas[n]);
            && ReplicaPass(t, replicas[..n + 1], w, r, lost) == ReplicaStep(before, a, w, r, n, lost)
            && ReplicaCount(t, replicas[..n + 1], w, r, lost) ==
               ReplicaCount(t, replicas[..n], w, r, lost)
               + if MoveReplica(n) !in lost && InsertReplica(n) !in lost && Key(r, a) !in Delete(before, Key(w, a))
                 then 1 else 0
  {
    assert replicas[..n + 1][..n] == replicas[..n] && replicas[..n + 1][n] == replicas[n];
  }

  function Newcomers(t: Table, replicas: seq<Instance>, r: int): set<Addr> {
    set a | a in ReplicaAddrs(replicas) && Key(r, a) !in t
  }

  /** A replica is a new reader unless the table or an earlier turn of the loop has its reader row. */
  lemma OneMoreNewcomer(t: Table, replicas: seq<Instance>, n: nat, w: int, r: int, lost: Lost)
    requires w != r && n < |replicas| && forall m :: MoveReplica(m) !in lost && InsertReplica(m) !in lost
    ensures var a := AddrOf(replicas[n]);
            var known := Key(r, a) in ReplicaPass(t, replicas[..n], w, r, lost);
            && Newcomers(t, replicas[..n + 1], r) == Newcomers(t, replicas[..n], r) + (if known then {} else {a})
            && (known || a !in Newcomers(t, replicas[..n], r))
  {
    var a := AddrOf(replicas[n]);
    ReplicaPassAt(t, replicas[..n], w, r, lost, Key(r, a));
    AddrsSnoc(replicas, n);
    AllInserted(replicas[..n], a, lost);
  }

  /** When all inserts run, the count is the number of replicas without a reader row. */
  lemma {:induction false} ReplicasCounted(t: Table, replicas: seq<Instance>, n: nat, w: int, r: int, lost: Lost)
    requires w != r && n <= |replicas| && forall m :: MoveReplica(m) !in lost && InsertReplica(m) !in lost
    ensures ReplicaCount(t, replicas[..n], w, r, lost) == |Newcomers(t, replicas[..n], r)|
  {
    if n == 0 {
      assert Newcomers(t, replicas[..0], r) == {};
    } else {
      ReplicasCounted(t, replicas, n - 1, w, r, lost);
      OneMoreCounted(t, replicas, n - 1, w, r, lost);
      OneMoreNewcomer(t, replicas, n - 1, w, r, lost);
    }
  }

  lemma AddrsSnoc(replicas: seq<Instance>, n: nat)
    requires n < |replicas|
    ensures ReplicaAddrs(replicas[..n + 1]) == ReplicaAddrs(replicas[..n]) + {AddrOf(replicas[n])}
  {
    assert replicas[..n + 1][n] == replicas[n];
    assert forall i | 0 <= i < n :: replicas[..n + 1][i] == replicas[..n][i];
  }

  lemma AllInserted(replicas: seq<Instance>, a: Addr, lost: Lost)
    requires forall m :: MoveReplica(m) !in lost && InsertReplica(m) !in lost
    ensures Inserted(replicas, a, lost) <==> a in ReplicaAddrs(replicas)
    ensures Moved(replicas, a, lost) <==> a in ReplicaAddrs(replicas)
  {
    if a in ReplicaAddrs(replicas) {
      var n: nat :| n < |replicas| && AddrOf(replicas[n]) == a;
      assert MoveReplica(n) !in lost && InsertReplica(n) !in lost;
    }
  }

  // ---------------------------------------------------------------------------
  // The whole call
  // ---------------------------------------------------------------------------

  function Pruned(t: Table, rows: seq<Server>, c: Cluster, w: int, r: int, lost: Lost): Table {
    t - DeletedKeys(Current(rows, w, r), ExpectedTexts(c, w, r), lost)
  }

  /** The table after a call that saw `rows` and lost some statements. */
  function Outcome(t: Table, rows: seq<Server>, c: Cluster, w: int, r: int, lost: Lost): Table {
    ReplicaPass(Placed(Pruned(t, rows, c, w, r, lost), c.primary, w, r, lost), c.replicas, w, r, lost)
  }

  function OutcomeReport(t: Table, rows: seq<Server>, c: Cluster, w: int, r: int, lost: Lost): SyncReport {
    var pruned := Pruned(t, rows, c, w, r, lost);
    SyncReport(
      PlacedCount(pruned, c.primary, w, r, lost)
      + ReplicaCount(Placed(pruned, c.primary, w, r, lost), c.replicas, w, r, lost),
      DeleteCount(Current(rows, w, r), ExpectedTexts(c, w, r), lost),
      Tail !in lost)
  }

  /** `t'` is what some call leaves of `t`; with the read lost it may have seen any rows. */
  ghost predicate Leaves(t: Table, t': Table, c: Cluster, w: int, r: int, lost: Lost) {
    exists rows :: (ReadServers !in lost ==> Lists(rows, t)) && t' == Outcome(t, rows, c, w, r, lost)
  }

  /** With every statement on the rows run there is one outcome only. */
  lemma LeavesSynced(t: Table, t': Table, c: Cluster, w: int, r: int, lost: Lost)
    requires w != r && Leaves(t, t', c, w, r, lost) && RowsServed(lost)
    ensures t' == Synced(t, c, w, r)
  {
    var rows :| (ReadServers !in lost ==> Lists(rows, t)) && t' == Outcome(t, rows, c, w, r, lost);
    OutcomeIsSynced(t, rows, c, w, r, lost);
  }

  /** Every statement on the server rows runs. */
  predicate RowsServed(lost: Lost) {
    lost <= {Tail}
  }

  /** Exactly which keys a call leaves, whatever rows it saw and whichever statements threw. */
  lemma OutcomeHas(t: Table, rows: seq<Server>, c: Cluster, w: int, r: int, lost: Lost, k: Key)
    requires w != r
    ensures var kept := k in Pruned(t, rows, c, w, r, lost);
            k in Outcome(t, rows, c, w, r, lost) <==>
            if k.hostgroup == w then
              (kept || (k.addr in PrimaryAddrs(c) && InsertPrimary !in lost)) && !Moved(c.replicas, k.addr, lost)
            else if k.hostgroup == r then
              (kept && !(k.addr in PrimaryAddrs(c) && DemotePrimary !in lost)) || Inserted(c.replicas, k.addr, lost)
            else k in t
  {
    var pruned := Pruned(t, rows, c, w, r, lost);
    ReplicaPassAt(Placed(pruned, c.primary, w, r, lost), c.replicas, w, r, lost, k);
    if k.hostgroup != w && k.hostgroup != r {
      KeepsForeign(t, rows, c, w, r, lost, k);
    }
  }

  lemma KeepsForeign(t: Table, rows: seq<Server>, c: Cluster, w: int, r: int, lost: Lost, k: Key)
    requires k.hostgroup != w && k.hostgroup != r
    ensures k in Pruned(t, rows, c, w, r, lost) <==> k in t
  {
    var both := Current(rows, w, r);
    assert forall n: nat | n < |both| :: both[n] in both;
  }

  lemma PlacedRow(t: Table, primary: Option<Instance>, w: int, r: int, lost: Lost, k: Key)
    ensures var placed := Placed(t, primary, w, r, lost);
            k in placed ==>
              if k in t then placed[k] == t[k] || placed[k] == DefaultRow(k.addr)
              else primary.Some? && k == Key(w, AddrOf(primary.value)) && placed[k] == DefaultRow(k.addr)
  {
  }

  lemma OutcomeRow(t: Table, rows: seq<Server>, c: Cluster, w: int, r: int, lost: Lost, k: Key)
    requires w != r && k in Outcome(t, rows, c, w, r, lost)
    ensures k in t || k in Expected(c, w, r)
    ensures || Outcome(t, rows, c, w, r, lost)[k] == DefaultRow(k.addr)
            || (k in t && Outcome(t, rows, c, w, r, lost)[k] == t[k])
    ensures k.hostgroup != w && k.hostgroup != r ==> k in t && Outcome(t, rows, c, w, r, lost)[k] == t[k]
  {
    var pruned := Pruned(t, rows, c, w, r, lost);
    var placed := Placed(pruned, c.primary, w, r, lost);
    ReplicaPassAt(placed, c.replicas, w, r, lost, k);
    PlacedRow(pruned, c.primary, w, r, lost, k);
    if k.addr !in ReplicaAddrs(c.replicas) {
      NotMoved(c.replicas, k.addr, lost);
    }
    if k.hostgroup != w && k.hostgroup != r {
      KeepsForeign(t, rows, c, w, r, lost, k);
    }
  }

  /** Other hostgroups are never touched, and a row is either an old one or a default one of the topology. */
  lemma OutcomeSafe(t: Table, rows: seq<Server>, c: Cluster, w: int, r: int, lost: Lost)
    requires w != r
    ensures Foreign(Outcome(t, rows, c, w, r, lost), w, r) == Foreign(t, w, r)
    ensures forall k | k in Outcome(t, rows, c, w, r, lost) ::
              || (k in t && Outcome(t, rows, c, w, r, lost)[k] == t[k])
              || ((k in t || k in Expected(c, w, r)) && Outcome(t, rows, c, w, r, lost)[k] == DefaultRow(k.addr))
  {
    var after := Outcome(t, rows, c, w, r, lost);
    forall k | k in after
      ensures k in t || k in Expected(c, w, r)
      ensures after[k] == DefaultRow(k.addr) || (k in t && after[k] == t[k])
      ensures k.hostgroup != w && k.hostgroup != r ==> k in t && after[k] == t[k]
    {
      OutcomeRow(t, rows, c, w, r, lost, k);
    }
    forall k: Key | k.hostgroup != w && k.hostgroup != r && k in t
      ensures k in after
    {
      OutcomeHas(t, rows, c, w, r, lost, k);
    }
  }

  /** With every statement on the rows run, the call leaves the synced table and reports its counters. */
  lemma OutcomeIsSynced(t: Table, rows: seq<Server>, c: Cluster, w: int, r: int, lost: Lost)
    requires w != r && Lists(rows, t) && RowsServed(lost)
    ensures Outcome(t, rows, c, w, r, lost) == Synced(t, c, w, r)
    ensures OutcomeReport(t, rows, c, w, r, lost) ==
            SyncReport(Added(t, c, w, r), |Stale(t, c, w, r)|, Tail !in lost)
  {
    DoomedRowsAreStale(t, rows, c, w, r, lost);
    PassesMakeSynced(t, c, w, r, lost);
    StaleCounted(t, rows, c, w, r, lost);
    AddedCounted(t, c, w, r, lost);
  }

  lemma StaleCounted(t: Table, rows: seq<Server>, c: Cluster, w: int, r: int, lost: Lost)
    requires w != r && Lists(rows, t) && RowsServed(lost)
    ensures DeleteCount(Current(rows, w, r), ExpectedTexts(c, w, r), lost) == |Stale(t, c, w, r)|
  {
    var both := Current(rows, w, r);
    assert both[..|both|] == both;
    DoomedRowsAreStale(t, rows, c, w, r, lost);
    DeletesCounted(both, |both|, ExpectedTexts(c, w, r), lost);
  }

  lemma AddedCounted(t: Table, c: Cluster, w: int, r: int, lost: Lost)
    requires w != r && RowsServed(lost)
    ensures PlacedCount(t - Stale(t, c, w, r), c.primary, w, r, lost)
            + ReplicaCount(BeforeReplicas(t, c, w, r, lost), c.replicas, w, r, lost) == Added(t, c, w, r)
  {
    assert c.replicas[..|c.replicas|] == c.replicas;
    NewWritersCount(t, c, w, r, lost);
    NewReadersBefore(t, c, w, r, lost);
    ReplicasCounted(BeforeReplicas(t, c, w, r, lost), c.replicas, |c.replicas|, w, r, lost);
  }

  /** The table once the stale rows are gone and the primary is in place. */
  function BeforeReplicas(t: Table, c: Cluster, w: int, r: int, lost: Lost): Table {
    Placed(t - Stale(t, c, w, r), c.primary, w, r, lost)
  }

  lemma BeforeReplicasAt(t: Table, c: Cluster, w: int, r: int, lost: Lost, k: Key)
    requires w != r && RowsServed(lost)
    ensures k in BeforeReplicas(t, c, w, r, lost) <==>
            if k.hostgroup == w then k.addr in PrimaryAddrs(c)
            else if k.hostgroup == r then k in t && k.addr in ReplicaAddrs(c.replicas) - PrimaryAddrs(c)
            else k in t
    ensures k in BeforeReplicas(t, c, w, r, lost) ==>
              BeforeReplicas(t, c, w, r, lost)[k] == if k in t then t[k] else DefaultRow(k.addr)
  {
  }

  lemma SyncedAt(t: Table, c: Cluster, w: int, r: int, k: Key)
    requires w != r && k in Synced(t, c, w, r)
    ensures Synced(t, c, w, r)[k] ==
            if k in t && !(k.hostgroup == r && k.addr in PrimaryAddrs(c)) then t[k] else DefaultRow(k.addr)
  {
  }

  lemma PassesMakeSynced(t: Table, c: Cluster, w: int, r: int, lost: Lost)
    requires w != r && RowsServed(lost)
    ensures ReplicaPass(BeforeReplicas(t, c, w, r, lost), c.replicas, w, r, lost) == Synced(t, c, w, r)
  {
    var before := BeforeReplicas(t, c, w, r, lost);
    var after := ReplicaPass(before, c.replicas, w, r, lost);
    forall k
      ensures k in after <==> k in Synced(t, c, w, r)
      ensures k in after ==> after[k] == Synced(t, c, w, r)[k]
    {
      BeforeReplicasAt(t, c, w, r, lost, k);
      ReplicaPassAt(before, c.replicas, w, r, lost, k);
      AllInserted(c.replicas, k.addr, lost);
      SyncedHas(t, c, w, r, k);
      if k in after {
        SyncedAt(t, c, w, r, k);
      }
    }
  }

  /** The replica inserts that succeed are those of new readers. */
  lemma NewReadersBefore(t: Table, c: Cluster, w: int, r: int, lost: Lost)
    requires w != r && RowsServed(lost)
    ensures NewReaders(t, c, r) == Newcomers(BeforeReplicas(t, c, w, r, lost), c.replicas, r)
  {
    forall a | a in ReplicaAddrs(c.replicas)
      ensures a in NewReaders(t, c, r) <==> Key(r, a) !in BeforeReplicas(t, c, w, r, lost)
    {
      BeforeReplicasAt(t, c, w, r, lost, Key(r, a));
    }
  }

  lemma NewWritersCount(t: Table, c: Cluster, w: int, r: int, lost: Lost)
    requires w != r && RowsServed(lost)
    ensures |NewWriters(t, c, w)| == PlacedCount(t - Stale(t, c, w, r), c.primary, w, r, lost)
  {
    assert NewWriters(t, c, w) ==
           if c.primary.Some? && Key(w, AddrOf(c.primary.value)) !in t then {AddrOf(c.primary.value)} else {};
  }

  lemma PrunedKeepsExpected(t: Table, rows: seq<Server>, c: Cluster, w: int, r: int, lost: Lost, k: Key)
    ensures k in Pruned(t, rows, c, w, r, lost) ==> k in t
    ensures k in t && k in Expected(c, w, r) ==> k in Pruned(t, rows, c, w, r, lost)
  {
  }

  lemma NotMoved(replicas: seq<Instance>, a: Addr, lost: Lost)
    requires a !in ReplicaAddrs(replicas)
    ensures !Moved(replicas, a, lost) && !Inserted(replicas, a, lost)
  {
  }

  lemma ServesAt(t: Table, rows: seq<Server>, c: Cluster, w: int, r: int, lost: Lost, k: Key)
    requires w != r
    ensures (k in Outcome(t, rows, c, w, r, lost) <==> k in Synced(t, c, w, r)) <==>
            if k.hostgroup == w && k.addr in PrimaryAddrs(c) then WriterRan(t, c, w, lost, k.addr)
            else if k.hostgroup == r && k.addr in ReplicaAddrs(c.replicas) then ReaderRan(t, c, r, lost, k.addr)
            else k in Stale(t, c, w, r) ==> Cleared(rows, c, w, r, lost, k)
  {
    OutcomeHas(t, rows, c, w, r, lost, k);
    SyncedHas(t, c, w, r, k);
    PrunedKeepsExpected(t, rows, c, w, r, lost, k);
    if k in Stale(t, c, w, r) {
      StalePruned(t, rows, c, w, r, lost, k);
    }
    if k.addr !in ReplicaAddrs(c.replicas) {
      NotMoved(c.replicas, k.addr, lost);
    }
  }

  /** The writer row of the primary comes, and goes again when the primary is also a replica. */
  predicate WriterRan(t: Table, c: Cluster, w: int, lost: Lost, a: Addr) {
    if a in ReplicaAddrs(c.replicas)
    then Moved(c.replicas, a, lost) || (Key(w, a) !in t && InsertPrimary in lost)
    else Key(w, a) in t || InsertPrimary !in lost
  }

  /** The reader row of a replica comes or was there, unless it is deleted as the primary's. */
  predicate ReaderRan(t: Table, c: Cluster, r: int, lost: Lost, a: Addr) {
    Inserted(c.replicas, a, lost) || (Key(r, a) in t && !(a in PrimaryAddrs(c) && DemotePrimary !in lost))
  }

  /** The row `k` was read and its DELETE runs. */
  predicate DeleteRan(rows: seq<Server>, w: int, r: int, lost: Lost, k: Key) {
    exists n: nat | n < |Current(rows, w, r)| :: Current(rows, w, r)[n].key == k && DeleteStale(n) !in lost
  }

  lemma StalePruned(t: Table, rows: seq<Server>, c: Cluster, w: int, r: int, lost: Lost, k: Key)
    requires k in Stale(t, c, w, r)
    ensures k !in Pruned(t, rows, c, w, r, lost) <==> DeleteRan(rows, w, r, lost, k)
  {
    assert KeyText(k) !in ExpectedTexts(c, w, r);
  }

  /** The stale row `k` goes: by its own DELETE, or by that of the replica or primary that moved. */
  predicate Cleared(rows: seq<Server>, c: Cluster, w: int, r: int, lost: Lost, k: Key) {
    || DeleteRan(rows, w, r, lost, k)
    || (k.hostgroup == w && Moved(c.replicas, k.addr, lost))
    || (k.hostgroup == r && k.addr in PrimaryAddrs(c) && DemotePrimary !in lost)
  }

  /** The statements a call cannot do without: what has to be inserted, what has to move and what has to go. */
  predicate NeededRan(t: Table, rows: seq<Server>, c: Cluster, w: int, r: int, lost: Lost) {
    && (forall a | a in PrimaryAddrs(c) :: WriterRan(t, c, w, lost, a))
    && (forall a | a in ReplicaAddrs(c.replicas) :: ReaderRan(t, c, r, lost, a))
    && (forall k | k in Stale(t, c, w, r) :: Cleared(rows, c, w, r, lost, k))
  }

  /** Exactly when a call with lost statements still serves the right servers, which its report does not tell. */
  lemma ServesExactly(t: Table, rows: seq<Server>, c: Cluster, w: int, r: int, lost: Lost)
    requires w != r
    ensures Outcome(t, rows, c, w, r, lost).Keys == Synced(t, c, w, r).Keys <==> NeededRan(t, rows, c, w, r, lost)
  {
    var after, synced := Outcome(t, rows, c, w, r, lost), Synced(t, c, w, r);
    if NeededRan(t, rows, c, w, r, lost) {
      forall k
        ensures k in after <==> k in synced
      {
        ServesAt(t, rows, c, w, r, lost, k);
      }
    }
    if after.Keys == synced.Keys {
      ServingNeeds(t, rows, c, w, r, lost);
    }
  }

  lemma ServingNeeds(t: Table, rows: seq<Server>, c: Cluster, w: int, r: int, lost: Lost)
    requires w != r && Outcome(t, rows, c, w, r, lost).Keys == Synced(t, c, w, r).Keys
    ensures NeededRan(t, rows, c, w, r, lost)
  {
    var after, synced := Outcome(t, rows, c, w, r, lost), Synced(t, c, w, r);
    assert forall k :: k in after <==> k in synced;
    forall a | a in PrimaryAddrs(c)
      ensures WriterRan(t, c, w, lost, a)
    {
      ServesAt(t, rows, c, w, r, lost, Key(w, a));
    }
    forall a | a in ReplicaAddrs(c.replicas)
      ensures ReaderRan(t, c, r, lost, a)
    {
      ServesAt(t, rows, c, w, r, lost, Key(r, a));
    }
    forall k | k in Stale(t, c, w, r)
      ensures Cleared(rows, c, w, r, lost, k)
    {
      ServesAt(t, rows, c, w, r, lost, k);
    }
  }

  /** A reader row of a primary that is also a replica is a default one already, or its DELETE ran. */
  predicate RewriteRan(t: Table, c: Cluster, r: int, lost: Lost) {
    forall a | a in PrimaryAddrs(c) * ReplicaAddrs(c.replicas) && Key(r, a) in t && DemotePrimary in lost ::
      t[Key(r, a)] == DefaultRow(a)
  }

  lemma OwnedServes(t: Table, rows: seq<Server>, c: Cluster, w: int, r: int, lost: Lost)
    requires w != r
    ensures Owned(Outcome(t, rows, c, w, r, lost), w, r) == Wanted(c, w, r) <==>
            Outcome(t, rows, c, w, r, lost).Keys == Synced(t, c, w, r).Keys
  {
    var after, synced := Outcome(t, rows, c, w, r, lost), Synced(t, c, w, r);
    OwnedAfter(t, c, w, r);
    forall k: Key | k.hostgroup != w && k.hostgroup != r
      ensures k in after <==> k in synced
    {
      OutcomeHas(t, rows, c, w, r, lost, k);
      SyncedHas(t, c, w, r, k);
    }
    if Owned(after, w, r) == Owned(synced, w, r) {
      forall k
        ensures k in after <==> k in synced
      {
        assert k in Owned(after, w, r) <==> k in Owned(synced, w, r);
      }
    }
  }

  lemma DoubledRow(t: Table, rows: seq<Server>, c: Cluster, w: int, r: int, lost: Lost, a: Addr)
    requires w != r && a in PrimaryAddrs(c) * ReplicaAddrs(c.replicas)
    ensures Key(r, a) in Outcome(t, rows, c, w, r, lost) ==>
              Outcome(t, rows, c, w, r, lost)[Key(r, a)] ==
              if Key(r, a) in t && DemotePrimary in lost then t[Key(r, a)] else DefaultRow(a)
  {
    var pruned := Pruned(t, rows, c, w, r, lost);
    PrunedKeepsExpected(t, rows, c, w, r, lost, Key(r, a));
    ReplicaPassAt(Placed(pruned, c.primary, w, r, lost), c.replicas, w, r, lost, Key(r, a));
  }

  lemma RewritesExactly(t: Table, rows: seq<Server>, c: Cluster, w: int, r: int, lost: Lost)
    requires w != r && NeededRan(t, rows, c, w, r, lost)
    ensures RewritesNothing(Outcome(t, rows, c, w, r, lost), c, r) <==> RewriteRan(t, c, r, lost)
  {
    var after := Outcome(t, rows, c, w, r, lost);
    forall a | a in PrimaryAddrs(c) * ReplicaAddrs(c.replicas)
      ensures Key(r, a) in after
      ensures after[Key(r, a)] == if Key(r, a) in t && DemotePrimary in lost then t[Key(r, a)] else DefaultRow(a)
    {
      ServesExactly(t, rows, c, w, r, lost);
      SyncedHas(t, c, w, r, Key(r, a));
      assert Key(r, a) in after.Keys;
      DoubledRow(t, rows, c, w, r, lost, a);
    }
  }

  /**
   Exactly when a call with lost statements leaves nothing for the next one to do: it serves the right
   servers and the reader row of a primary that is also a replica needs no rewriting.
   */
  lemma SettlesExactly(t: Table, rows: seq<Server>, c: Cluster, w: int, r: int, lost: Lost)
    requires w != r
    ensures Synced(Outcome(t, rows, c, w, r, lost), c, w, r) == Outcome(t, rows, c, w, r, lost) <==>
            NeededRan(t, rows, c, w, r, lost) && RewriteRan(t, c, r, lost)
  {
    UpToDateExactly(Outcome(t, rows, c, w, r, lost), c, w, r);
    OwnedServes(t, rows, c, w, r, lost);
    ServesExactly(t, rows, c, w, r, lost);
    if NeededRan(t, rows, c, w, r, lost) {
      RewritesExactly(t, rows, c, w, r, lost);
    }
  }

  lemma {:induction false} SharedPassAt(t: Table, replicas: seq<Instance>, g: int, lost: Lost, k: Key)
    requires RowsServed(lost)
    ensures k in ReplicaPass(t, replicas, g, g, lost) <==>
            k in t || (k.hostgroup == g && k.addr in ReplicaAddrs(replicas))
    decreases |replicas|
  {
    if replicas == [] {
    } else {
      var last := |replicas| - 1;
      SharedPassAt(t, replicas[..last], g, lost, k);
      AddrsSnoc(replicas, last);
      assert replicas[..last + 1] == replicas;
    }
  }

  lemma PrunedShared(t: Table, rows: seq<Server>, c: Cluster, g: int, lost: Lost, k: Key)
    requires Lists(rows, t) && RowsServed(lost)
    ensures k in Pruned(t, rows, c, g, g, lost) <==>
            k in t && (k.hostgroup == g ==> k.addr in PrimaryAddrs(c) + ReplicaAddrs(c.replicas))
  {
    DoomedRowsAreStale(t, rows, c, g, g, lost);
  }

  lemma SharedAt(t: Table, rows: seq<Server>, c: Cluster, g: int, lost: Lost, k: Key)
    requires Lists(rows, t) && RowsServed(lost)
    ensures k in Outcome(t, rows, c, g, g, lost) <==>
            if k.hostgroup == g then k.addr in PrimaryAddrs(c) + ReplicaAddrs(c.replicas) else k in t
  {
    PrunedShared(t, rows, c, g, lost, k);
    SharedPassAt(Placed(Pruned(t, rows, c, g, g, lost), c.primary, g, g, lost), c.replicas, g, lost, k);
  }

  /** With one hostgroup for both roles, it serves primary and replicas alike and others stay as they are. */
  lemma SharedHostgroup(t: Table, rows: seq<Server>, c: Cluster, g: int, lost: Lost)
    requires Lists(rows, t) && RowsServed(lost)
    ensures Members(Outcome(t, rows, c, g, g, lost), g) == PrimaryAddrs(c) + ReplicaAddrs(c.replicas)
    ensures forall k: Key | k.hostgroup != g :: k in Outcome(t, rows, c, g, g, lost) <==> k in t
  {
    var after := Outcome(t, rows, c, g, g, lost);
    forall k: Key
      ensures k in after <==>
              if k.hostgroup == g then k.addr in PrimaryAddrs(c) + ReplicaAddrs(c.replicas) else k in t
    {
      SharedAt(t, rows, c, g, lost, k);
    }
    forall a | a in PrimaryAddrs(c) + ReplicaAddrs(c.replicas)
      ensures a in Members(after, g)
    {
      assert Key(g, a) in after;
    }
  }

  const EMPTY: Table := map[]

  /** An INSERT of the primary that is swallowed leaves no writer in an empty table, yet the call reports success. */
  lemma SwallowedInsert(c: Cluster, w: int, r: int)
    requires w != r && c.primary.Some?
    ensures Members(Outcome(EMPTY, [], c, w, r, {InsertPrimary}), w) == {}
    ensures OutcomeReport(EMPTY, [], c, w, r, {InsertPrimary}).success
  {
    forall k: Key | k.hostgroup == w
      ensures k !in Outcome(EMPTY, [], c, w, r, {InsertPrimary})
    {
      OutcomeHas(EMPTY, [], c, w, r, {InsertPrimary}, k);
    }
  }

  // ---------------------------------------------------------------------------
  // The object
  // ---------------------------------------------------------------------------

  class ProxySQLManager {
    var table: Table                    // the remote mysql_servers table
    var servers: map<string, Server>    // the in-memory copy

    constructor (table: Table)
      ensures this.table == table && servers == map[]
    {
      this.table := table;
      servers := map[];
    }

    /** The rows of the table, in whatever order the SELECT returns them. */
    method ReadTable() returns (rows: seq<Server>)
      ensures Lists(rows, table)
    {
      rows := [];
      var pending := table.Keys;
      while pending != {}
        invariant pending <= table.Keys
        invariant Distinct(rows)
        invariant forall i | 0 <= i < |rows| ::
                    rows[i].key in table && rows[i].key !in pending && rows[i].row == table[rows[i].key]
        invariant forall k | k in table && k !in pending :: exists i :: 0 <= i < |rows| && rows[i].key == k
      {
        var k :| k in pending;
        ghost var was := rows;
        rows := rows + [Server(k, table[k])];
        pending := pending - {k};
        forall l | l in table && l !in pending
          ensures exists i :: 0 <= i < |rows| && rows[i].key == l
        {
          if l == k {
            assert rows[|was|].key == l;
          } else {
            var i :| 0 <= i < |was| && was[i].key == l;
            assert rows[i].key == l;
          }
        }
      }
    }

    /** Rebuilds the copy from freshly read rows. */
    method Refresh(rows: seq<Server>)
      requires Lists(rows, table)
      modifies this`servers
      ensures Mirrors(servers, table)
    {
      servers := map[];
      for n := 0 to |rows|
        invariant CopiedTo(servers, rows, n) && Copies(servers, table)
      {
        CopiesOne(servers, rows, n, table);
        servers := servers[KeyText(rows[n].key) := rows[n]];
      }
      AllCopied(servers, rows, table);
    }

    /** The values of the copy. */
    method CachedRows() returns (rows: seq<Server>)
      ensures forall s :: s in rows <==> exists text :: text in servers && servers[text] == s
    {
      rows := [];
      var pending := servers.Keys;
      while pending != {}
        invariant pending <= servers.Keys
        invariant forall s | s in rows :: exists text :: text in servers && servers[text] == s
        invariant forall text | text in servers && text !in pending :: servers[text] in rows
      {
        var text :| text in pending;
        rows := rows + [servers[text]];
        pending := pending - {text};
      }
    }

    /** Reads the table and rebuilds the copy; falls back to the copy when the table cannot be read. */
    method GetServers(answers: bool, hostgroup: Option<int>) returns (rows: seq<Server>)
      modifies this`servers
      ensures answers ==> Mirrors(servers, table)
      ensures answers ==> exists all :: Lists(all, table) && rows == Chosen(all, hostgroup)
      ensures !answers ==> servers == old(servers)
      ensures !answers ==> forall s :: s in rows <==>
                && (hostgroup.None? || s.key.hostgroup == hostgroup.value)
                && exists text :: text in servers && servers[text] == s
    {
      if answers {
        rows := ReadTable();
        Refresh(rows);
        rows := Chosen(rows, hostgroup);
      } else {
        rows := CachedRows();
        rows := Chosen(rows, hostgroup);
      }
    }

    method DeleteRow(k: Key, answers: bool) returns (ok: bool)
      modifies this`table
      ensures ok == answers
      ensures table == if answers then Delete(old(table), k) else old(table)
    {
      ok := answers;
      if answers {
        table := table - {k};
      }
    }

    /** Fails on an existing key. */
    method InsertRow(k: Key, answers: bool) returns (ok: bool)
      modifies this`table
      ensures ok == (answers && k !in old(table))
      ensures table == if answers then Insert(old(table), k) else old(table)
    {
      ok := answers && k !in table;
      if ok {
        table := table[k := DefaultRow(k.addr)];
      }
    }

    method ExpectedServers(c: Cluster, w: int, r: int) returns (texts: set<string>)
      ensures texts == ExpectedTexts(c, w, r)
    {
      texts := {};
      assert KeyTexts({}) == {};
      if c.primary.Some? {
        KeyTextsPlus({}, Key(w, AddrOf(c.primary.value)));
        texts := texts + {KeyText(Key(w, AddrOf(c.primary.value)))};
        assert ExpectedSoFar(c, w, r, 0) == {} + {Key(w, AddrOf(c.primary.value))};
      } else {
        assert ExpectedSoFar(c, w, r, 0) == {};
      }
      for n := 0 to |c.replicas|
        invariant texts == KeyTexts(ExpectedSoFar(c, w, r, n))
      {
        OneMoreExpected(c, w, r, n);
        texts := texts + {KeyText(Key(r, AddrOf(c.replicas[n])))};
      }
      assert c.replicas[..|c.replicas|] == c.replicas;
    }

    lemma WithoutOneMore(t: Table, gone: set<Key>, k: Key)
      ensures (t - gone) - {k} == t - (gone + {k})
    {
    }

    /** A DELETE that throws is swallowed and not counted. */
    method RemoveStale(rows: seq<Server>, expected: set<string>, lost: Lost) returns (removed: nat)
      modifies this`table
      ensures table == old(table) - DeletedKeys(rows, expected, lost)
      ensures removed == DeleteCount(rows, expected, lost)
    {
      removed := 0;
      ghost var gone: set<Key> := {};
      for n := 0 to |rows|
        invariant gone == DeletedKeys(rows[..n], expected, lost) && removed == DeleteCount(rows[..n], expected, lost)
        invariant table == old(table) - gone
      {
        OneMoreDeleted(rows, n, expected, lost);
        if KeyText(rows[n].key) !in expected {
          var ok := DeleteRow(rows[n].key, DeleteStale(n) !in lost);
          if ok {
            WithoutOneMore(old(table), gone, rows[n].key);
            gone := gone + {rows[n].key};
            removed := removed + 1;
          }
        }
      }
      assert rows[..|rows|] == rows;
    }

    method PlacePrimary(primary: Option<Instance>, w: int, r: int, lost: Lost) returns (added: nat)
      modifies this`table
      ensures table == Placed(old(table), primary, w, r, lost)
      ensures added == PlacedCount(old(table), primary, w, r, lost)
    {
      added := 0;
      if primary.Some? {
        var a := AddrOf(primary.value);
        var _ := DeleteRow(Key(r, a), DemotePrimary !in lost);
        var inserted := InsertRow(Key(w, a), InsertPrimary !in lost);
        added := if inserted then 1 else 0;
      }
    }

    method AddReplicas(replicas: seq<Instance>, w: int, r: int, lost: Lost) returns (added: nat)
      modifies this`table
      ensures table == ReplicaPass(old(table), replicas, w, r, lost)
      ensures added == ReplicaCount(old(table), replicas, w, r, lost)
    {
      added := 0;
      for n := 0 to |replicas|
        invariant table == ReplicaPass(old(table), replicas[..n], w, r, lost)
        invariant added == ReplicaCount(old(table), replicas[..n], w, r, lost)
      {
        var a := AddrOf(replicas[n]);
        OneMoreCounted(old(table), replicas, n, w, r, lost);
        var moved := DeleteRow(Key(w, a), MoveReplica(n) !in lost);
        if moved {
          var inserted := InsertRow(Key(r, a), InsertReplica(n) !in lost);
          if inserted {
            added := added + 1;
          }
        }
      }
      assert replicas[..|replicas|] == replicas;
    }

    /** The statements on the server rows, in order. */
    method RunStatements(c: Cluster, w: int, r: int, lost: Lost) returns (report: SyncReport, ghost rows: seq<Server>)
      modifies this
      ensures ReadServers !in lost ==> Lists(rows, old(table))
      ensures ReadServers in lost ==>
                forall s :: s in rows <==> exists text :: text in old(servers) && old(servers)[text] == s
      ensures table == Outcome(old(table), rows, c, w, r, lost)
      ensures report == OutcomeReport(old(table), rows, c, w, r, lost)
    {
      var current := GetServers(ReadServers !in lost, None);
      rows := current;
      var expected := ExpectedServers(c, w, r);
      var removed := RemoveStale(Current(current, w, r), expected, lost);
      var added := PlacePrimary(c.primary, w, r, lost);
      var more := AddReplicas(c.replicas, w, r, lost);
      report := SyncReport(added + more, removed, Tail !in lost);
    }

    /**
     One reconciliation; `rows` are the rows it saw, those of the copy when the table could not be read.
     Whatever is lost among the server rows is swallowed: only the tail decides about success.
     */
    method SyncCluster(c: Cluster, w: int, r: int, lost: Lost) returns (report: SyncReport, ghost rows: seq<Server>)
      modifies this
      ensures ReadServers !in lost ==> Lists(rows, old(table))
      ensures ReadServers in lost ==>
                forall s :: s in rows <==> exists text :: text in old(servers) && old(servers)[text] == s
      ensures table == Outcome(old(table), rows, c, w, r, lost)
      ensures report == OutcomeReport(old(table), rows, c, w, r, lost)
      ensures w != r && RowsServed(lost) ==>
                && table == Synced(old(table), c, w, r)
                && report == SyncReport(Added(old(table), c, w, r), |Stale(old(table), c, w, r)|, Tail !in lost)
    {
      report, rows := RunStatements(c, w, r, lost);
      if w != r && RowsServed(lost) {
        OutcomeIsSynced(old(table), rows, c, w, r, lost);
      }
    }
  }
}
