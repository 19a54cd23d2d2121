/** The cluster provisioner: first-fit allocation of ports and hostgroup blocks over whole runs. */
module Provisioner {
  import opened Text
  import opened Topology
  import opened ServerTable

  datatype Settings = Settings(portStart: int, portEnd: int, hostgroupStart: int, hostgroupEnd: int)

  datatype ProvisionStatus = Provisioning | Ready | ProvisionFailed

  datatype Allocation = Allocation(port: int, writer: int, reader: int)

  /** A row of cluster_metadata; the three numbers are NULL until resources are allocated. */
  datatype Metadata = Metadata(status: ProvisionStatus, held: Option<Allocation>)

  type Rows = map<string, Metadata>

  function UsedPorts(rows: Rows): set<int> {
    set id | id in rows && rows[id].held.Some? :: rows[id].held.value.port
  }

  function UsedWriters(rows: Rows): set<int> {
    set id | id in rows && rows[id].held.Some? :: rows[id].held.value.writer
  }

  // ---------------------------------------------------------------------------
  // First fit
  // ---------------------------------------------------------------------------

  /** The first number of lo, lo + step, ... up to `hi` that is not used. */
  function FirstFree(used: set<int>, lo: int, hi: int, step: nat): Option<int>
    requires step > 0
    decreases hi - lo
  {
    if lo > hi then None
    else if lo in used then FirstFree(used, lo + step, hi, step)
    else Some(lo)
  }

  /** `n` is a candidate: in range and a whole number of steps from the start. */
  predicate Candidate(n: int, lo: int, hi: int, step: nat)
    requires step > 0
  {
    lo <= n <= hi && (n - lo) % step == 0
  }

  /** The least unused candidate is found, and none exactly when every candidate is used. */
  lemma {:induction false} FirstFreeIsLeast(used: set<int>, lo: int, hi: int, step: nat)
    requires step > 0
    ensures FirstFree(used, lo, hi, step).Some? ==>
              && Candidate(FirstFree(used, lo, hi, step).value, lo, hi, step)
              && FirstFree(used, lo, hi, step).value !in used
    ensures forall n | Candidate(n, lo, hi, step) && n !in used ::
              FirstFree(used, lo, hi, step).Some? && FirstFree(used, lo, hi, step).value <= n
    decreases hi - lo
  {
    if lo > hi || lo !in used {
    } else {
      FirstFreeIsLeast(used, lo + step, hi, step);
      var r := FirstFree(used, lo, hi, step);
      forall n | lo <= n <= hi
        ensures Candidate(n, lo, hi, step) <==> n == lo || Candidate(n, lo + step, hi, step)
      {
        StepsApart(n, lo, step);
      }
      assert r.Some? ==> Candidate(r.value, lo, hi, step);
    }
  }

  lemma StepsApart(n: int, lo: int, step: nat)
    requires step > 0 && lo <= n
    ensures (n - lo) % step == 0 <==> n == lo || (lo + step <= n && (n - (lo + step)) % step == 0)
  {
    var d := n - lo;
    if d >= step {
      assert (d - step) % step == d % step by {
        assert d == step * (d / step) + d % step;
        assert d - step == step * (d / step - 1) + d % step;
        RemainderUnique(d - step, step, d / step - 1, d % step);
      }
    }
  }

  lemma RemainderUnique(x: int, m: nat, q: int, r: nat)
    requires m > 0 && x == m * q + r && r < m
    ensures x % m == r
  {
    var d := x / m - q;
    assert m * d == r - x % m;
    assert d >= 1 ==> m * d >= m;
    assert d <= -1 ==> m * d + m <= 0;
  }

  /** Running out needs a used number for every candidate: more than `(hi - lo) / step` of them. */
  lemma {:induction false} ExhaustionNeedsAll(used: set<int>, lo: int, hi: int, step: nat)
    requires step > 0 && FirstFree(used, lo, hi, step).None?
    ensures |used| * step > hi - lo
    decreases hi - lo
  {
    if lo > hi {
    } else {
      var rest := used - {lo};
      SkipsBelow(used, rest, lo + step, hi, step);
      ExhaustionNeedsAll(rest, lo + step, hi, step);
      assert |used| == |rest| + 1;
      assert (|rest| + 1) * step == |rest| * step + step;
    }
  }

  lemma {:induction false} SkipsBelow(used: set<int>, rest: set<int>, lo: int, hi: int, step: nat)
    requires step > 0 && forall n | lo <= n <= hi :: n in used <==> n in rest
    ensures FirstFree(used, lo, hi, step) == FirstFree(rest, lo, hi, step)
    decreases hi - lo
  {
    if lo > hi {
    } else {
      SkipsBelow(used, rest, lo + step, hi, step);
    }
  }

  function Allocate(cfg: Settings, rows: Rows): Option<Allocation> {
    var port := FirstFree(UsedPorts(rows), cfg.portStart, cfg.portEnd, 1);
    var writer := FirstFree(UsedWriters(rows), cfg.hostgroupStart, cfg.hostgroupEnd, 10);
    if port.None? || writer.None? then None else Some(Allocation(port.value, writer.value, writer.value + 10))
  }

  // ---------------------------------------------------------------------------
  // Runs
  // ---------------------------------------------------------------------------

  /** `valid`: the template exists and fits the hosts; `works`: every later step succeeds. */
  datatype Event =
    | Provision(id: string, valid: bool, works: bool)
    | Deprovision(id: string, works: bool)

  /** An id that already has a row is refused by the INSERT. */
  function ProvisionRows(cfg: Settings, rows: Rows, id: string, valid: bool, works: bool): Rows {
    if !valid || id in rows then rows
    else
      var held := Allocate(cfg, rows);
      rows[id := Metadata(if held.Some? && works then Ready else ProvisionFailed, held)]
  }

  /** Both hostgroups must be set and not 0. */
  predicate Complete(m: Metadata) {
    m.held.Some? && m.held.value.writer != 0 && m.held.value.reader != 0
  }

  function DeprovisionRows(rows: Rows, id: string, works: bool): Rows {
    if id in rows && Complete(rows[id]) && works then rows - {id} else rows
  }

  function Next(cfg: Settings, rows: Rows, e: Event): Rows {
    match e
    case Provision(id, valid, works) => ProvisionRows(cfg, rows, id, valid, works)
    case Deprovision(id, works) => DeprovisionRows(rows, id, works)
  }

  function Run(cfg: Settings, rows: Rows, events: seq<Event>): Rows
    decreases |events|
  {
    if events == [] then rows else Run(cfg, Next(cfg, rows, events[0]), events[1..])
  }

  /** The row a provision writes: ready when everything works, failed otherwise, with what was allocated. */
  lemma ProvisionWrites(cfg: Settings, rows: Rows, id: string, valid: bool, works: bool)
    ensures var rows' := Next(cfg, rows, Provision(id, valid, works));
            if !valid || id in rows then rows' == rows
            else
              && rows'.Keys == rows.Keys + {id} && (forall x | x in rows :: rows'[x] == rows[x])
              && rows'[id].held == Allocate(cfg, rows)
              && rows'[id].status == if works && Allocate(cfg, rows).Some? then Ready else ProvisionFailed
  {
  }

  /** A deprovision takes away its own row or nothing. */
  lemma DeprovisionTakes(cfg: Settings, rows: Rows, id: string, works: bool)
    ensures var rows' := Next(cfg, rows, Deprovision(id, works));
            rows' == if works && id in rows && rows[id].held.Some?
                        && rows[id].held.value.writer != 0 && rows[id].held.value.reader != 0
                     then rows - {id} else rows
  {
  }

  /** Both hostgroups of the block are emptied and no other row goes. */
  lemma WipedExactly(t: Table, w: int, r: int, k: Key)
    ensures k in Wiped(t, w, r) <==> k in t && k.hostgroup != w && k.hostgroup != r
    ensures k in Wiped(t, w, r) ==> Wiped(t, w, r)[k] == t[k]
  {
  }

  predicate Apart(a: Allocation, b: Allocation) {
    a.port != b.port && a.writer != b.writer
  }

  /** Ports and writer hostgroups are in range and on the grid, and no two clusters share either. */
  predicate Sound(cfg: Settings, rows: Rows) {
    && (forall id | id in rows && rows[id].held.Some? ::
          var a := rows[id].held.value;
          && cfg.portStart <= a.port <= cfg.portEnd
          && Candidate(a.writer, cfg.hostgroupStart, cfg.hostgroupEnd, 10)
          && a.reader == a.writer + 10)
    && (forall i, j | i in rows && j in rows && i != j && rows[i].held.Some? && rows[j].held.Some? ::
          Apart(rows[i].held.value, rows[j].held.value))
  }

  lemma AllocationIsFree(cfg: Settings, rows: Rows)
    requires Allocate(cfg, rows).Some?
    ensures var a := Allocate(cfg, rows).value;
            && cfg.portStart <= a.port <= cfg.portEnd && a.port !in UsedPorts(rows)
            && Candidate(a.writer, cfg.hostgroupStart, cfg.hostgroupEnd, 10) && a.writer !in UsedWriters(rows)
            && a.reader == a.writer + 10
            && (forall p | cfg.portStart <= p < a.port :: p in UsedPorts(rows))
            && (forall w | Candidate(w, cfg.hostgroupStart, cfg.hostgroupEnd, 10) && w < a.writer ::
                  w in UsedWriters(rows))
  {
    FirstFreeIsLeast(UsedPorts(rows), cfg.portStart, cfg.portEnd, 1);
    FirstFreeIsLeast(UsedWriters(rows), cfg.hostgroupStart, cfg.hostgroupEnd, 10);
    forall p | cfg.portStart <= p < Allocate(cfg, rows).value.port
      ensures p in UsedPorts(rows)
    {
      assert Candidate(p, cfg.portStart, cfg.portEnd, 1);
    }
  }

  /** Allocation fails exactly when every port or every block of the range is held. */
  lemma AllocationFailsExactly(cfg: Settings, rows: Rows)
    ensures Allocate(cfg, rows).None? <==>
            || (forall p | cfg.portStart <= p <= cfg.portEnd :: p in UsedPorts(rows))
            || (forall w | Candidate(w, cfg.hostgroupStart, cfg.hostgroupEnd, 10) :: w in UsedWriters(rows))
  {
    FirstFreeIsLeast(UsedPorts(rows), cfg.portStart, cfg.portEnd, 1);
    FirstFreeIsLeast(UsedWriters(rows), cfg.hostgroupStart, cfg.hostgroupEnd, 10);
    assert forall p | cfg.portStart <= p <= cfg.portEnd :: Candidate(p, cfg.portStart, cfg.portEnd, 1);
  }

  lemma {:induction false} HeldCount(rows: Rows)
    ensures |UsedPorts(rows)| <= |rows| && |UsedWriters(rows)| <= |rows|
    decreases |rows|
  {
    if rows == map[] {
    } else {
      var id :| id in rows;
      var rest := rows - {id};
      HeldCount(rest);
      HeldWithout(rows, id);
    }
  }

  lemma HeldWithout(rows: Rows, id: string)
    requires id in rows
    ensures var held := rows[id].held;
            && UsedPorts(rows) == UsedPorts(rows - {id}) + (if held.Some? then {held.value.port} else {})
            && UsedWriters(rows) == UsedWriters(rows - {id}) + (if held.Some? then {held.value.writer} else {})
  {
    var rest := rows - {id};
    forall x | x in rows && rows[x].held.Some?
      ensures x == id || (rows[x].held.value.port in UsedPorts(rest) && rows[x].held.value.writer in UsedWriters(rest))
    {
      assert x != id ==> x in rest && rest[x] == rows[x];
    }
    forall x | x in rest && rest[x].held.Some?
      ensures rest[x].held.value.port in UsedPorts(rows) && rest[x].held.value.writer in UsedWriters(rows)
    {
      assert x in rows && rest[x] == rows[x];
    }
  }

  /** As long as there are fewer rows than ports and than blocks in the ranges, allocation succeeds. */
  lemma FewRowsAllocate(cfg: Settings, rows: Rows)
    requires |rows| <= cfg.portEnd - cfg.portStart
    requires |rows| * 10 <= cfg.hostgroupEnd - cfg.hostgroupStart
    ensures Allocate(cfg, rows).Some?
  {
    HeldCount(rows);
    if FirstFree(UsedPorts(rows), cfg.portStart, cfg.portEnd, 1).None? {
      ExhaustionNeedsAll(UsedPorts(rows), cfg.portStart, cfg.portEnd, 1);
    }
    if FirstFree(UsedWriters(rows), cfg.hostgroupStart, cfg.hostgroupEnd, 10).None? {
      ExhaustionNeedsAll(UsedWriters(rows), cfg.hostgroupStart, cfg.hostgroupEnd, 10);
    }
  }

  lemma NextSound(cfg: Settings, rows: Rows, e: Event)
    requires Sound(cfg, rows)
    ensures Sound(cfg, Next(cfg, rows, e))
  {
    if e.Provision? && e.valid && e.id !in rows && Allocate(cfg, rows).Some? {
      AllocationIsFree(cfg, rows);
      var a := Allocate(cfg, rows).value;
      forall id | id in rows && rows[id].held.Some?
        ensures Apart(rows[id].held.value, a)
      {
        assert rows[id].held.value.port in UsedPorts(rows);
        assert rows[id].held.value.writer in UsedWriters(rows);
      }
    }
  }

  /** Over every sequence of provisions and deprovisions, failing ones included. */
  lemma {:induction false} RunSound(cfg: Settings, rows: Rows, events: seq<Event>)
    requires Sound(cfg, rows)
    ensures Sound(cfg, Run(cfg, rows, events))
    decreases |events|
  {
    if events == [] {
    } else {
      NextSound(cfg, rows, events[0]);
      RunSound(cfg, Next(cfg, rows, events[0]), events[1..]);
    }
  }

  // ---------------------------------------------------------------------------
  // What a failed allocation leaves behind
  // ---------------------------------------------------------------------------

  /** A cluster whose provisioning failed before allocation can never be removed or provisioned again. */
  lemma {:induction false} StuckForever(cfg: Settings, rows: Rows, id: string, events: seq<Event>)
    requires id in rows && !Complete(rows[id])
    ensures id in Run(cfg, rows, events) && Run(cfg, rows, events)[id] == rows[id]
    decreases |events|
  {
    if events == [] {
    } else {
      StuckForever(cfg, Next(cfg, rows, events[0]), id, events[1..]);
    }
  }

  /** A working deprovision frees exactly the rows that hold resources with both hostgroups other than 0. */
  lemma RemovableExactly(cfg: Settings, rows: Rows, id: string)
    requires Sound(cfg, rows) && id in rows
    ensures id !in Next(cfg, rows, Deprovision(id, true)) <==>
            rows[id].held.Some? && rows[id].held.value.writer !in {0, -10}
  {
    assert rows[id].held.Some? ==> rows[id].held.value.reader == rows[id].held.value.writer + 10;
  }

  lemma {:induction false} RunAppend(cfg: Settings, rows: Rows, events: seq<Event>, e: Event)
    ensures Run(cfg, rows, events + [e]) == Next(cfg, Run(cfg, rows, events), e)
    decreases |events|
  {
    if events == [] {
      assert [] + [e] == [e] && [e][1..] == [];
    } else {
      assert (events + [e])[1..] == events[1..] + [e];
      RunAppend(cfg, Next(cfg, rows, events[0]), events[1..], e);
    }
  }

  /** With a range that starts at 0 the first cluster is Ready and can never be removed. */
  lemma FirstAtZeroSticks(cfg: Settings, id: string, events: seq<Event>)
    requires cfg.hostgroupStart == 0 <= cfg.hostgroupEnd && cfg.portStart <= cfg.portEnd
    ensures var rows := Next(cfg, map[], Provision(id, true, true));
            && id in rows && rows[id].status.Ready? && rows[id].held.Some?
            && id in Run(cfg, rows, events) && Run(cfg, rows, events)[id] == rows[id]
  {
    var none: Rows := map[];
    assert UsedPorts(none) == {} && UsedWriters(none) == {};
    StuckForever(cfg, Next(cfg, none, Provision(id, true, true)), id, events);
  }

  function Range(lo: int, hi: int): (range: set<int>)
    ensures forall n :: n in range <==> lo <= n <= hi
    decreases hi - lo
  {
    if lo > hi then {} else {lo} + Range(lo + 1, hi)
  }

  /** The ports that are still free. */
  function FreePorts(cfg: Settings, rows: Rows): set<int> {
    Range(cfg.portStart, cfg.portEnd) - UsedPorts(rows)
  }

  lemma ProvisionTakesPort(cfg: Settings, rows: Rows, id: string)
    requires id !in rows && Allocate(cfg, rows).Some?
    ensures FreePorts(cfg, Next(cfg, rows, Provision(id, true, true))) < FreePorts(cfg, rows)
  {
    AllocationIsFree(cfg, rows);
    var a := Allocate(cfg, rows).value;
    var rows' := Next(cfg, rows, Provision(id, true, true));
    HeldWithout(rows', id);
    assert rows' - {id} == rows;
    assert a.port in FreePorts(cfg, rows) && a.port !in FreePorts(cfg, rows');
  }

  /** Provisions that all work go on until the ranges are used up: then one leaves a row without resources. */
  lemma {:induction false} Exhausts(cfg: Settings, rows: Rows, n: nat) returns (events: seq<Event>, id: string)
    requires forall i | i in rows :: |i| < n
    ensures forall e | e in events :: e.Provision? && e.valid && e.works
    ensures id in Run(cfg, rows, events) && Run(cfg, rows, events)[id].held.None?
    decreases |FreePorts(cfg, rows)|
  {
    id := seq(n, _ => 'c');
    var e := Provision(id, true, true);
    if Allocate(cfg, rows).None? {
      events := [e];
      assert Run(cfg, rows, events) == Run(cfg, Next(cfg, rows, e), []);
    } else {
      ProvisionTakesPort(cfg, rows, id);
      StrictlyFewer(FreePorts(cfg, Next(cfg, rows, e)), FreePorts(cfg, rows));
      var rest, stuck := Exhausts(cfg, Next(cfg, rows, e), n + 1);
      events, id := [e] + rest, stuck;
      assert events[1..] == rest;
    }
  }

  lemma StrictlyFewer<T>(a: set<T>, b: set<T>)
    requires a < b
    ensures |a| < |b|
  {
    assert b == (b - a) + a;
    assert b - a != {};
  }

  /** Whatever the settings, some run of provisions that all work reaches a row that no run ever removes. */
  lemma StuckReached(cfg: Settings, later: seq<Event>) returns (events: seq<Event>, id: string)
    ensures forall e | e in events :: e.Provision? && e.valid && e.works
    ensures var rows := Run(cfg, map[], events);
            && id in rows && rows[id].held.None?
            && id in Run(cfg, rows, later) && Run(cfg, rows, later)[id] == rows[id]
  {
    events, id := Exhausts(cfg, map[], 0);
    StuckForever(cfg, Run(cfg, map[], events), id, later);
  }

  // ---------------------------------------------------------------------------
  // Overlapping blocks
  // ---------------------------------------------------------------------------

  /** The rows of two hostgroups removed, as deprovisioning does. */
  function Wiped(t: Table, w: int, r: int): Table {
    map k | k in t && k.hostgroup != w && k.hostgroup != r :: t[k]
  }

  /** Two allocations that share no hostgroup. */
  predicate Disjoint(a: Allocation, b: Allocation) {
    {a.writer, a.reader} !! {b.writer, b.reader}
  }

  lemma BlockOfRow(cfg: Settings, rows: Rows, id: string)
    requires Sound(cfg, rows) && id in rows && rows[id].held.Some?
    ensures rows[id].held.value.writer in UsedWriters(rows)
    ensures rows[id].held.value.reader == rows[id].held.value.writer + 10
    ensures cfg.hostgroupStart <= rows[id].held.value.writer
  {
  }

  /** The new block after the range start is used: the block below it is held. */
  lemma BlockBelowHeld(cfg: Settings, rows: Rows) returns (id: string)
    requires Sound(cfg, rows) && Allocate(cfg, rows).Some? && cfg.hostgroupStart in UsedWriters(rows)
    ensures id in rows && rows[id].held.Some? && rows[id].held.value.reader == Allocate(cfg, rows).value.writer
  {
    AllocationIsFree(cfg, rows);
    var w := Allocate(cfg, rows).value.writer;
    assert w != cfg.hostgroupStart;
    StepsApart(w, cfg.hostgroupStart, 10);
    assert Candidate(w - 10, cfg.hostgroupStart, cfg.hostgroupEnd, 10);
    assert w - 10 in UsedWriters(rows);
    id :| id in rows && rows[id].held.Some? && rows[id].held.value.writer == w - 10;
  }

  /**
   Exactly when a provision gets hostgroups of its own: the first block of the range is free and so is the
   one above it.
   */
  lemma DisjointExactly(cfg: Settings, rows: Rows)
    requires Sound(cfg, rows) && Allocate(cfg, rows).Some?
    ensures (forall id | id in rows && rows[id].held.Some? ::
               Disjoint(Allocate(cfg, rows).value, rows[id].held.value)) <==>
            cfg.hostgroupStart !in UsedWriters(rows) && cfg.hostgroupStart + 10 !in UsedWriters(rows)
  {
    var a := Allocate(cfg, rows).value;
    AllocationIsFree(cfg, rows);
    if cfg.hostgroupStart in UsedWriters(rows) {
      var id := BlockBelowHeld(cfg, rows);
      assert a.writer in {a.writer, a.reader} * {rows[id].held.value.writer, rows[id].held.value.reader};
    } else {
      assert Candidate(cfg.hostgroupStart, cfg.hostgroupStart, cfg.hostgroupEnd, 10);
      assert a.writer == cfg.hostgroupStart;
      if cfg.hostgroupStart + 10 in UsedWriters(rows) {
        var id :| id in rows && rows[id].held.Some? && rows[id].held.value.writer == a.reader;
        assert a.reader in {a.writer, a.reader} * {rows[id].held.value.writer, rows[id].held.value.reader};
      }
      forall id | id in rows && rows[id].held.Some?
        ensures cfg.hostgroupStart + 10 !in UsedWriters(rows) ==> Disjoint(a, rows[id].held.value)
      {
        BlockOfRow(cfg, rows, id);
      }
    }
  }

  /** From an empty table the second cluster's writer hostgroup is the first cluster's reader hostgroup. */
  lemma SecondOverlapsFirst(cfg: Settings, first: string, second: string)
    requires first != second
    requires cfg.portStart + 1 <= cfg.portEnd && cfg.hostgroupStart + 10 <= cfg.hostgroupEnd
    ensures var rows := Run(cfg, map[], [Provision(first, true, true), Provision(second, true, true)]);
            && first in rows && second in rows && rows[first].held.Some? && rows[second].held.Some?
            && rows[second].held.value.writer == rows[first].held.value.reader
  {
    var e1, e2 := Provision(first, true, true), Provision(second, true, true);
    var none: Rows := map[];
    assert UsedPorts(none) == {} && UsedWriters(none) == {};
    var one := Next(cfg, none, e1);
    assert one[first].held == Some(Allocation(cfg.portStart, cfg.hostgroupStart, cfg.hostgroupStart + 10));
    assert cfg.hostgroupStart in UsedWriters(one);
    FewRowsAllocate(cfg, one);
    NextSound(cfg, none, e1);
    var id := BlockBelowHeld(cfg, one);
    assert id == first;
    assert [e1, e2][1..] == [e2] && [e2][1..] == [];
    assert Run(cfg, none, [e1, e2]) == Run(cfg, one, [e2]);
    assert Run(cfg, one, [e2]) == Next(cfg, one, e2);
  }

  /**
   Deprovisioning `a` leaves the servers of `b` alone, whatever the table holds, exactly when their blocks are disjoint;
   otherwise the shared hostgroup is emptied.
   */
  lemma WipeSparesExactly(a: Allocation, b: Allocation)
    ensures (forall t: Table ::
               && Members(Wiped(t, a.writer, a.reader), b.writer) == Members(t, b.writer)
               && Members(Wiped(t, a.writer, a.reader), b.reader) == Members(t, b.reader)) <==> Disjoint(a, b)
    ensures forall t: Table, g: int | g == a.writer || g == a.reader :: Members(Wiped(t, a.writer, a.reader), g) == {}
  {
    if Disjoint(a, b) {
      forall t: Table
        ensures Members(Wiped(t, a.writer, a.reader), b.writer) == Members(t, b.writer)
        ensures Members(Wiped(t, a.writer, a.reader), b.reader) == Members(t, b.reader)
      {
        WipeSpares(t, a.writer, a.reader, b.writer);
        WipeSpares(t, a.writer, a.reader, b.reader);
      }
    } else {
      var g := if b.writer == a.writer || b.writer == a.reader then b.writer else b.reader;
      var k := Key(g, Addr("h", 1));
      var t: Table := map[k := DefaultRow(k.addr)];
      assert k.addr in Members(t, g);
      assert Members(Wiped(t, a.writer, a.reader), g) == {};
    }
  }

  lemma WipeSpares(t: Table, w: int, r: int, g: int)
    requires g != w && g != r
    ensures Members(Wiped(t, w, r), g) == Members(t, g)
  {
    forall x | x in Members(t, g)
      ensures x in Members(Wiped(t, w, r), g)
    {
      assert Key(g, x) in Wiped(t, w, r);
    }
  }

  // ---------------------------------------------------------------------------
  // Server rows
  // ---------------------------------------------------------------------------

  /** The rows of a new cluster: the primary as writer, the others as readers. */
  function ServerKeys(hosts: seq<Addr>, w: int, r: int): (keys: seq<Key>)
    ensures |keys| == |hosts|
    ensures forall i | 0 <= i < |hosts| :: keys[i] == Key(if i == 0 then w else r, hosts[i])
  {
    seq(|hosts|, i requires 0 <= i < |hosts| => Key(if i == 0 then w else r, hosts[i]))
  }

  /** One INSERT per key, up to the first key that exists; tells whether all went through. */
  function InsertAll(t: Table, keys: seq<Key>): (Table, bool)
    decreases |keys|
  {
    if keys == [] then (t, true)
    else if keys[0] in t then (t, false)
    else InsertAll(t[keys[0] := DefaultRow(keys[0].addr)], keys[1..])
  }

  predicate NewKeys(t: Table, keys: seq<Key>) {
    && (forall i | 0 <= i < |keys| :: keys[i] !in t)
    && (forall i, j | 0 <= i < j < |keys| :: keys[i] != keys[j])
  }

  lemma NewKeysStep(t: Table, keys: seq<Key>, row: Row)
    requires keys != [] && keys[0] !in t
    ensures NewKeys(t, keys) <==> NewKeys(t[keys[0] := row], keys[1..])
  {
    var rest := keys[1..];
    assert forall i | 1 <= i < |keys| :: keys[i] == rest[i - 1];
    assert forall i | 0 <= i < |rest| :: rest[i] == keys[i + 1];
  }

  /** The keys whose INSERT is sent before the connection breaks. */
  function Reached(keys: seq<Key>, alive: nat): seq<Key> {
    keys[..if alive < |keys| then alive else |keys|]
  }

  lemma ReachedExactly(hosts: seq<Addr>, w: int, r: int, alive: nat)
    ensures var sent := Reached(ServerKeys(hosts, w, r), alive);
            && |sent| == (if alive < |hosts| then alive else |hosts|)
            && forall i | 0 <= i < |sent| :: sent[i] == Key(if i == 0 then w else r, hosts[i])
  {
  }

  /** All go through exactly when the keys are new and distinct, and then all of them are rows. */
  lemma {:induction false} InsertAllExactly(t: Table, keys: seq<Key>)
    ensures InsertAll(t, keys).1 <==> NewKeys(t, keys)
    ensures InsertAll(t, keys).1 ==> forall k | k in keys :: k in InsertAll(t, keys).0
    decreases |keys|
  {
    if keys == [] || keys[0] in t {
    } else {
      var row := DefaultRow(keys[0].addr);
      NewKeysStep(t, keys, row);
      InsertAllExactly(t[keys[0] := row], keys[1..]);
      InsertAllKeeps(t[keys[0] := row], keys[1..]);
      assert keys == [keys[0]] + keys[1..];
    }
  }

  /** Failing or not, no row is lost or changed, and new rows are those of the keys. */
  lemma {:induction false} InsertAllKeeps(t: Table, keys: seq<Key>)
    ensures forall k | k in t :: k in InsertAll(t, keys).0 && InsertAll(t, keys).0[k] == t[k]
    ensures forall k | k in InsertAll(t, keys).0 && k !in t ::
              k in keys && InsertAll(t, keys).0[k] == DefaultRow(k.addr)
    decreases |keys|
  {
    if keys == [] || keys[0] in t {
    } else {
      InsertAllKeeps(t[keys[0] := DefaultRow(keys[0].addr)], keys[1..]);
      assert keys == [keys[0]] + keys[1..];
    }
  }

  // ---------------------------------------------------------------------------
  // The object
  // ---------------------------------------------------------------------------

  datatype ProvisionResult =
    | Refused                        // no such template, or the hosts do not fit it
    | Thrown                         // the metadata row exists already
    | ProvisionError(held: Option<Allocation>)
    | Provisioned(allocation: Allocation)

  /** Where a deprovision fails: before or after the servers are deleted from ProxySQL. */
  datatype Course = Works | FailsEarly | FailsLate

  class ClusterProvisioner {
    const cfg: Settings
    var metadata: Rows
    var servers: Table

    constructor (cfg: Settings, servers: Table)
      ensures this.cfg == cfg && metadata == map[] && this.servers == servers
    {
      this.cfg, this.servers := cfg, servers;
      metadata := map[];
    }

    method AllocateResources() returns (r: Option<Allocation>)
      ensures r == Allocate(cfg, metadata)
    {
      var usedPorts := UsedPorts(metadata);
      var port := cfg.portStart;
      while port in usedPorts && port <= cfg.portEnd
        invariant FirstFree(usedPorts, port, cfg.portEnd, 1) == FirstFree(usedPorts, cfg.portStart, cfg.portEnd, 1)
        decreases cfg.portEnd - port
      {
        port := port + 1;
      }
      if port > cfg.portEnd {
        return None;
      }
      var usedWriters := UsedWriters(metadata);
      var writer := cfg.hostgroupStart;
      while writer in usedWriters && writer <= cfg.hostgroupEnd
        invariant FirstFree(usedWriters, writer, cfg.hostgroupEnd, 10) ==
                  FirstFree(usedWriters, cfg.hostgroupStart, cfg.hostgroupEnd, 10)
        decreases cfg.hostgroupEnd - writer
      {
        writer := writer + 10;
      }
      if writer > cfg.hostgroupEnd {
        return None;
      }
      r := Some(Allocation(port, writer, writer + 10));
    }

    /**
     INSERTs the primary as writer and the others as readers; stops at the first key that exists, and when the
     connection breaks after `alive` of them.
     */
    method AddServers(hosts: seq<Addr>, w: int, r: int, alive: nat) returns (ok: bool)
      modifies this`servers
      ensures servers == InsertAll(old(servers), Reached(ServerKeys(hosts, w, r), alive)).0
      ensures ok <==> alive >= |hosts| && InsertAll(old(servers), ServerKeys(hosts, w, r)).1
    {
      ghost var keys := Reached(ServerKeys(hosts, w, r), alive);
      assert alive >= |hosts| ==> keys == ServerKeys(hosts, w, r);
      var n := 0;
      while n < |hosts| && n < alive
        invariant n <= |keys|
        invariant InsertAll(old(servers), keys) == InsertAll(servers, keys[n..])
      {
        var k := Key(if n == 0 then w else r, hosts[n]);
        assert keys[n..][1..] == keys[n + 1..];
        if k in servers {
          return false;
        }
        servers := servers[k := DefaultRow(k.addr)];
        n := n + 1;
      }
      assert keys[n..] == [];
      ok := n == |hosts|;
    }

    /** `prepares`: registration and replication work; `configures`: the rest of the ProxySQL setup does. */
    method Provision(id: string, valid: bool, hosts: seq<Addr>, prepares: bool, alive: nat, configures: bool)
      returns (r: ProvisionResult)
      modifies this
      ensures metadata == Next(cfg, old(metadata), Event.Provision(id, valid, r.Provisioned?))
      ensures !valid ==> r == Refused
      ensures valid && id in old(metadata) ==> r == Thrown
      ensures valid && id !in old(metadata) && Allocate(cfg, old(metadata)).None? ==> r == ProvisionError(None)
      ensures !valid || id in old(metadata) || Allocate(cfg, old(metadata)).None? || !prepares ==>
                servers == old(servers)
      ensures valid && id !in old(metadata) && Allocate(cfg, old(metadata)).Some? ==>
                var a := Allocate(cfg, old(metadata)).value;
                var keys := ServerKeys(hosts, a.writer, a.reader);
                && (prepares ==> servers == InsertAll(old(servers), Reached(keys, alive)).0)
                && r == if prepares && configures && alive >= |hosts| && InsertAll(old(servers), keys).1
                        then Provisioned(a) else ProvisionError(Some(a))
    {
      if !valid {
        return Refused;
      }
      if id in metadata {
        return Thrown;
      }
      var held := AllocateResources();
      metadata := metadata[id := Metadata(Provisioning, held)];
      if held.None? {
        metadata := metadata[id := Metadata(ProvisionFailed, None)];
        return ProvisionError(None);
      }
      var added := false;
      if prepares {
        added := AddServers(hosts, held.value.writer, held.value.reader, alive);
      }
      if added && configures {
        metadata := metadata[id := Metadata(Ready, held)];
        r := Provisioned(held.value);
      } else {
        metadata := metadata[id := Metadata(ProvisionFailed, held)];
        r := ProvisionError(held);
      }
    }

    /** A failure after the ProxySQL statements leaves the row in place but the servers are gone. */
    method Deprovision(id: string, course: Course) returns (ok: bool)
      modifies this
      ensures metadata == Next(cfg, old(metadata), Event.Deprovision(id, course.Works?))
      ensures ok <==> id in old(metadata) && Complete(old(metadata)[id]) && course.Works?
      ensures servers == if id in old(metadata) && Complete(old(metadata)[id]) && !course.FailsEarly?
                         then var a := old(metadata)[id].held.value; Wiped(old(servers), a.writer, a.reader)
                         else old(servers)
    {
      ok := false;
      if id !in metadata || !Complete(metadata[id]) || course.FailsEarly? {
        return;
      }
      var a := metadata[id].held.value;
      servers := Wiped(servers, a.writer, a.reader);
      if course.Works? {
        metadata := metadata - {id};
        ok := true;
      }
    }
  }
}
