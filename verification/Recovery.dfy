/** The queue of old primaries that wait to be recovered. */
module Recovery {
  import Text
  import opened Topology

  datatype Pending = Pending(clusterId: string, addr: Addr, newPrimaryId: string)

  /** What the outside world answers to one recovery. */
  datatype Outcome =
    | NotFound
    | NotOnline(state: string)
    | StartFailed
    | NotRunning(io: bool, sql: bool)
    | Thrown(error: string)
    | Recovers

  function Running(b: bool): string {
    if b then "running" else "stopped"
  }

  function Message(id: string, p: Pending, o: Outcome): string {
    match o
    case NotFound => "Instance " + id + " not found in Orchestrator"
    case NotOnline(state) => "Instance " + id + " is not online (state: " + state + ")"
    case StartFailed => "Failed to start replication on " + id
    case NotRunning(io, sql) =>
      "Replication not fully running on " + id + ": IO=" + Running(io) + ", SQL=" + Running(sql)
    case Thrown(e) => "Recovery failed: " + e
    case Recovers => "Instance " + id + " recovered and replicating from " + p.newPrimaryId
  }

  // ---------------------------------------------------------------------------
  // The queue as a history
  // ---------------------------------------------------------------------------

  datatype QueueEvent = Queued(id: string, p: Pending) | Left(id: string)

  /** What the events leave in the queue. */
  function Waiting(log: seq<QueueEvent>): map<string, Pending> {
    if log == [] then map[]
    else
      var before := Waiting(log[..|log| - 1]);
      match log[|log| - 1]
      case Queued(id, p) => before[id := p]
      case Left(id) => before - {id}
  }

  /** Event `i` queued `id`, and no later event is about `id`. */
  predicate LastWord(log: seq<QueueEvent>, i: int, id: string) {
    && 0 <= i < |log| && log[i].Queued? && log[i].id == id
    && forall j | i < j < |log| :: log[j].id != id
  }

  /** An instance waits exactly when it was queued and neither recovered nor cleared since. */
  lemma {:induction false} WaitingExactly(log: seq<QueueEvent>, id: string)
    ensures id in Waiting(log) <==> exists i :: LastWord(log, i, id)
    ensures forall i | LastWord(log, i, id) :: id in Waiting(log) && Waiting(log)[id] == log[i].p
    decreases |log|
  {
    if log == [] {
    } else {
      var last := |log| - 1;
      var front := log[..last];
      WaitingExactly(front, id);
      assert forall i | 0 <= i < last :: front[i] == log[i];
      if log[last].id == id {
        assert log[last].Queued? ==> LastWord(log, last, id);
        assert forall i | LastWord(log, i, id) :: i == last;
      } else {
        assert forall i :: LastWord(log, i, id) <==> LastWord(front, i, id);
      }
    }
  }

  // ---------------------------------------------------------------------------
  // Batches
  // ---------------------------------------------------------------------------

  /** The ids a batch recovers (or leaves), in queue order. */
  function Sift(ids: seq<string>, outcomes: string -> Outcome, recovered: bool): (kept: seq<string>)
    ensures forall id :: id in kept <==> id in ids && outcomes(id).Recovers? == recovered
  {
    if ids == [] then []
    else
      var front := Sift(ids[..|ids| - 1], outcomes, recovered);
      var id := ids[|ids| - 1];
      assert ids == ids[..|ids| - 1] + [id];
      if outcomes(id).Recovers? == recovered then front + [id] else front
  }

  /** Failures other than an absent or offline instance are reported. */
  predicate Reported(message: string) {
    !Text.Includes(message, "not online") && !Text.Includes(message, "not found")
  }

  /** What a recovery answers names the thread that stands still, the state found, and the new primary. */
  lemma MessagesName(id: string, p: Pending, state: string)
    ensures Message(id, p, NotRunning(true, false)) ==
            "Replication not fully running on " + id + ": IO=" + "running" + ", SQL=" + "stopped"
    ensures Message(id, p, NotRunning(false, true)) ==
            "Replication not fully running on " + id + ": IO=" + "stopped" + ", SQL=" + "running"
    ensures Message(id, p, NotOnline(state)) == "Instance " + id + " is not online (state: " + state + ")"
    ensures Message(id, p, Recovers) == "Instance " + id + " recovered and replicating from " + p.newPrimaryId
  {
  }

  /** An instance that is absent or offline stays queued without an error. */
  lemma AbsentUnreported(id: string, p: Pending, state: string)
    ensures !Reported(Message(id, p, NotFound)) && !Reported(Message(id, p, NotOnline(state)))
  {
    var head := "Instance " + id;
    var absent, offline := Message(id, p, NotFound), Message(id, p, NotOnline(state));
    assert absent == head + " " + "not found" + " in Orchestrator";
    assert offline == head + " is " + "not online" + (" (state: " + state + ")");
    assert Text.OccursAt(absent, "not found", |head| + 1);
    assert Text.OccursAt(offline, "not online", |head| + 4);
  }

  function Errors(ids: seq<string>, pending: map<string, Pending>, outcomes: string -> Outcome): seq<string>
    requires forall id | id in ids :: id in pending
  {
    if ids == [] then []
    else
      var front := Errors(ids[..|ids| - 1], pending, outcomes);
      var id := ids[|ids| - 1];
      var message := Message(id, pending[id], outcomes(id));
      if Reported(message) then front + [id + ": " + message] else front
  }

  /** `e` is the reported message of `id`, behind its id. */
  predicate ErrorOf(id: string, pending: map<string, Pending>, outcomes: string -> Outcome, e: string) {
    && id in pending && Reported(Message(id, pending[id], outcomes(id)))
    && e == id + ": " + Message(id, pending[id], outcomes(id))
  }

  /** The errors are exactly the reported messages of the ids. */
  lemma {:induction false} ErrorsExactly(ids: seq<string>, pending: map<string, Pending>,
                                         outcomes: string -> Outcome, e: string)
    requires forall id | id in ids :: id in pending
    ensures e in Errors(ids, pending, outcomes) <==> exists id :: id in ids && ErrorOf(id, pending, outcomes, e)
    decreases |ids|
  {
    if ids == [] {
    } else {
      var front, last := ids[..|ids| - 1], ids[|ids| - 1];
      ErrorsExactly(front, pending, outcomes, e);
      Text.SplitLast(ids);
      assert e in Errors(ids, pending, outcomes) <==>
             e in Errors(front, pending, outcomes) || ErrorOf(last, pending, outcomes, e);
    }
  }

  lemma SiftSnoc(ids: seq<string>, id: string, outcomes: string -> Outcome, recovered: bool)
    ensures Sift(ids + [id], outcomes, recovered) ==
            if outcomes(id).Recovers? == recovered then Sift(ids, outcomes, recovered) + [id]
            else Sift(ids, outcomes, recovered)
  {
    assert (ids + [id])[..|ids|] == ids;
  }

  lemma ErrorsSnoc(ids: seq<string>, id: string, pending: map<string, Pending>, outcomes: string -> Outcome)
    requires id in pending && forall x | x in ids :: x in pending
    ensures Errors(ids + [id], pending, outcomes) ==
            var message := Message(id, pending[id], outcomes(id));
            if Reported(message) then Errors(ids, pending, outcomes) + [id + ": " + message]
            else Errors(ids, pending, outcomes)
  {
    assert (ids + [id])[..|ids|] == ids;
  }

  /** Each of the ids leaves the queue, in this order. */
  function Lefts(ids: seq<string>): (events: seq<QueueEvent>)
    ensures |events| == |ids|
  {
    if ids == [] then [] else Lefts(ids[..|ids| - 1]) + [Left(ids[|ids| - 1])]
  }

  lemma LeftsSnoc(was: seq<QueueEvent>, ids: seq<string>, id: string)
    ensures was + Lefts(ids + [id]) == was + Lefts(ids) + [Left(id)]
  {
    assert (ids + [id])[..|ids|] == ids;
  }

  predicate NoRepeats(ids: seq<string>) {
    forall i, j | 0 <= i < j < |ids| :: ids[i] != ids[j]
  }

  /** The two result lists share nothing and lose nothing. */
  lemma {:induction false} BatchPartitions(ids: seq<string>, outcomes: string -> Outcome)
    ensures multiset(Sift(ids, outcomes, true)) + multiset(Sift(ids, outcomes, false)) == multiset(ids)
    ensures forall id :: !(id in Sift(ids, outcomes, true) && id in Sift(ids, outcomes, false))
    decreases |ids|
  {
    if ids == [] {
    } else {
      BatchPartitions(ids[..|ids| - 1], outcomes);
      assert ids == ids[..|ids| - 1] + [ids[|ids| - 1]];
    }
  }

  function Drop(ids: seq<string>, id: string): (rest: seq<string>)
    ensures forall x :: x in rest <==> x in ids && x != id
    ensures NoRepeats(ids) ==> NoRepeats(rest)
  {
    if ids == [] then []
    else
      var rest := Drop(ids[1..], id);
      assert NoRepeats(ids) ==> NoRepeats(ids[1..]) && ids[0] !in ids[1..];
      assert forall i | 0 <= i < |rest| :: rest[i] in ids[1..];
      if ids[0] == id then rest else [ids[0]] + rest
  }

  class RecoveryManager {
    var pending: map<string, Pending>
    var order: seq<string>              // the insertion order of the keys
    ghost var log: seq<QueueEvent>

    ghost predicate Valid()
      reads this
    {
      && NoRepeats(order) && (forall id :: id in order <==> id in pending)
      && pending == Waiting(log)
    }

    constructor ()
      ensures Valid() && pending == map[] && log == []
    {
      pending, order, log := map[], [], [];
    }

    /** A known key keeps its place in the order. */
    method QueueForRecovery(id: string, p: Pending)
      requires Valid()
      modifies this
      ensures Valid() && log == old(log) + [Queued(id, p)]
      ensures pending == old(pending)[id := p]
    {
      if id !in pending {
        order := order + [id];
      }
      pending := pending[id := p];
      log := log + [Queued(id, p)];
      assert log[..|log| - 1] == old(log);
    }

    method Clear(id: string) returns (removed: bool)
      requires Valid()
      modifies this
      ensures Valid() && log == old(log) + [Left(id)]
      ensures removed <==> id in old(pending)
      ensures pending == old(pending) - {id}
      ensures order == if removed then Drop(old(order), id) else old(order)
    {
      removed := id in pending;
      if removed {
        order := Drop(order, id);
      }
      pending := pending - {id};
      log := log + [Left(id)];
      assert log[..|log| - 1] == old(log);
    }

    /** Only a recovery that succeeds takes the instance out of the queue. */
    method Recover(id: string, outcome: Outcome) returns (success: bool, message: string)
      requires Valid()
      modifies this
      ensures Valid()
      ensures success <==> id in old(pending) && outcome.Recovers?
      ensures pending == if success then old(pending) - {id} else old(pending)
      ensures order == if success then Drop(old(order), id) else old(order)
      ensures log == if success then old(log) + [Left(id)] else old(log)
      ensures message == if id in old(pending) then Message(id, old(pending)[id], outcome)
                         else "Instance " + id + " is not pending recovery"
    {
      if id !in pending {
        return false, "Instance " + id + " is not pending recovery";
      }
      success, message := outcome.Recovers?, Message(id, pending[id], outcome);
      if success {
        var _ := Clear(id);
      }
    }

    /** One turn of the batch. */
    method TryOne(id: string, outcome: Outcome, ghost message: string, ghost was: seq<QueueEvent>,
                  recovered: seq<string>, stillPending: seq<string>, errors: seq<string>)
      returns (recovered': seq<string>, stillPending': seq<string>, errors': seq<string>)
      requires Valid() && id in pending && message == Message(id, pending[id], outcome)
      requires log == was + Lefts(recovered)
      modifies this
      ensures Valid()
      ensures pending == if outcome.Recovers? then old(pending) - {id} else old(pending)
      ensures log == was + Lefts(recovered')
      ensures recovered' == if outcome.Recovers? then recovered + [id] else recovered
      ensures stillPending' == if outcome.Recovers? then stillPending else stillPending + [id]
      ensures errors' == if !outcome.Recovers? && Reported(message) then errors + [id + ": " + message] else errors
    {
      recovered', stillPending', errors' := recovered, stillPending, errors;
      var success, text := Recover(id, outcome);
      if success {
        recovered' := recovered + [id];
        LeftsSnoc(was, recovered, id);
      } else {
        stillPending' := stillPending + [id];
        if Reported(text) {
          errors' := errors + [id + ": " + text];
        }
      }
    }

    /**
     Tries every queued instance once, in queue order. The starting keys split into the recovered and the
     still pending ones; exactly the latter stay queued, and every error names one of them.
     */
    method RecoverAll(outcomes: string -> Outcome)
      returns (recovered: seq<string>, stillPending: seq<string>, errors: seq<string>)
      requires Valid()
      modifies this
      ensures Valid()
      ensures recovered == Sift(old(order), outcomes, true) && stillPending == Sift(old(order), outcomes, false)
      ensures errors == Errors(stillPending, old(pending), outcomes)
      ensures pending == map id | id in old(pending) && !outcomes(id).Recovers? :: old(pending)[id]
      ensures log == old(log) + Lefts(recovered)
    {
      recovered, stillPending, errors := [], [], [];
      var keys := order;
      ghost var start, was := pending, log;
      for n := 0 to |keys|
        invariant Valid()
        invariant recovered == Sift(keys[..n], outcomes, true) && stillPending == Sift(keys[..n], outcomes, false)
        invariant errors == Errors(stillPending, start, outcomes)
        invariant pending == Remaining(start, keys[..n], outcomes)
        invariant log == was + Lefts(recovered)
      {
        OneMoreTried(start, keys, n, outcomes);
        ErrorsSnoc(stillPending, keys[n], start, outcomes);
        ghost var message := Message(keys[n], start[keys[n]], outcomes(keys[n]));
        recovered, stillPending, errors := TryOne(keys[n], outcomes(keys[n]), message, was,
                                                  recovered, stillPending, errors);
      }
      assert keys[..|keys|] == keys;
      AllTried(start, keys, outcomes);
    }
  }

  lemma AllTried(start: map<string, Pending>, keys: seq<string>, outcomes: string -> Outcome)
    requires forall id | id in start :: id in keys
    ensures Remaining(start, keys, outcomes) == map id | id in start && !outcomes(id).Recovers? :: start[id]
  {
  }

  lemma OneMoreTried(start: map<string, Pending>, keys: seq<string>, n: nat, outcomes: string -> Outcome)
    requires n < |keys| && NoRepeats(keys) && keys[n] in start
    ensures var recovers := outcomes(keys[n]).Recovers?;
            && Sift(keys[..n + 1], outcomes, true) ==
               (if recovers then Sift(keys[..n], outcomes, true) + [keys[n]] else Sift(keys[..n], outcomes, true))
            && Sift(keys[..n + 1], outcomes, false) ==
               (if recovers then Sift(keys[..n], outcomes, false) else Sift(keys[..n], outcomes, false) + [keys[n]])
    ensures var before := Remaining(start, keys[..n], outcomes);
            && keys[n] in before && before[keys[n]] == start[keys[n]]
            && Remaining(start, keys[..n + 1], outcomes) ==
               if outcomes(keys[n]).Recovers? then before - {keys[n]} else before
  {
    Text.TakeSnoc(keys, n);
    SiftSnoc(keys[..n], keys[n], outcomes, true);
    SiftSnoc(keys[..n], keys[n], outcomes, false);
    RemainingSnoc(start, keys[..n], keys[n], outcomes);
  }

  /** The queue after a batch has tried `ids`. */
  function Remaining(pending: map<string, Pending>, ids: seq<string>, outcomes: string -> Outcome)
    : map<string, Pending>
  {
    map id | id in pending && !(id in ids && outcomes(id).Recovers?) :: pending[id]
  }

  lemma RemainingSnoc(pending: map<string, Pending>, ids: seq<string>, id: string, outcomes: string -> Outcome)
    requires id in pending && id !in ids
    ensures var before := Remaining(pending, ids, outcomes);
            && id in before && before[id] == pending[id]
            && Remaining(pending, ids + [id], outcomes) == if outcomes(id).Recovers? then before - {id} else before
  {
  }
}
