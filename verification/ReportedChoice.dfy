/** Which instance an automatic failover promotes, read off Orchestrator's reports. */
module ReportedChoice {
  import opened Text
  import opened Topology
  import Candidates
  import opened Orchestrator

  /** Report `i` is of an instance in service below the top, and the first one of those of least lag. */
  predicate BestReport(reports: seq<Report>, i: int) {
    && 0 <= i < |reports| && BelowTop(reports[i]) && InService(reports[i])
    && (forall j | 0 <= j < |reports| && BelowTop(reports[j]) && InService(reports[j]) && reports[j].lag.Some? ::
          reports[i].lag.Some? && reports[i].lag.value <= reports[j].lag.value)
    && (forall j | 0 <= j < i && BelowTop(reports[j]) && InService(reports[j]) ::
          reports[i].lag.Some? && (reports[j].lag.Some? ==> reports[i].lag.value < reports[j].lag.value))
  }

  lemma {:induction false} CountGrows(reports: seq<Report>, i: nat, j: nat)
    requires i <= j <= |reports|
    ensures BelowCount(reports[..i]) <= BelowCount(reports[..j])
    ensures i < j && BelowTop(reports[i]) ==> BelowCount(reports[..i]) < BelowCount(reports[..j])
    decreases j
  {
    if i == j {
    } else {
      CountGrows(reports, i, j - 1);
      assert reports[..j][..j - 1] == reports[..j - 1] && reports[..j][j - 1] == reports[j - 1];
    }
  }

  /**
   For the replicas read from the reports, the choice comes from the first report of least lag among those of
   instances in service below the top, and there is none exactly when there is no such report.
   */
  lemma ChosenFromReports(reports: seq<Report>)
    ensures Candidates.Select(Replicas(reports)).None? <==>
            forall i | 0 <= i < |reports| :: !(BelowTop(reports[i]) && InService(reports[i]))
    ensures Candidates.Select(Replicas(reports)).Some? ==>
              exists i :: BestReport(reports, i) && Reads(reports[i], Candidates.Select(Replicas(reports)).value)
  {
    var replicas := Replicas(reports);
    ReplicasRead(reports);
    Candidates.SelectsLeastLag(replicas);
    if Candidates.Select(replicas).Some? {
      var at :| Candidates.LeastLag(replicas, at) && replicas[at] == Candidates.Select(replicas).value;
      var i := ReplicaFrom(reports, at);
      BestOfReports(reports, at, i);
    } else {
      forall i | 0 <= i < |reports| && BelowTop(reports[i])
        ensures !InService(reports[i])
      {
        assert Reads(reports[i], replicas[BelowCount(reports[..i])]);
      }
    }
  }

  lemma BestOfReports(reports: seq<Report>, at: nat, i: nat)
    requires Candidates.LeastLag(Replicas(reports), at) && i < |reports| && BelowTop(reports[i])
    requires BelowCount(reports[..i]) == at && Reads(reports[i], Replicas(reports)[at])
    ensures BestReport(reports, i)
  {
    var replicas := Replicas(reports);
    ReplicasRead(reports);
    forall j | 0 <= j < |reports| && BelowTop(reports[j]) && InService(reports[j])
      ensures reports[j].lag.Some? ==> reports[i].lag.Some? && reports[i].lag.value <= reports[j].lag.value
      ensures j < i ==>
                reports[i].lag.Some? && (reports[j].lag.Some? ==> reports[i].lag.value < reports[j].lag.value)
    {
      var k := BelowCount(reports[..j]);
      assert Reads(reports[j], replicas[k]);
      if j < i {
        CountGrows(reports, j, i);
      }
    }
  }
}
