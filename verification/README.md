# ClawSQL, modelled in Dafny

ClawSQL manages MySQL clusters behind ProxySQL and Orchestrator. This project models its control logic and
proves what that logic keeps: how a topology becomes rows of ProxySQL's server table, when the sync
coordinator runs or skips that work, how a failover walks its phases and what it leaves in the routing, how
ports and hostgroups are handed out, how networks are expanded for scanning, and how the command line edits,
completes and recalls its input. `dafny verify dfyconfig.toml` checks everything.

| files | part of the program |
|---|---|
| `ServerTable`, `ProxySql` | `syncCluster`: the server table, the manager object and its cache |
| `TopologyHash`, `SyncSteps`, `SyncRuns`, `SyncAnswers`, `SyncCoordinator` | the two topology hashes; the coordinator as a step system, over whole runs, by its history, and as an object |
| `SqlText`, `ListeningPorts` | parameter interpolation; the `mysql-interfaces` text |
| `EditDistance` | "did you mean?" |
| `EditorModel`, `EditorLaws`, `EditorKeys`, `RawInput` | the line editor: a two-part editor, its laws over whole inputs and key by key, and the buffer-and-cursor object that refines it |
| `Candidates`, `Failover`, `Recovery`, `Executor` | candidate selection, the phase machine, the recovery queue, the executor |
| `Provisioner` | first-fit allocation over runs of provisions and deprovisions |
| `JsBits`, `Scanner` | JavaScript's 32-bit operators (sections 7.1.6 and 7.1.7 of ECMA-262), CIDR expansion, batched probing |
| `Orchestrator`, `ReportedChoice`, `ClusterView` | reading a topology, whom a failover chooses from it, the sync warnings |
| `Text`, `Ordering`, `Topology` | printing and parsing, stable sorting, instances and clusters |

Code that changes state is modelled by classes and loops. Each such method is proved against a function of
its inputs and the old state (`Synced`, `Outcome`, `Next`, `Press`, `Judge`, `Allocate`, ...), and the
properties are then proved of that function. ProxySQL's admin interface, Orchestrator, MySQL and the clock
answer through parameters. ProxySQL may answer any subset of the statements of one call: `Lost` names those
that throw, and most of them are swallowed by the code.

Some properties one would expect do not hold of the code. Each has a lemma that shows the failure and one
that says exactly when the property holds:

* A failover leaves no writer. `updateRouting` makes the new primary the cluster's primary while it is still
  among the replicas, and the replica pass takes it out of the writer hostgroup again
  (`Failover.NoWriterAfterwards`; one writer remains iff `ServerTable.OneWriter`'s condition holds). With
  statements lost, the new primary is a writer iff it was one or its INSERT ran, and every DELETE that would
  take it out was lost (`Failover.WriterOnlyByLoss`). The old primary is routed to no longer
  (`Failover.OldPrimaryRead`). docs/failover.md:582-584 promises the new primary as writer and the old one as reader, and lists the
  recovery queue before the routing (lines 603-610), while the code queues afterwards; the model follows the
  code. The report of that sync is not looked at.
* A sync that reports success serves the topology. Statements that throw are swallowed, and an INSERT of the
  primary may be missing (`ProxySql.SwallowedInsert`; exactly when the right servers are there:
  `ProxySql.ServesExactly`, and when nothing is left to do for the next sync: `ProxySql.SettlesExactly`).
* Skipping a sync as `no_change` can be unsound: after a sync that fails once its server rows are written,
  which leaves the old hash in place (`SyncRuns.StaleSkipHappens`), and after one that is recorded as a
  success although statements were swallowed (`SyncRuns.SwallowedSkipHappens`, for a lost INSERT
  `SyncCoordinator.SwallowedInsertSkips`). Exactly when it is sound: in terms of the topology the table was
  last written for `SyncRuns.SkipTrustsWriter`, in terms of the statements that were lost
  `SyncRuns.SkipTrustsStatements`.
* Not every caller of `sync` is answered: one whose debounce timer is cleared by a later call never is
  (`SyncRuns.VerdictsAreFinal`, exactly when: `SyncRuns.SupersededWhen`).
* The topology hash does not identify a topology. A `|` in a host merges two replicas into one
  (`TopologyHash.HashCollides`) or the primary and a replica into the primary, or moves text between id and
  host. A topology shares its hash with no other one iff it has no replicas and, where there is a primary, no
  `|` in its host or in the id (`TopologyHash.IdentifiesExactly`). Among topologies without `|` the hash is
  exact (`TopologyHash.HashCanonical`).
* Interpolated SQL keeps its meaning for exactly the clean templates (`SqlText.InterpolationExact`).
* As many Downs as Ups bring the line back unless an entry on the way opens the suggestion menu
  (`EditorLaws.HistorySticks`, exactly when: `EditorLaws.HistoryRestoresExactly`).
* An end marker split over two chunks is missed (`EditorLaws.SplitMarkerMissed`); exactly when a paste closes:
  `EditorLaws.PasteClosesExactly`, and `EditorLaws.PasteOpenExactly` where chunks may start another paste.
* A replica is not always found through its own id: an earlier one whose host spells that id is promoted in
  its place and told to follow itself, even when it is offline (`Failover.ShadowPromotedAtLoopback`; exactly
  when: `Candidates.FoundAgain`, `Failover.AutomaticChoice`, `Failover.FollowsItselfExactly`).
* Hostgroup blocks overlap: the second cluster writes to the first one's reader hostgroup
  (`Provisioner.SecondOverlapsFirst`). A new block is disjoint from all held ones iff the first two grid
  points are unused (`Provisioner.DisjointExactly`).
* A cluster may be neither removable nor provisionable again: with every range, runs reach a row without
  resources (`Provisioner.StuckReached`), and with hostgroups from 0 the first cluster itself stays for good
  (`Provisioner.FirstAtZeroSticks`). Exactly which rows can be removed: `Provisioner.RemovableExactly`.
* A sync does not silence all warnings about members: right after it some reading order of the table draws one
  iff another hostgroup holds a member or the primary is also a replica (`ClusterView.QuietExactly`; the order
  is built by `ClusterView.ForeignCopyWarns`).
* Adding a port while the interface list cannot be read drops listed ports (`ListeningPorts.BlindAddKeeps`
  says exactly when none is dropped).

## Model

| member | source | states |
|---|---|---|
| ServerTable.SyncOutcome | src/core/routing/proxysql-manager.ts:374-447 | From any table, a sync leaves as writers the primary unless it is also listed as a replica, as readers exactly the replicas, and every other hostgroup as it was. |
| ServerTable.NewRowsServe | src/core/routing/proxysql-manager.ts:416-447 | A row that a sync adds is ONLINE with weight 1, 1000 connections and the comment `ClawSQL: host:port`. |
| ServerTable.OldRowsStay | src/core/routing/proxysql-manager.ts:405-447 | A row that was there keeps its state and weight, except the reader row of the primary. |
| ServerTable.UpToDateExactly | src/core/routing/proxysql-manager.ts:374-447 | For any table: a sync changes nothing iff the two hostgroups hold exactly the keys it places and no reader row of a primary that is also a replica would be written anew. |
| ServerTable.SyncIdempotent | src/core/routing/proxysql-manager.ts:374-447 | A sync depends on a topology only through its addresses, and a second sync of the same addresses changes no row. |
| ServerTable.FixedPointExactly | src/core/routing/proxysql-manager.ts:374-447 | A table synced for one topology needs no sync for another iff both place the same keys and no reader row of a primary that is also a replica would be written anew. |
| ServerTable.GrownAndShrunk | src/core/routing/proxysql-manager.ts:374-447 | For a primary outside the replicas the keys that appear are the new writers and readers and the keys that vanish are the stale ones. |
| ServerTable.CountersAreDifferences | src/core/routing/proxysql-manager.ts:397-443 | ... and then `serversAdded` and `serversRemoved` are the sizes of the two set differences. |
| ServerTable.SecondSyncCounts | src/core/routing/proxysql-manager.ts:397-443 | A repeated sync reports 0 removed, and 0 added exactly when the primary is not also a replica; otherwise it reports 2 each time. |
| ServerTable.OneWriter | src/core/routing/proxysql-manager.ts:405-447 | Exactly one writer remains iff there is a primary and no replica entry repeats it. |
| ProxySql.KeyTextInjective | src/core/routing/proxysql-manager.ts:380-390 | No two server keys share the text `hostgroup:host:port`, even when hosts hold colons. |
| ProxySql.ReplicaPassAt | src/core/routing/proxysql-manager.ts:429-447 | The replica loop, with any of its statements lost: which keys it leaves and with which row; a key moves out or comes in iff some replica's DELETE or INSERT for it ran. |
| ProxySql.OneReplica | src/core/routing/proxysql-manager.ts:429-447 | One replica: its writer row is deleted, then its reader row inserted unless it exists; a DELETE that throws prevents the INSERT. |
| ProxySql.OnePrimary | src/core/routing/proxysql-manager.ts:405-427 | The primary: its reader row is deleted and its writer row inserted unless it exists, each statement on its own. |
| ProxySql.OneMoreNewcomer | src/core/routing/proxysql-manager.ts:429-447 | One more replica is counted exactly when neither the table nor an earlier turn of the loop already has its reader row. |
| ProxySql.DoomedRowsAreStale | src/core/routing/proxysql-manager.ts:374-403 | Comparing texts with `expectedServers` dooms exactly the rows of the two hostgroups that the topology does not place there. |
| ProxySql.NewReadersBefore | src/core/routing/proxysql-manager.ts:405-447 | The reader inserts that succeed are those of replicas without a reader row, counting a primary's row as deleted. |
| ProxySql.PassesMakeSynced | src/core/routing/proxysql-manager.ts:388-447 | Removing stale rows, placing the primary and passing over the replicas, in this order, gives the synced table. |
| ProxySql.OutcomeHas | src/core/routing/proxysql-manager.ts:374-447 | Which keys a call leaves, key by key, for any rows read and any statements lost. |
| ProxySql.OutcomeSafe | src/core/routing/proxysql-manager.ts:374-447 | Whatever was read and lost, no row of another hostgroup changes, and every row is an old one or a default one of the topology. |
| ProxySql.OutcomeIsSynced | src/core/routing/proxysql-manager.ts:345-483 | With the table read and all server statements served, the call leaves the synced table and reports the two differences, whatever the tail does. |
| ProxySql.ServesExactly | src/core/routing/proxysql-manager.ts:345-483 | Whatever was read and lost, and for every topology, the keys are those of a full sync iff the needed statements ran: the INSERT of an absent primary (or the DELETE that moves it when it is also a replica), DELETE and INSERT of each absent reader, the DELETE of each stale row. |
| ProxySql.SettlesExactly | src/core/routing/proxysql-manager.ts:345-483 | Such a call leaves nothing for the next sync to change iff those statements ran and no reader row of a primary that is also a replica was left to be written anew. |
| ProxySql.SharedHostgroup | src/core/routing/proxysql-manager.ts:374-447 | With one hostgroup for both roles it serves primary and replicas alike, and others stay. |
| ProxySql.SwallowedInsert | src/core/routing/proxysql-manager.ts:405-427 | A lost INSERT of the primary leaves no writer while the call reports success. |
| ProxySql.ProxySQLManager.ReadTable | src/core/routing/proxysql-manager.ts:555-568 | Every row of the table is read once, in any order. |
| ProxySql.ProxySQLManager.Refresh | src/core/routing/proxysql-manager.ts:570-575 | The rebuilt copy has an entry for every row, and none that is not a row. |
| ProxySql.ProxySQLManager.GetServers | src/core/routing/proxysql-manager.ts:553-590 | Reads and mirrors the table and returns the rows of the asked hostgroup, or all; when the table does not answer, selects from the old copy and leaves the copy alone. |
| ProxySql.ChosenExactly | src/core/routing/proxysql-manager.ts:553-590 | The rows of the asked hostgroup, or all of them. |
| ProxySql.ProxySQLManager.ExpectedServers | src/core/routing/proxysql-manager.ts:379-386 | A key's text is in the set iff the topology places that key. |
| ProxySql.ProxySQLManager.RemoveStale | src/core/routing/proxysql-manager.ts:388-403 | Deletes exactly the rows whose key is not expected and whose DELETE runs, and counts each of them; the others are swallowed. |
| ProxySql.ProxySQLManager.PlacePrimary | src/core/routing/proxysql-manager.ts:405-427 | The reader row of the primary goes unless that DELETE is lost, its writer row comes unless that INSERT is lost; counted iff it was new. |
| ProxySql.ProxySQLManager.AddReplicas | src/core/routing/proxysql-manager.ts:429-447 | The loop does the replica pass and counts the INSERTs that ran on an absent row, whichever statements are lost. |
| ProxySql.ProxySQLManager.SyncCluster | src/core/routing/proxysql-manager.ts:345-483 | The whole call for any lost statements and any hostgroups: table, both counters and success flag, from the rows it read or its stale copy; with the server statements served, the synced table and the sizes of the differences. |
| TopologyHash.HashCanonical | src/core/sync/sync-coordinator.ts:246-255 | Without `\|` in ids and hosts, two hashes are equal iff id, primary host/port/state and the multiset of replica host/port/state agree. |
| TopologyHash.HashSeesData | src/core/sync/sync-coordinator.ts:246-255 | The same on the fields: two clean hashes are equal iff id, the primary's host, port and state, and the multiset of the replicas' hosts, ports and states agree. |
| TopologyHash.HashFixesRouting | src/core/sync/sync-coordinator.ts:169-175 | Topologies with equal hashes route to the same servers. |
| TopologyHash.WatcherHashCanonical | src/core/sync/topology-watcher.ts:153-164 | The same for the watcher's hash, which also sees each replica's lag. |
| TopologyHash.LagFaceTells | src/core/sync/topology-watcher.ts:153-164 | What the watcher compares of an instance: host, port, state and lag, an unknown lag as 0. |
| TopologyHash.WatcherHashRefines | src/core/sync/topology-watcher.ts:101-121 | Equal watcher hashes imply equal coordinator hashes: the watcher misses no change the coordinator would see. |
| TopologyHash.HashCollides | src/core/sync/sync-coordinator.ts:246-255 | Two replicas in text order hash like one replica whose host spells out the first of them and a `\|`. |
| TopologyHash.IdentifiesExactly | src/core/sync/sync-coordinator.ts:246-255 | A topology shares its hash only with topologies of the same data iff it has no replicas and, if it has a primary, no `\|` in id and host. |
| SyncSteps.CallAfterCall | src/core/sync/sync-coordinator.ts:73-98 | A new call changes no earlier caller except that one waiting on the timer of its cluster becomes superseded. |
| SyncSteps.FireKeeps | src/core/sync/sync-coordinator.ts:88-98 | A timer that fires keeps the placement of callers, timers, locks and running syncs. |
| SyncSteps.FlightCounted | src/core/sync/sync-coordinator.ts:177-240 | Starting or moving a sync changes the number of syncs under way by exactly that sync. |
| SyncSteps.StepKeeps | src/core/sync/sync-coordinator.ts:59-279 | Every step (call, timer, failed or successful attempt, release, reset, clear, tick) keeps the invariant of locks, timers, callers, attempts and counters. |
| SyncRuns.OneSyncPerCluster | src/core/sync/sync-coordinator.ts:80-85 | In every reachable state each cluster has at most one sync in flight and never a live timer beside a lock, and the locks are the syncs in flight. |
| SyncRuns.EveryCallerPlaced | src/core/sync/sync-coordinator.ts:59-145 | In every reachable state each caller is answered, joined to the running sync of its cluster, on the live timer, or superseded by a later call for its cluster. |
| SyncRuns.SupersededWhen | src/core/sync/sync-coordinator.ts:73-78 | A caller becomes superseded iff it waits on the timer and a valid call for its cluster arrives. |
| SyncRuns.VerdictsAreFinal | src/core/sync/sync-coordinator.ts:73-98 | Answers never change, and a superseded caller is never answered however the run goes on. |
| SyncRuns.AllAnsweredWhenIdle | src/core/sync/sync-coordinator.ts:59-145 | With no timer and no sync in flight everyone is answered except the superseded. |
| SyncRuns.CountersBalance | src/core/sync/sync-coordinator.ts:177-240 | Total syncs always equal successes plus failures plus syncs past the skip checks; no sync exceeds `maxRetries` attempts. |
| SyncRuns.RecordedTimeHolds | src/core/sync/sync-coordinator.ts:157-194 | A recorded sync time never falls back while it is not forgotten. |
| SyncRuns.SyncsAreSpaced | src/core/sync/sync-coordinator.ts:156-167 | An unforced sync that does work starts at least `cooldownMs` after any earlier success for its cluster, unless cooldown or cache was reset in between. |
| SyncAnswers.WorksExactly | src/core/sync/sync-coordinator.ts:155-183 | A sync whose timer fires makes its first attempt iff it is forced, or the cooldown since the last success not forgotten (or since time 0) is over and the topology differs from that of the last success not cleared; otherwise it is a counted skip, for the cooldown first. |
| SyncAnswers.FirstSyncWorks | src/core/sync/sync-coordinator.ts:155-183 | A cluster never synced, or whose records were cleared, is synced at its first unforced call once the clock is past the cooldown. |
| SyncAnswers.DisabledAnswers | src/core/sync/sync-coordinator.ts:124-134 | While syncing is disabled a timer that fires answers its caller and starts nothing. |
| SyncAnswers.StartsDebounced | src/core/sync/sync-coordinator.ts:73-98 | A timer fires no sooner than `debounceMs` after the last accepted call for its cluster, or at once when that call was forced. |
| SyncAnswers.TimerTells | src/core/sync/sync-coordinator.ts:73-98 | It carries topology and force of that last call, and belongs to it. |
| SyncAnswers.CallPlaces | src/core/sync/sync-coordinator.ts:59-98 | A call is refused without an id or any member, joins the running sync of its cluster, or waits alone on a new timer. |
| SyncAnswers.AnswersTell | src/core/sync/sync-coordinator.ts:140-240 | Whoever joined a sync, and no one else, is told what became of it: the servers added by the attempt that succeeded, giving up after exactly `maxRetries` failures, or a skip without any attempt. |
| SyncRuns.SkipTrustsRecord | src/core/sync/sync-coordinator.ts:169-198 | A topology skipped as `no_change` needs no sync iff the recorded one still needs none. |
| SyncRuns.SkipTrustsWriter | src/core/sync/sync-coordinator.ts:169-198 | In terms of the topology last written in full: sound iff it places the same keys (and rewrites none); always when both route alike. |
| SyncRuns.SkipTrustsStatements | src/core/sync/sync-coordinator.ts:169-210 | In every run, after the success that recorded the hash, or a failure for the same servers, with nothing written since: the skip is sound iff every statement that attempt needed ran, whatever it read and lost. |
| SyncRuns.QuietRunAgrees | src/core/sync/sync-coordinator.ts:183-224 | When all calls are for one cluster, failed attempts leave the table alone and successful ones write it in full, a recorded topology is what the table holds. |
| SyncRuns.QuietSkipsAreSound | src/core/sync/sync-coordinator.ts:169-175 | In such runs every `no_change` skip is sound. |
| SyncRuns.QuietRecordsAreRows | src/core/sync/sync-coordinator.ts:192-195 | ... and for every topology with the recorded hash a sync would change no row: the two hostgroups hold exactly its servers. |
| SyncRuns.StaleSkipHappens | src/core/sync/sync-coordinator.ts:171-224 | With the default settings, any two topologies of one cluster give a run that skips the first as unchanged while the table holds the rows of the second: sound iff both place the same keys. |
| SyncRuns.SwallowedSkipHappens | src/core/sync/sync-coordinator.ts:171-210 | From any table, a success that read and lost anything is followed by a skip, sound iff every statement that was needed ran. |
| SyncCoordinator.SyncCoordinator.constructor | src/core/sync/sync-coordinator.ts:39-53 | Starts in the initial state of the step system. |
| SyncCoordinator.SyncCoordinator.Sync | src/core/sync/sync-coordinator.ts:59-99 | Does the call step: invalid input is answered at once, a running sync is joined, otherwise the timer is set anew. |
| SyncCoordinator.SyncCoordinator.ClearPending | src/core/sync/sync-coordinator.ts:73-78 | Clearing the timer supersedes the caller that waited on it. |
| SyncCoordinator.SyncCoordinator.TimerCallback | src/core/sync/sync-coordinator.ts:89-139 | Does the timer step, up to the first attempt, from every valid state in which the timer is due; when that is an attempt, SyncAnswers.WorksExactly says. |
| SyncCoordinator.SyncCoordinator.StartSync | src/core/sync/sync-coordinator.ts:155-183 | The skip checks decide the first phase and count one skip or one started sync. |
| SyncCoordinator.SyncCoordinator.Attempt | src/core/sync/sync-coordinator.ts:183-225 | One turn of the retry loop on the real table is a failed or a successful attempt, by whether the tail was served; the table is what the statements that ran make of it. |
| SyncCoordinator.SwallowedInsertSkips | src/core/sync/sync-coordinator.ts:171-210 | With the default settings, a swallowed INSERT of the primary on an empty table is recorded as success and the next sync is skipped: soundly iff there is no primary outside the replicas. |
| SyncCoordinator.SyncCoordinator.RecordSuccess | src/core/sync/sync-coordinator.ts:192-210 | A success, and nothing else, records time and hash. |
| SyncCoordinator.SyncCoordinator.RecordFailure | src/core/sync/sync-coordinator.ts:211-240 | A failure leads to the next attempt or, after the last one, to a counted failure. |
| SyncCoordinator.SyncCoordinator.Release | src/core/sync/sync-coordinator.ts:140-144 | Deletes the lock and answers everyone who joined with the same result. |
| SyncCoordinator.SyncCoordinator.ResetCooldownOf | src/core/sync/sync-coordinator.ts:267-270 | Forgets the time of one cluster only. |
| SyncCoordinator.SyncCoordinator.ClearCacheMaps | src/core/sync/sync-coordinator.ts:275-279 | Forgets hashes and times of all clusters (its comment mentions only the hashes). |
| EditDistance.NoShorterScript | src/cli/completer.ts:345-371 | No sequence of insertions, deletions and substitutions that turns one string into the other is shorter than the computed distance. |
| EditDistance.ShortestScript | src/cli/completer.ts:345-371 | A sequence of exactly that length exists. |
| EditDistance.Triangle | src/cli/completer.ts:345-371 | The triangle inequality. |
| EditDistance.LeastEditsIsMetric | src/cli/completer.ts:345-371 | The least number of edits is zero exactly on equal strings, symmetric, and obeys the triangle inequality. |
| EditDistance.FillMatrix | src/cli/completer.ts:346-370 | The nested loops over the matrix compute the distance. |
| EditDistance.LevenshteinDistance | src/cli/completer.ts:345-371 | The result is the least number of edits over all edit scripts. |
| EditDistance.SimilarAreNearest | src/cli/completer.ts:314-330 | The names given are commands and near, at most three, nearest first; a near one is missing only when three are given and none of them is farther. |
| EditDistance.NearExactly | src/cli/completer.ts:325-326 | Near means at most three edits between the lower-cased texts, and fewer than the input has letters. |
| EditDistance.NearerExactly | src/cli/completer.ts:327 | A name comes before another iff it takes no more edits. |
| EditDistance.SimilarIsStable | src/cli/completer.ts:325-327 | Equally near commands keep the order in which they were given. |
| EditDistance.FindSimilar | src/cli/completer.ts:314-330 | The loop over all commands, the filter, the sort and the slice give these names. |
| SqlText.LexLiteral | src/core/routing/proxysql-manager.ts:145-158 | A printed value followed by anything but a quote lexes to the tokens of the value: a string to one literal that decodes to it, the others to bare characters. |
| SqlText.MeaningOutside | src/core/routing/proxysql-manager.ts:145-158 | For a clean template the interpolated text lexes to the template's tokens with the i-th placeholder replaced by the i-th value. |
| SqlText.InterpolationExact | src/core/routing/proxysql-manager.ts:141-159 | Interpolation keeps the meaning for all parameters iff no `?` lies inside a literal or touches a quote or another `?`. |
| SqlText.ParametersArrive | src/core/routing/proxysql-manager.ts:141-159 | In the text sent for a clean template the i-th placeholder is read as the i-th parameter: a string by its literal, a number by parsing its digits, a truth value as 1 or 0, NULL and missing parameters as NULL; everything else is the template's. |
| SqlText.DenotesOnce | src/core/routing/proxysql-manager.ts:145-158 | Tokens denote at most one string and one number, and NULL is neither. |
| SqlText.BuildQuery | src/core/routing/proxysql-manager.ts:134-159 | The replacing pass sends a text in which every parameter arrives at its placeholder; without parameters the text stays as it is. |
| ListeningPorts.RoundTrip | src/core/routing/proxysql-manager.ts:667-692 | Parsing the printed interface list returns any list of ports that is not empty. |
| ListeningPorts.PrintedText | src/core/routing/proxysql-manager.ts:691 | The text has `0.0.0.0:port` for each port, separated by semicolons. |
| ListeningPorts.ParseAnyAddress | src/core/routing/proxysql-manager.ts:673-677 | The port is what follows the last colon, whatever address stands before it. |
| ListeningPorts.DefaultMeant | src/core/routing/proxysql-manager.ts:667-678 | Without any number in the variable the default port is meant. |
| ListeningPorts.AddUndone | src/core/routing/proxysql-manager.ts:683-735 | Adding is idempotent, and removing a freshly added port restores the list. |
| ListeningPorts.RemovedUnlessDefault | src/core/routing/proxysql-manager.ts:718-721 | After a removal the port is gone, except when it is the default port and was the only one listed. |
| ListeningPorts.BlindAddKeeps | src/core/routing/proxysql-manager.ts:667-706 | Adding a port while the list cannot be read keeps every listed port iff only the default one and the new one were listed. |
| ListeningPorts.ListeningPorts.AddListeningPort | src/core/routing/proxysql-manager.ts:683-706 | The flag, the text written and the ports read back afterwards, for a list that may not be readable and statements that may fail: a known port or a failed UPDATE leaves the variable alone. |
| ListeningPorts.ListeningPorts.RemoveListeningPort | src/core/routing/proxysql-manager.ts:711-735 | The same for a removal; an empty list is replaced by the default port. |
| EditorModel.PressKeeps | src/cli/raw-input.ts:203-514 | Every event and the paste timeout keep the history position and the selected suggestion in range. |
| EditorLaws.ArrowKeys | src/cli/raw-input.ts:306-345 | Outside a paste the two arrow sequences do the two history steps, also where pastes are marked. |
| EditorLaws.HistoryRestores | src/cli/raw-input.ts:306-345 | From any position, k Ups and k Downs restore its text, with the cursor at the end, when no entry on the way opens the menu. |
| EditorLaws.WalkRests | src/cli/raw-input.ts:306-345 | k Ups and k Downs end on the text shown where the walk comes to rest: at the first step that opens the menu, else at the last. |
| EditorLaws.HistorySticks | src/cli/raw-input.ts:306-345 | From any position, the first entry on the way that opens the menu holds the line for all further Ups and Downs. |
| EditorLaws.HistoryRestoresExactly | src/cli/raw-input.ts:306-345 | From any position of a non-empty history and for any k, the text is restored iff the step on which the walk comes to rest (the first that opens the menu, else the last) shows that text. |
| EditorLaws.PlainEntriesAreQuiet | src/cli/raw-input.ts:534-539 | Entries that do not start with `/` open no menu. |
| EditorLaws.NoEndAcrossEnd | src/cli/raw-input.ts:240-246 | The end marker has no self-overlap: before a whole one it occurs only inside the text. |
| EditorLaws.WholePaste | src/cli/raw-input.ts:206-219 | A paste in one chunk inserts its printable characters at the cursor. |
| EditorLaws.ChunkedPaste | src/cli/raw-input.ts:206-256 | So does a paste split into chunks with both markers whole. |
| EditorLaws.ChunkingIndependent | src/cli/raw-input.ts:203-262 | Both leave the same line, cursor, menu and history position, wherever the content was split. |
| EditorLaws.PasteOpenExactly | src/cli/raw-input.ts:203-262 | Over any chunks at all: a paste is open at the end iff the session, or some chunk, opened one and no chunk from there on holds the whole end marker. |
| EditorLaws.PasteClosesExactly | src/cli/raw-input.ts:203-262 | Over any chunks that start no other paste: the paste stays open iff it was open and no chunk holds the whole end marker. |
| EditorLaws.SplitMarkerMissed | src/cli/raw-input.ts:239-256 | An end marker split over two chunks, at any place, leaves the paste open and the line unchanged. |
| EditorKeys.KillKeys | src/cli/raw-input.ts:444-458 | Ctrl+K keeps exactly the text before the cursor and Ctrl+U exactly the text behind it. |
| EditorKeys.KillWordKey | src/cli/raw-input.ts:461-477 | Ctrl+W cuts the last word before the cursor and the spaces behind it; what is kept is empty or ends in a space. |
| EditorKeys.OneCut | src/cli/raw-input.ts:461-477 | There is only one such cut. |
| EditorKeys.DeleteKeys | src/cli/raw-input.ts:416-434 | Both Backspace codes delete the character before the cursor, Delete the one behind it. |
| EditorKeys.TransposeKey | src/cli/raw-input.ts:480-489 | Ctrl+T swaps the two characters before the cursor and changes nothing else. |
| EditorKeys.TypesText | src/cli/raw-input.ts:492-513 | Printable characters are inserted at the cursor. |
| EditorKeys.BackspaceUndoes | src/cli/raw-input.ts:416-513 | Backspace restores the line from before a character was typed. |
| EditorKeys.SideKeys | src/cli/raw-input.ts:347-361 | Left and Right move by one character and undo each other. |
| EditorKeys.LeftDeleteIsBackspace | src/cli/raw-input.ts:347-434 | Left and then Delete is Backspace. |
| EditorKeys.HomeEndKeys | src/cli/raw-input.ts:364-374 | Every variant of Home and End moves the cursor to an end of the line and nothing else. |
| EditorKeys.StopKeys | src/cli/raw-input.ts:265-283 | Ctrl+C cancels, Ctrl+D leaves. |
| EditorKeys.EnterSubmits | src/cli/raw-input.ts:377-408 | Without a menu Enter submits the text, and Tab does nothing. |
| EditorKeys.EnterAccepts | src/cli/raw-input.ts:377-402 | With a menu Tab takes over the selection, and Enter does the same and submits the result. |
| EditorKeys.CommandAccepted | src/cli/raw-input.ts:388-392 | A selected command replaces the line by `/name `. |
| EditorKeys.FlagAccepted | src/cli/raw-input.ts:381-387 | A selected flag replaces the last word before the cursor, without its value placeholder. |
| EditorKeys.UpKey | src/cli/raw-input.ts:306-324 | Up shows the next older entry, the newest first, and saves the text it leaves. |
| EditorKeys.DownKey | src/cli/raw-input.ts:326-345 | Down shows the next newer entry and at last the saved text. |
| EditorKeys.MenuKeys | src/cli/raw-input.ts:306-332 | In an open menu they move the selection by one and stop at its ends. |
| EditorKeys.CommandMenu | src/cli/raw-input.ts:534-552 | After a slash and one word the menu lists the commands the word begins. |
| EditorKeys.CommandMatches | src/cli/raw-input.ts:546-548 | A command is listed iff it starts with the word, both in lower case. |
| EditorKeys.FlagMenu | src/cli/raw-input.ts:555-575 | After a command and a last word with a dash it lists the flags of that command; after other words there is no menu. |
| EditorKeys.FlagMatches | src/cli/raw-input.ts:560-567 | A flag is listed iff it starts with the word, with its value placeholder when it takes a value. |
| EditorKeys.LongData | src/cli/raw-input.ts:492-513 | More than ten characters at once are a paste where the terminal does not mark pastes; otherwise only the printable ones are typed. |
| EditorKeys.StrayEnd | src/cli/raw-input.ts:258-262 | An end marker that closes nothing is dropped. |
| EditorKeys.TimeOutPastes | src/cli/raw-input.ts:223-230 | The paste timeout inserts what has arrived and ends the paste. |
| RawInput.RawInputHandler.HandleInput | src/cli/raw-input.ts:203-514 | The object with one buffer and a cursor index does to it what the two-part editor does, for every input; what that is, key by key, the laws of EditorKeys say. |
| RawInput.RawInputHandler.HandleKey | src/cli/raw-input.ts:264-513 | The same for each key outside a paste, with the value submitted or the reason to stop. |
| RawInput.RawInputHandler.PasteChunk | src/cli/raw-input.ts:204-262 | The same for chunks of a marked paste; tells whether the chunk belonged to one. |
| RawInput.RawInputHandler.PasteTimedOut | src/cli/raw-input.ts:223-230 | The timeout pastes what has arrived. |
| RawInput.RawInputHandler.WordStart | src/cli/raw-input.ts:461-471 | The two loops of Ctrl+W find where the last word before the cursor starts. |
| RawInput.RawInputHandler.Accept | src/cli/raw-input.ts:378-396 | Takes over the selected command, or replaces the last part before the cursor by the selected flag. |
| RawInput.RawInputHandler.ArrowUp | src/cli/raw-input.ts:306-324 | Moves the selection up or recalls an older entry, saving the text on the way out. |
| RawInput.RawInputHandler.ArrowDown | src/cli/raw-input.ts:326-345 | Moves the selection down or recalls a newer entry or the saved text. |
| RawInput.RawInputHandler.UpdateSuggestions | src/cli/raw-input.ts:534-578 | The menu is the one that belongs to the text. |
| Candidates.SelectIsBest | src/core/failover/candidate-selector.ts:22-44 | The choice is the first online replica of least lag; there is none iff no replica is online. |
| Candidates.SelectsLeastLag | src/core/failover/candidate-selector.ts:22-44 | On states and lags: the choice is online, no online replica is known to lag less, and none before it lags as little. |
| Candidates.NamedBy | src/core/failover/candidate-selector.ts:70-74 | An id names a replica by `host:port` or by host. |
| Candidates.FindFirst | src/core/failover/candidate-selector.ts:70-74 | The lookup returns the first replica that the id names. |
| Candidates.FoundAgain | src/core/failover/candidate-selector.ts:70-81 | For distinct addresses, a replica is found again through its printed id iff no earlier replica's host spells that id. |
| Candidates.ShadowedId | src/core/failover/candidate-selector.ts:70-74 | Otherwise an earlier replica whose host spells that id is found instead. |
| Failover.PhasesMoveForward | src/core/failover/operation-runner.ts:54-96 | The phases of a run only move forward and end in exactly one of COMPLETED and FAILED. |
| Failover.CompletedExactly | src/core/failover/operation-runner.ts:54-96 | A run completes iff all pre-hooks, the selection and the promotion succeed. |
| Failover.FailsByHook | src/core/failover/operation-runner.ts:111-120 | A run whose hook throws ends before anything is chosen, with the error of the first that does. |
| Failover.FailsWith | src/core/failover/operation-runner.ts:54-96 | Otherwise, by what goes wrong first, the selection or the promotion: the error recorded and the phases passed. |
| Failover.FailingSteps | src/core/failover/operation-runner.ts:54-96 | The steps of a failing run end with its error and name no phase it did not reach. |
| Failover.CompletesWith | src/core/failover/operation-runner.ts:54-96 | The phases and steps of a completed failover and switchover. |
| Failover.PromotesNamed | src/core/failover/operation-runner.ts:125-150 | A completed run names the target asked for, or the id of the replica of least lag, and promotes a replica of that name. |
| Failover.AutomaticChoice | src/core/failover/operation-runner.ts:133-149 | Without a target, the best replica's id is the target; the best replica itself is promoted iff no earlier one's host spells that id. |
| Failover.FollowsItselfExactly | src/core/failover/operation-runner.ts:188-198 | The first replica the target id names, by `host:port` or by host, is promoted; it is told to follow itself iff its host alone is the target id. |
| Failover.AutomaticFollowsItself | src/core/failover/operation-runner.ts:133-198 | Without a target, the promoted instance is told to follow itself iff an earlier host spells the best one's id. |
| Failover.AutomaticRelocatesOthers | src/core/failover/operation-runner.ts:188-198 | Without a target, exactly the replicas other than the best one are relocated. |
| Failover.ShadowPromoted | src/core/failover/operation-runner.ts:133-198 | The same for every host and port. |
| Failover.ShadowPromotedAtLoopback | src/core/failover/operation-runner.ts:133-198 | Two IPv6 loopback addresses: an offline replica is promoted in place of the online one and told to follow itself. |
| Failover.NoWriterAfterwards | src/core/failover/operation-runner.ts:204-217 | With the server statements served, every table a completed run can leave has no writer and all replicas as readers. |
| Failover.WriterOnlyByLoss | src/core/failover/operation-runner.ts:204-217 | Whatever that sync read and lost, the promoted instance is a writer afterwards iff it was one or its INSERT ran, and every DELETE that would move it to the readers was lost. |
| Failover.OldPrimaryRead | src/core/failover/operation-runner.ts:204-217 | With the server statements served, the old primary is routed to after a completed run iff the topology also listed it as a replica: for distinct members it is in neither hostgroup. |
| Failover.OperationRunner.RunPreHooks | src/core/failover/operation-runner.ts:111-120 | The first failing hook stops the rest. |
| Failover.OperationRunner.SelectCandidate | src/core/failover/operation-runner.ts:125-150 | The target, requested or selected, is recorded and looked up; both ways of failing have their message. |
| Failover.OperationRunner.ReconfigureReplicas | src/core/failover/operation-runner.ts:179-199 | One relocation per replica whose printed id is not the target id. |
| Failover.OperationRunner.Promote | src/core/failover/operation-runner.ts:155-217 | Promotion decides between failure with routing untouched and completion with routing synced, as far as the statements ran. |
| Failover.OperationRunner.UpdateRouting | src/core/failover/operation-runner.ts:204-217 | Syncs the topology with the promoted instance as primary and the replicas as they were; losses are not looked at. |
| Failover.OperationRunner.Execute | src/core/failover/operation-runner.ts:54-96 | Phases, steps, error, target, relocations and routing of every run, by its verdict. |
| Recovery.WaitingExactly | src/core/failover/recovery-manager.ts:28-55 | An instance waits iff it was queued and neither recovered nor cleared since, under the data it was last queued with. |
| Recovery.BatchPartitions | src/core/failover/recovery-manager.ts:124-148 | The recovered and still-pending lists share nothing and together are the starting keys. |
| Recovery.ErrorsExactly | src/core/failover/recovery-manager.ts:124-148 | An error is listed iff it is the message of a still-pending instance and reports neither an offline nor an absent one. |
| Recovery.AbsentUnreported | src/core/failover/recovery-manager.ts:124-148 | An absent or offline instance stays queued without an error. |
| Recovery.MessagesName | src/core/failover/recovery-manager.ts:66-112 | The answers name the thread that stands still, the state found, or the new primary. |
| Recovery.RecoveryManager.QueueForRecovery | src/core/failover/recovery-manager.ts:28-34 | Queues under the instance id; the queue stays what its history says. |
| Recovery.RecoveryManager.Clear | src/core/failover/recovery-manager.ts:53-55 | Removes one id and tells whether it was there. |
| Recovery.RecoveryManager.Recover | src/core/failover/recovery-manager.ts:60-119 | Leaves the queue iff the instance was pending and every check passed; each failure has its message. |
| Recovery.RecoveryManager.RecoverAll | src/core/failover/recovery-manager.ts:124-148 | Exactly the instances that did not recover stay queued, the others leave one by one; errors are those of still-pending ones that are neither offline nor absent. |
| Executor.PromotedHasId | src/core/failover/executor.ts:291-306 | A completed run always knows the new primary's id, so its old primary is always queued. |
| Executor.PendingExactly | src/core/failover/executor.ts:291-306 | Over every sequential run the queue is exactly the old primaries of completed failovers not since recovered or cleared. |
| Executor.PendingData | src/core/failover/executor.ts:291-306 | What is queued is what the last failover away from the instance knew: cluster, address and new primary. |
| Executor.QueueingTold | src/core/failover/executor.ts:291-306 | A run tells of exactly the instance it queues. |
| Executor.BatchDeparts | src/core/failover/recovery-manager.ts:124-148 | A batch does to the queue what one departure per recovered instance does, so that the exact description covers batches. |
| Executor.OneRefused | src/core/failover/executor.ts:94-162 | Whatever the cluster looks like, a switchover or a manual failover is refused, and both exactly for an unknown target. |
| Executor.RefusedExactly | src/core/failover/executor.ts:91-162 | A manual failover is refused iff the primary is online or no replica has the target, a switchover iff it is not online or no replica has it; with which error. |
| Executor.UnknownTargetText | src/core/failover/executor.ts:144-156 | The error lists the ids of all replicas. |
| Executor.FailoverExecutor.ExecuteFailoverOperation | src/core/failover/executor.ts:280-313 | Phases, steps, error, relocations and routing of the run, the old primary queued iff it completed and there was one, one history entry. |
| Executor.FailoverExecutor.ExecuteSwitchoverOperation | src/core/failover/executor.ts:261-275 | Phases, steps, error, relocations and routing of the run and one history entry; the recovery queue is not touched. |
| Executor.FailoverExecutor.ExecuteAutomaticFailover | src/core/failover/executor.ts:75-85 | One history entry, the routing of the run and, on completion, the old primary queued. |
| Executor.FailoverExecutor.ExecuteManualFailover | src/core/failover/executor.ts:129-162 | With an online primary it fails with nothing else changed; otherwise, for no target or one that a replica has, it runs and completes iff all hooks, the selection and the promotion go well. |
| Executor.FailoverExecutor.ExecuteSwitchover | src/core/failover/executor.ts:91-123 | Without an online primary it fails with nothing else changed; otherwise, for no target or one that a replica has, it runs and completes iff all hooks, the selection and the promotion go well. |
| Provisioner.FirstFreeIsLeast | src/core/provisioning/cluster-provisioner.ts:154-165 | The stepping loop finds the least unused number of its grid, and none iff all of them are used. |
| Provisioner.ExhaustionNeedsAll | src/core/provisioning/cluster-provisioner.ts:154-165 | Running out takes one used number per grid point. |
| Provisioner.AllocationIsFree | src/core/provisioning/cluster-provisioner.ts:142-172 | An allocation is in range, free, on the grid, and the least such port and writer hostgroup. |
| Provisioner.AllocationFailsExactly | src/core/provisioning/cluster-provisioner.ts:154-165 | Allocation fails iff every port or every block of its range is held. |
| Provisioner.FewRowsAllocate | src/core/provisioning/cluster-provisioner.ts:142-172 | With fewer rows than ports and than blocks, allocation succeeds. |
| Provisioner.RunSound | src/core/provisioning/cluster-provisioner.ts:68-177 | Over every run of provisions and deprovisions, failing ones included, held ports and writer hostgroups stay distinct, in range and on the grid. |
| Provisioner.ProvisionWrites | src/core/provisioning/cluster-provisioner.ts:68-137 | The row a valid provision of a new id writes: ready iff everything works, failed otherwise, with what was allocated; no other row changes. |
| Provisioner.DeprovisionTakes | src/core/provisioning/cluster-provisioner.ts:530-579 | A working deprovision of a row with resources removes that row, any other changes nothing. |
| Provisioner.StuckForever | src/core/provisioning/cluster-provisioner.ts:530-538 | A row without resources is never removed, freed or replaced by any run. |
| Provisioner.StuckReached | src/core/provisioning/cluster-provisioner.ts:68-177 | For all settings, some run of valid provisions reaches a row without resources, which every later run keeps. |
| Provisioner.FirstAtZeroSticks | src/core/provisioning/cluster-provisioner.ts:530-538 | With hostgroups from 0, the first cluster is ready and holds resources, and no run removes it. |
| Provisioner.RemovableExactly | src/core/provisioning/cluster-provisioner.ts:530-579 | A working deprovision frees exactly the rows that hold resources and whose writer and reader hostgroups are not 0. |
| Provisioner.DisjointExactly | src/core/provisioning/cluster-provisioner.ts:157-166 | First fit: a new block is disjoint from every held one iff the first writer hostgroup of the range and the one ten above it are unused. |
| Provisioner.BlockBelowHeld | src/core/provisioning/cluster-provisioner.ts:157-166 | Once the first writer hostgroup is used, the new writer hostgroup is the reader hostgroup of some held block. |
| Provisioner.SecondOverlapsFirst | src/core/provisioning/cluster-provisioner.ts:157-166 | The second cluster's writer hostgroup is the first one's reader hostgroup. |
| Provisioner.WipeSparesExactly | src/core/provisioning/cluster-provisioner.ts:544-548 | Deprovisioning one cluster spares another's servers, whatever the table holds, iff their blocks are disjoint. |
| Provisioner.WipedExactly | src/core/provisioning/cluster-provisioner.ts:544-548 | Exactly the rows of the two hostgroups go. |
| Provisioner.InsertAllExactly | src/core/provisioning/cluster-provisioner.ts:363-377 | All server INSERTs go through iff their keys are new and distinct, and then all of them are rows. |
| Provisioner.ReachedExactly | src/core/provisioning/cluster-provisioner.ts:357-377 | The INSERTs sent before the connection breaks: first host as writer, the others as readers, in order. |
| Provisioner.InsertAllKeeps | src/core/provisioning/cluster-provisioner.ts:363-377 | Failing or not, the INSERTs lose and change no existing row and add none but their own. |
| Provisioner.ClusterProvisioner.AllocateResources | src/core/provisioning/cluster-provisioner.ts:142-177 | The two loops compute the first-fit allocation. |
| Provisioner.ClusterProvisioner.AddServers | src/core/provisioning/cluster-provisioner.ts:357-377 | INSERTs the primary as writer and the others as readers up to the first key that exists or the statement on which the connection breaks. |
| Provisioner.ClusterProvisioner.Provision | src/core/provisioning/cluster-provisioner.ts:68-137 | The answer, the metadata row and the server table of every course of a provision. |
| Provisioner.ClusterProvisioner.Deprovision | src/core/provisioning/cluster-provisioner.ts:530-579 | Removes the row iff everything works; a late failure keeps the row although the servers are gone. |
| JsBits.AndHighOnes | src/core/discovery/scanner.ts:126-127 | Anding with a run of high ones clears exactly the low bits. |
| JsBits.OrLowOnes | src/core/discovery/scanner.ts:128 | Oring with a run of low ones fills a number whose low bits are clear. |
| JsBits.ShiftOnes | src/core/discovery/scanner.ts:126 | Shifting ones to the left within 32 bits leaves a run of high ones. |
| JsBits.ShiftedBytes | src/core/discovery/scanner.ts:125 | Signed left shifts by 24, 16 and 8 multiply modulo 2^32. |
| Scanner.SignedAddress | src/core/discovery/scanner.ts:125 | The signed sum of shifted octets is the address modulo 2^32, for every octet text. |
| Scanner.MaskOf | src/core/discovery/scanner.ts:126 | The mask has ones above the host bits, for every prefix text. |
| Scanner.NetworkAddress | src/core/discovery/scanner.ts:127 | The network address is the start of the aligned block (section 3.1 of RFC 4632). |
| Scanner.BroadcastAddress | src/core/discovery/scanner.ts:128 | The broadcast address is the last of the block. |
| Scanner.HostText | src/core/discovery/scanner.ts:137-142 | Shifts and masks print the four octets of the address. |
| Scanner.ExpandNetwork | src/core/discovery/scanner.ts:110-146 | On every input text, signed 32-bit arithmetic gives what modular arithmetic gives. |
| Scanner.ExpandsBlock | src/core/discovery/scanner.ts:110-146 | For every printed address and prefix 0 to 31 the hosts are those of the block around the address. |
| Scanner.SingleHost | src/core/discovery/scanner.ts:111-116 | A plain address, or one with prefix 32, is scanned as it is spelled. |
| Scanner.NotAnAddress | src/core/discovery/scanner.ts:119-122 | Any other prefix needs an address of four parts. |
| Scanner.PrefixWraps | src/core/discovery/scanner.ts:126-130 | A prefix beyond 32 counts modulo 32, as shift counts do. |
| Scanner.BlockCount | src/core/discovery/scanner.ts:130-143 | They are the first min(2^k - 2, 256) addresses after the network address, ascending. |
| Scanner.HostsReparse | src/core/discovery/scanner.ts:119-143 | Each printed host parses to its own number, strictly between network and broadcast. |
| Scanner.ExpandPorts | src/core/discovery/scanner.ts:151-157 | All ports of the range in order. |
| Scanner.PortsExactly | src/core/discovery/scanner.ts:151-157 | A port is scanned iff it lies in the range, both ends included. |
| Scanner.Targets | src/core/discovery/scanner.ts:69-75 | Host by host, port by port. |
| Scanner.ProductCount | src/core/discovery/scanner.ts:69-75 | Every host/port pair is targeted as often as host and port are listed: once for distinct ones. |
| Scanner.RunBatch | src/core/discovery/scanner.ts:85-96 | A batch probes its targets once, in order, and counts what it finds. |
| Scanner.FoundExactly | src/core/discovery/scanner.ts:85-96 | The results are the probes that met MySQL, in the order they were made. |
| Scanner.Scan | src/core/discovery/scanner.ts:66-105 | For every batch size on which the loop ends, every target is probed once, in order, and the results are the MySQL ones in that order. |
| Orchestrator.ParseTopology | src/core/discovery/topology.ts:514-557 | The primary is the last usable top instance, the replicas all other usable instances in order; earlier top instances are lost. |
| Orchestrator.ReplicasRead | src/core/discovery/topology.ts:534-640 | Replica by replica, on the fields of its report: address, lag, state (online iff the last check is valid and it is neither in maintenance nor downtimed) and role; one replica per report below the top, in order. |
| Orchestrator.ReplicaFrom | src/core/discovery/topology.ts:534-640 | Every replica comes from such a report. |
| Orchestrator.PrimaryFrom | src/core/discovery/topology.ts:534-640 | The primary is read the same way from the last report of a top instance; without one there is none. |
| ReportedChoice.ChosenFromReports | src/core/failover/candidate-selector.ts:22-44 | The choice of an automatic failover comes from the first report of least lag among those in service below the top; there is none iff there is no such report. |
| Orchestrator.ReplicaAddrsExactly | src/core/discovery/topology.ts:534-554 | The replica addresses are those of the usable reports below the top. |
| Orchestrator.ParsedIsDistinct | src/core/discovery/topology.ts:534-554 | Reports of distinct addresses give a primary outside the replicas and no repeats. |
| ClusterView.LastRowFound | src/core/discovery/cluster-view.ts:219-224 | The lookup by `host:port` returns a row of that very address, if there is one. |
| ClusterView.KnownMeansMember | src/core/discovery/cluster-view.ts:228-281 | A printed id is known iff the address is a member. |
| ClusterView.DetectSyncWarnings | src/core/discovery/cluster-view.ts:210-291 | The warnings of primary and replicas, then those of unknown serving rows, in order. |
| ClusterView.WarningAbout | src/core/discovery/cluster-view.ts:228-275 | A member without a row is missing; one whose last row is in another hostgroup than its role asks for is in the wrong one; no other member draws a warning. |
| ClusterView.MemberWarningsOf | src/core/discovery/cluster-view.ts:226-276 | The primary is held against the writer hostgroup, the replicas against the reader hostgroup. |
| ClusterView.UnknownWarningsOf | src/core/discovery/cluster-view.ts:278-288 | A row draws a warning iff it is ONLINE and of no member. |
| ClusterView.SyncSilencesMembers | src/core/discovery/cluster-view.ts:226-276 | After a sync of a topology whose primary is not also a replica, no warning about a member remains when no other hostgroup holds one. |
| ClusterView.SyncLeavesForeign | src/core/discovery/cluster-view.ts:278-288 | The unknown warnings are then about exactly the ONLINE rows of other hostgroups. |
| ClusterView.ParseSyncCheck | src/core/discovery/cluster-view.ts:210-291 | Parse, sync, check: for reports of distinct addresses both hold, whatever the table held before and in whatever order it is read. |
| ClusterView.ParseSyncAndCheck | src/core/discovery/cluster-view.ts:56-115 | The three calls in a row leave only warnings about unknown rows. |
| ClusterView.ForeignCopyWarns | src/core/discovery/cluster-view.ts:219-224 | If another hostgroup holds a member, primary or replica, some reading order of the synced table draws a wrong-hostgroup warning for it. |
| ClusterView.QuietExactly | src/core/discovery/cluster-view.ts:210-276 | After a sync no reading order draws a warning about a member iff no other hostgroup holds one and the primary is not also a replica. |

## Left out

- ProxySql.ProxySQLManager.SyncCluster: monitor credentials, replication hostgroups, query rules, load/save and the database mirror appear only as a tail that may fail.
- ServerTable.SyncIdempotent: says nothing about weights and states beyond keeping the rows that exist; rows written by other programs between two statements are not modelled.
- ServerTable.SyncOutcome: is for different writer and reader hostgroups; with equal ones ProxySql.SharedHostgroup tells the servers, not the counters.
- SyncCoordinator.SyncCoordinator.Attempt: one `syncCluster` call is one step, so statements of two clusters' calls do not interleave.
- SyncCoordinator.SyncCoordinator.Release: a settled result is delivered when the lock is released, in the same step.
- SyncRuns.QuietSkipsAreSound: is for runs of one cluster whose failed attempts leave the table alone and whose successful ones swallow nothing, because all clusters share two hostgroups; SyncRuns.SkipTrustsWriter and SyncRuns.SkipTrustsStatements are for all runs.
- SyncRuns.SkipTrustsStatements: is for different writer and reader hostgroups and topologies without `|`; after a failed attempt for other servers that lost statements, only ProxySql.OutcomeHas tells the keys.
- EditDistance.FindSimilar: lower-cases ASCII letters only.
- Scanner.Scan: the loop does not end for a batch size that is not positive unless there is nothing to probe; the probe itself, its timeouts and the progress callback are left out.
- Scanner.SignedAddress: octet texts beyond the range where JavaScript numbers are exact are not modelled.
- EditorLaws.ChunkingIndependent: no timeout strikes between the chunks, both markers arrive whole and no later chunk starts with the start marker.
- Failover.OperationRunner.Execute: hooks answer but do not change the operation; post-hooks, timestamps and cancelled runs are left out, since a cancel does not stop a run.
- Provisioner.ClusterProvisioner.Provision: one provision at a time; UPDATEs of its own metadata row do not fail.
- Orchestrator.ParseTopology: the nested topology format, labels, versions and timestamps are left out.
- Numbers are unbounded integers: no NaN ports, fractional lags or exponent notation. Strings are sequences of characters, ordered character by character.
- The topology watcher's polling, its replica recovery and its start and stop, which record a hash even when the sync was skipped.
- Replacing the history in the middle of an edit, rendering, prompts and terminal codes.
- Merging instances with statistics, health ratios and the hostgroup map of the cluster view: expressions without state.
- HTTP, MySQL, process and file plumbing, API routes, settings, logging, metrics, the audit log and the AI agent.
