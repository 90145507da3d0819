# Dirextalk Agent: verified models

Dafny models of the protocols, parsers, caches and bounded-text algorithms at the core of the Dirextalk Agent, each with
proofs of what the system relies on. `dafny verify dfyconfig.toml` checks the whole project.

| File | What it models |
|---|---|
| `MigrationBundle.dfy` | the migration bundle format: parser, printer, round trip |
| `Placement.dfy` | the single-flight region cache under any interleaving, and the choice of a region |
| `GroupLoop.dfy` | the group delivery loop over the durable turn store |
| `WorkloadStore.dfy` | a Worker's stored services and domains, host names, and admission of services |
| `Route53.dfy` | planned record changes and the clean-up of one service's domain claims |
| `DomainIntent.dfy` | what a bind or unbind resolves to, and again while it is carried out |
| `DomainProtocol.dfy` | bind, publish and unbind as one write-ahead protocol: any number of overlapping operations, crashes, other parties |
| `DomainRuns.dfy`, `DomainRaces.dfy` | building runs step by step; the runs in which clashing operations lose a record |
| `DomainRetry.dfy` | the intent survives its own progress, and a retry completes in the one final state |
| `StoredView.dfy`, `Destroy.dfy` | the stored list as the protocol sees it; destroy from every crash point, and exactly when it leaks |
| `DomainExecutor.dfy` | publish, bind, unbind and destroy as methods over store and zone, call by call |
| `Separation.dfy` | keeping ports and host names of workloads apart over admissions, races and binds |
| `Credential.dfy` | the fenced credential read against a changing store |
| `MessagePages.dfy` | backward paging through conversation messages |
| `Utf8.dfy`, `MemoryRecall.dfy` | UTF-8 and the byte-budgeted memory text |
| `ToolDispatch.dfy` | at-most-once dispatch of a conversation tool |
| `Catalog.dfy` | the fresh/stale catalog of message tools |
| `GroupSummary.dfy` | the rolling summary and its watermark |
| `Inventory.dfy` | the worker listing merged from records and providers |
| `SpeakerName.dfy`, `BoundedOutput.dfy` | name cleaning and bounded output capture |
| `Common.dfy`, `Sorting.dfy` | shared vocabulary: options, string order, trimming, stable sort |

How the models are built. State that the source updates in place is a class whose methods are proved equal to
specification functions. Protocols are machines of events (`Enabled`, `Step`, `Runs`, `After`); crashes, lost answers,
other processes and clocks are events or parameters, and the imperative methods are proved to be runs of the machine
whatever happens between two of their operations. Calls to AWS, Route53, the database, models and tools appear only
through their possible answers.

Some promises do not hold without a condition. Each is stated as the exact condition, with a case in which it fails:

* **Overlapping operations on one workload can lose a record.** Nothing in the source keeps them apart. Over every run
  all records stay claimed exactly when every upsert finds its claim stored, every commit nothing else written and every
  clear nothing written (`AlwaysOwnedExactly`). What a caller can check beforehand is that an operation is begun only
  while the ones under way on its workload get along with it: all unbind, or all bind or publish the same domain. Then no
  record is lost (`RecordsStayClaimed`). Clashing operations do lose records although every fence passes: an unbind
  and a staged bind (`UnbindLosesStagedBind`), an unbind and a bind that finished inside it, so that it does not help to
  look at the moment of the clear alone (`UnbindLosesFinishedBind`), an unbind and a write still in flight
  (`UnbindLosesLateWrite`), and publishes of different records (`PublishLosesPublish`, `LateWriteLosesPublish`). A lost
  record outlives the destroy (`LostSurvives`).
* **Destroy may report success and leave a record.** `deleteDomain` drops a read-back error of the pending claim when
  both claims name the same record. Success means "no claimed record left" exactly when the service is not `Exposed`
  (`CleanupExact`), and for a whole destroy exactly when no service is `AtRisk` (`DestroyExact`). An orderly run with one
  crash gets there (`RiskIsReached`). Nor does destroy wait for operations under way: nothing is left, and nothing
  appears later, exactly when besides no operation is in flight (`CrashThenDestroyExactly`).
* **A planned upsert overwrites a record that appears between its read and its write**, and only then
  (`UpsertOverwritesExactly`).
* **A redeclared service can make a Worker's file unreadable.** `PutService` carries the domain slots over unchecked, and
  admission does not look at the pending one: the file stays readable exactly when the slots agree with the declared host
  name (`PutKeepsReadableExactly`, `AdmittedReadableExactly`, `AdmittedUnreadable`); afterwards no operation can repair
  it (`UnreadableForever`).
* **Admission and write are not one step**: two requests for different workloads admitted against the same list are kept
  apart exactly when they ask for different ports and host names (`RacingAdmissionsExactly`).
* **A bind looks at no other workload**: ports and host names stay apart exactly when no bind takes a host name that
  another workload answers to (`AlwaysSeparateExactly`, `BindCollides`).
* **A notice whose answer is lost is posted again**, and only then (`RepeatsExactlyWhenLost`).
* **Paging is complete exactly when projected sequence numbers strictly increase** (`CompleteExactlyWhenIncreasing`).
* **Recalled timeline entries can lose their heading** and follow the facts directly, when a few bytes are left: the body
  is the beginning of the full listing exactly when that does not happen (`BodyIsPrefixExactly`, `MisfiledHappens`).
* **A summary watermark of zero does not move the read floor**: every further sweep that saves raises the watermark, and
  has a window disjoint from all before, exactly when the stored watermark is positive (`NextSweepMovesOnExactly`).

## Model

| member | source | states |
|---|---|---|
| `MigrationBundle.ParseBundle` | migrations/embed.go:57-123 | accepts exactly the printings of migrations with versions 1..N and non-empty newline-ended scripts without marker lines, returns that list with identical bytes, and the duplicate-name check never changes what is accepted |
| `MigrationBundle.ReadingInvertsPrinting` | migrations/embed.go:57-123 | reading gives `ms` if and only if the bytes are the printing of the well-formed list `ms` |
| `MigrationBundle.PrintInjective` | migrations/embed.go:57-123 | a bundle has one reading only |
| `MigrationBundle.ParseFromSound` | migrations/embed.go:65-122 | what is read, printed again, is the input byte for byte, and the versions run up to the current one |
| `MigrationBundle.ParseFromComplete` | migrations/embed.go:65-122 | every printed well-formed list is read back |
| `MigrationBundle.BlockSound` | migrations/embed.go:66-117 | one accepted block is the printing of its migration with the expected version |
| `MigrationBundle.BlockComplete` | migrations/embed.go:66-117 | one printed migration is read back with the offset behind it |
| `MigrationBundle.ScriptSound` | migrations/embed.go:90-114 | the script found is a run of whole lines without markers that ends at its own end marker |
| `MigrationBundle.ScriptComplete` | migrations/embed.go:90-114 | a marker-free script followed by its end marker is found exactly |
| `MigrationBundle.MarkersAreCoherent` | migrations/embed.go:125-149 | the actual begin and end markers and version rule have the properties the grammar needs |
| `MigrationBundle.ParseLoop` | migrations/embed.go:57-123 | the loop with its set of seen names refines the recursive reading |
| `MigrationBundle.ScriptLoop` | migrations/embed.go:90-114 | the inner line loop finds the same script end as the recursive scan |
| `MigrationBundle.VersionExactly` | migrations/embed.go:136-149 | a name has a version exactly if it has the ending and, before its first underscore, a positive number, which is the version |
| `MigrationBundle.FileVersion` | migrations/embed.go:136-149 | number, underscore, title and ending: the version is the number, whatever the title and leading zeros, if and only if it is positive and fits into 64 bits |
| `MigrationBundle.EveryNamedBundleIsRead` | migrations/embed.go:57-123 | numbered files with any titles and marker-free scripts, printed as a bundle, are read back |
| `Placement.Choose` | cmd/dirextalk-agent/core_cloud_worker_placement.go:83-121 | the region of a measurement that succeeded with the least duration and, of equal ones, the first region name; else nearest, else drawn; always a supported region; an error exactly when cancelled |
| `Placement.ChoiceIgnoresArrivalOrder` | cmd/dirextalk-agent/core_cloud_worker_placement.go:101-120 | the choice depends only on the multiset of measurements |
| `Placement.StillFastest` | cmd/dirextalk-agent/core_cloud_worker_placement.go:103-109 | one more arrival either replaces the fastest or leaves it fastest |
| `Placement.CloudWorkerPlacement.EnterSection` | cmd/dirextalk-agent/core_cloud_worker_placement.go:50-66 | first critical section: serves a current cached region, else waits on the current channel, else leads with a new one; `EnterExactly` says when over every run |
| `Placement.CloudWorkerPlacement.SettleSection` | cmd/dirextalk-agent/core_cloud_worker_placement.go:68-78 | second critical section: store the pick with its expiry, close and clear the channel |
| `Placement.EveryRunIsSafe` | cmd/dirextalk-agent/core_cloud_worker_placement.go:45-81 | in every interleaving of any number of callers one chooser at most, `selecting` set exactly while one chooses, each channel closed once, waiters on known channels, cached pick current |
| `Placement.StartIsSafe` | cmd/dirextalk-agent/core_cloud_worker_placement.go:41-43 | a new cache satisfies the invariant |
| `Placement.EnterExactly` | cmd/dirextalk-agent/core_cloud_worker_placement.go:50-66 | over every run a caller that enters returns the last pick's region if and only if that pick is less than five minutes old; otherwise it waits on an open channel if and only if another caller chooses, and chooses if and only if none does |
| `Placement.SettleExactly` | cmd/dirextalk-agent/core_cloud_worker_placement.go:67-80 | over every run a caller that settles returns its choice, which becomes the last pick, a failure leaves the picks alone, nobody chooses any more and every waiter can go on |
| `Placement.ServedBeforeExpiry` | cmd/dirextalk-agent/core_cloud_worker_placement.go:50-54 | a cached region is served only within five minutes of its pick |
| `Placement.EveryoneCanReturn` | cmd/dirextalk-agent/core_cloud_worker_placement.go:45-81 | from every safe state some schedule lets every caller return with a region |
| `Placement.NoCallerIsStranded` | cmd/dirextalk-agent/core_cloud_worker_placement.go:45-81 | no run, cancelled or not, strands a waiter |
| `GroupLoop.OneAnswerPerConversation` | cmd/dirextalk-agent/core_group_agent.go:171-235 | in every run of ticks, turn progress and crashes no two unfinished turns have the same room, owner, agent and generation |
| `GroupLoop.LaterRequestsWait` | cmd/dirextalk-agent/core_group_agent.go:195-226 | once a conversation is busy or attempted, no later request of it is attempted in the tick |
| `GroupLoop.OneNoticePerParking` | cmd/dirextalk-agent/core_group_agent.go:288-320 | once a post of the owner-approval notice was acknowledged, the process posts it no more while its ticks see the turn parked |
| `GroupLoop.RepeatsExactlyWhenLost` | cmd/dirextalk-agent/core_group_agent.go:203-213 | a posted reminder is due again if and only if its answer was lost |
| `GroupLoop.OnlyRemindersWait` | cmd/dirextalk-agent/core_group_agent.go:195-226 | the owner is asked to approve only on the reminder branch |
| `GroupLoop.DeliverKeeps` | cmd/dirextalk-agent/core_group_agent.go:372-406 | one delivery keeps one active turn per conversation covered by snapshot or started set |
| `GroupLoop.StartsExactly` | cmd/dirextalk-agent/core_group_agent.go:195-226 | a delivery starts a turn if and only if the request is valid, of this generation, not blank, authorized, unknown and fully answered, and its conversation neither busy nor attempted; the turn is the request's own, and no other turn changes |
| `GroupLoop.TurnsAreAuthorized` | cmd/dirextalk-agent/core_group_agent.go:372-396 | over every run a turn appears only by an authorized delivery of its own valid request, and keeps its origin |
| `GroupLoop.SkippedExactly` | cmd/dirextalk-agent/core_group_agent.go:195-226 | a request waits if and only if its conversation was attempted, or is busy with anything but this request's own parked turn whose owner was not told |
| `GroupLoop.TellsExactly` | cmd/dirextalk-agent/core_group_agent.go:379-430 | what the group is told in each state of the turn, without a model, on acceptance, and without authorization |
| `GroupLoop.PostsExactly` | cmd/dirextalk-agent/core_group_agent.go:203-213 | the owner is asked to approve if and only if the request's own turn is parked, was seen parked, no notice is remembered and the post goes out |
| `GroupLoop.RetainsExactly` | cmd/dirextalk-agent/core_group_agent.go:286-302 | a tick forgets exactly the notices of turns it did not see parked |
| `GroupLoop.GroupAgentLoop.Tick` | cmd/dirextalk-agent/core_group_agent.go:171-235 | one tick is a run of the machine whatever turns do meanwhile; it delivers exactly the requests of the pages read, in order, each with its own answers; it reads up to the first page without more or with a cursor that does not move on; it succeeds if and only if it reached the end of the feed and no delivery failed; it keeps one unfinished turn per conversation |
| `GroupLoop.GroupAgentLoop.DeliverFeed` | cmd/dirextalk-agent/core_group_agent.go:185-235 | the page loop: exactly the pages up to the first that does not go on are delivered |
| `GroupLoop.GroupAgentLoop.DeliverPage` | cmd/dirextalk-agent/core_group_agent.go:195-226 | the requests of one page, in order, each exactly once |
| `GroupLoop.GroupAgentLoop.DeliverOne` | cmd/dirextalk-agent/core_group_agent.go:195-226 | the loop body takes the branch and the effects of the specification, and says whether the delivery failed |
| `GroupLoop.GroupAgentLoop.ProcessRequest` | cmd/dirextalk-agent/core_group_agent.go:372-430 | starts a turn only for an admissible, authorized, unknown request and tells the group its state |
| `GroupLoop.GroupAgentLoop.ActiveGroupTurns` | cmd/dirextalk-agent/core_group_agent.go:271-302 | the snapshot built from a listing that changes under way, and the notices retained |
| `WorkloadStore.Repository.PutService` | internal/cloudworker/sshworkload/store.go:63-97 | new or merged service, or the fault, with nothing else changed |
| `WorkloadStore.Repository.StageDomain` | internal/cloudworker/sshworkload/store.go:158-184 | sets the pending domain, refuses a different pending one, changes nothing on a fault |
| `WorkloadStore.Repository.CommitDomain` | internal/cloudworker/sshworkload/store.go:186-209 | moves pending to current and forgets the removed one |
| `WorkloadStore.Repository.ClearDomain` | internal/cloudworker/sshworkload/store.go:125-156 | with no domain: current becomes removed, pending is dropped |
| `WorkloadStore.SameNameExactly` | internal/cloudworker/remoteservice/types.go:334-336 | two host names have one canonical form if and only if they agree up to case, outer space and one final dot |
| `WorkloadStore.PutsExactly` | internal/cloudworker/sshworkload/store.go:63-97 | a declaration is stored if and only if it is valid, the file readable and a stored workload of that name agrees; a new one is appended and every other entry stays |
| `WorkloadStore.MergesExactly` | internal/cloudworker/sshworkload/store.go:71-88 | a stored workload can be declared again if and only if port, health path and host name agree or it had no host name; it keeps its domains, and its removed domain unless that lies under another host name |
| `WorkloadStore.ClaimedCommittedCleared` | internal/cloudworker/sshworkload/store.go:125-209 | a domain can be claimed if and only if no other is pending and the host names agree; claiming twice is claiming once; it can then be committed and cleared, and is left as the removed domain of that workload alone |
| `WorkloadStore.DomainStepsKeepReadable` | internal/cloudworker/sshworkload/store.go:125-209 | staging, committing and clearing keep a readable file readable |
| `WorkloadStore.PutKeepsReadableExactly` | internal/cloudworker/sshworkload/store.go:63-97 | putting keeps it readable if and only if the carried slots fit the declared host name |
| `WorkloadStore.UnreadableForever` | internal/cloudworker/sshworkload/store.go:230-249 | no sequence of operations repairs or removes an unreadable file |
| `WorkloadStore.WorkerSupportsService` | cmd/dirextalk-agent/core_cloud_worker_ssh_executor.go:721-758 | admits exactly the requests compatible with every stored service |
| `WorkloadStore.AdmitsExactly` | cmd/dirextalk-agent/core_cloud_worker_ssh_executor.go:721-758 | a request is admitted if and only if each other workload has another port and, if it names a host, neither a web port nor that host name, and the workload itself, if stored, agrees in port, health path and host name |
| `WorkloadStore.AdmittedKeepsSeparate` | cmd/dirextalk-agent/core_cloud_worker_ssh_executor.go:721-758 | one admitted, new or redeclared, request keeps ports and host names of different workloads apart |
| `WorkloadStore.AdmissionKeepsSeparate` | cmd/dirextalk-agent/core_cloud_worker_ssh_executor.go:721-758 | so does every sequence of requests, each listed, admitted and written before the next |
| `Separation.RacingAdmissionsExactly` | cmd/dirextalk-agent/core_cloud_worker_ssh_executor.go:721-758 | two requests for different workloads, new or stored, admitted before either is written, stay apart if and only if they ask for different ports and host names |
| `Separation.PutSeparate` | internal/cloudworker/sshworkload/store.go:63-97 | writing a service keeps workloads apart if and only if it is apart from every other |
| `Separation.BindKeepsSeparateExactly` | cmd/dirextalk-agent/core_cloud_worker_domain_intrinsic.go:62-91 | a bind keeps workloads apart if and only if no other workload answers to its host name |
| `Separation.AlwaysSeparateExactly` | cmd/dirextalk-agent/core_cloud_worker_ssh_executor.go:721-758 | over every sequence of admitted requests, binds and unbinds, workloads stay apart throughout if and only if no bind takes a host name another one answers to |
| `Separation.BindCollides` | cmd/dirextalk-agent/core_cloud_worker_domain_intrinsic.go:62-91 | a bind to a host name whose record another workload already has resolves and goes through |
| `WorkloadStore.HostnameNeedsWebPorts` | cmd/dirextalk-agent/core_cloud_worker_ssh_executor.go:728-755 | a host name is admitted only if no workload listens on 80 or 443 |
| `WorkloadStore.AdmittedReadableExactly` | cmd/dirextalk-agent/core_cloud_worker_ssh_executor.go:721-758 | an admitted request leaves the file readable if and only if the slots admission ignores fit |
| `WorkloadStore.AdmittedUnreadable` | cmd/dirextalk-agent/core_cloud_worker_ssh_executor.go:721-758 | a concrete admitted request that leaves the file unreadable for good |
| `Route53.HostedZone.ReconcilePlannedDelete` | internal/cloudworker/remoteservice/dns.go:99-133 | the planned delete for every answer of the provider |
| `Route53.HostedZone.ReconcilePlannedUpsert` | internal/cloudworker/remoteservice/dns.go:138-159 | the planned upsert for every answer of the provider, with others changing the zone between its read and its write |
| `Route53.DeleteIsExact` | internal/cloudworker/remoteservice/dns.go:99-133 | removes nothing but the exact record; success means the key is free; a mismatch leaves the zone alone |
| `Route53.UpsertIsExact` | internal/cloudworker/remoteservice/dns.go:138-159 | changes at most its own record; success leaves exactly the intended record |
| `Route53.DeleteAnswersExactly` | internal/cloudworker/remoteservice/dns.go:99-133 | a planned delete succeeds if and only if the key is read as free, or holds the record and every call is answered; it reports a mismatch if and only if it reads another ordinary record |
| `Route53.UpsertAnswersExactly` | internal/cloudworker/remoteservice/dns.go:138-159 | a planned upsert succeeds if and only if the key is read as free or already right and every call is answered, and then leaves the address and TTL asked for |
| `Route53.UpsertOverwritesExactly` | internal/cloudworker/remoteservice/dns.go:54-70 | another value is overwritten if and only if it appeared between the read and the write |
| `Route53.HostedZone.DeleteServiceDomain` | cmd/dirextalk-agent/core_cloud_worker_ssh_executor.go:1084-1111 | the clean-up of a service's pending and current claims for every combination of answers |
| `Route53.CleanupTouchesOnlyClaims` | cmd/dirextalk-agent/core_cloud_worker_ssh_executor.go:1058-1111 | a record that matches neither claim is never changed |
| `Route53.SuccessIsCleanUnlessSwallowed` | cmd/dirextalk-agent/core_cloud_worker_ssh_executor.go:1084-1111 | on success neither claimed record remains, outside the swallowed case |
| `Route53.AnsweringProviderCleans` | cmd/dirextalk-agent/core_cloud_worker_ssh_executor.go:1084-1111 | with a provider that answers the clean-up always succeeds and is complete |
| `Route53.ExposedCanLeak` | cmd/dirextalk-agent/core_cloud_worker_ssh_executor.go:1094-1102 | an exposed service has answers under which success leaves a claimed record |
| `Route53.CleanupExact` | cmd/dirextalk-agent/core_cloud_worker_ssh_executor.go:1084-1111 | success guarantees a clean zone if and only if the service is not exposed |
| `Route53.CleanupAnswersExactly` | cmd/dirextalk-agent/core_cloud_worker_ssh_executor.go:1084-1111 | with a provider that answers, exactly the claimed records are removed, and it succeeds if and only if no claimed key has an unreadable record; without a provider, if and only if nothing is claimed |
| `DomainProtocol.StepKeepsClaimsExactly` | internal/cloudworker/sshworkload/store.go:125-209 | a step leaves every record claimed if and only if it is an upsert whose claim is stored, a commit with nothing else written, a clear with nothing written, or another step |
| `DomainProtocol.AlwaysOwnedExactly` | cmd/dirextalk-agent/core_cloud_worker_domain_intrinsic.go:150-194 | over every run of overlapping operations, records stay claimed throughout if and only if every step is safe in that sense |
| `DomainProtocol.StepKeeps` | cmd/dirextalk-agent/core_cloud_worker_domain_intrinsic.go:150-194 | every step keeps what all operations under way rely on, if operations are begun only when they get along |
| `DomainProtocol.RecordsStayClaimed` | cmd/dirextalk-agent/core_cloud_worker_ssh_executor.go:581-601 | at every crash point of every orderly run, with any number of overlapping operations and writes that land late, each record a workload wrote is its current or pending claim |
| `DomainProtocol.OwnOpHolds` | cmd/dirextalk-agent/core_cloud_worker_ssh_executor.go:581-601 | each phase of an operation finds what it relies on: the old record gone before the commit, nothing written before the clear |
| `DomainRaces.UnbindLosesStagedBind` | cmd/dirextalk-agent/core_cloud_worker_domain_intrinsic.go:189-193 | an unbind that clears while a bind is staged, with nothing written, loses the record the bind then writes behind a passing fence |
| `DomainRaces.UnbindLosesFinishedBind` | cmd/dirextalk-agent/core_cloud_worker_domain_intrinsic.go:150-193 | a bind that begins and finishes inside an unbind loses its record when the unbind clears |
| `DomainRaces.UnbindLosesLateWrite` | cmd/dirextalk-agent/core_cloud_worker_domain_intrinsic.go:171-193 | a write still in flight when its bind ended is lost to a later unbind |
| `DomainRaces.PublishLosesPublish` | cmd/dirextalk-agent/core_cloud_worker_ssh_executor.go:584-601 | of two overlapping publishes under different keys one loses its record |
| `DomainRaces.LateWriteLosesPublish` | cmd/dirextalk-agent/core_cloud_worker_ssh_executor.go:584-601 | under one key a late write of another value survives unclaimed |
| `DomainRaces.RaceHappens` | cmd/dirextalk-agent/core_cloud_worker_domain_intrinsic.go:150-193 | a concrete valid state and race of an unbind and a bind after which a record is unclaimed |
| `DomainRaces.PublishRaceHappens` | cmd/dirextalk-agent/core_cloud_worker_ssh_executor.go:584-601 | a concrete race of two publishes after which a record is unclaimed |
| `DomainIntent.BindIntentIsFixed` | cmd/dirextalk-agent/core_cloud_worker_domain_intrinsic.go:62-112 | resolving at any point of a bind gives the identical domain |
| `DomainIntent.UnbindIntentIsFixed` | cmd/dirextalk-agent/core_cloud_worker_domain_intrinsic.go:93-105 | resolving at any point of an unbind gives the identical domain |
| `DomainIntent.ResolvedIsStageable` | cmd/dirextalk-agent/core_cloud_worker_domain_intrinsic.go:62-91 | what a bind resolves to can be staged on every valid service |
| `DomainIntent.ResolvesExactly` | cmd/dirextalk-agent/core_cloud_worker_domain_intrinsic.go:62-91 | a bind resolves to the Worker's address in its hosted zone under the canonical host name with TTL 300, if and only if the host name is valid and the declared one if any, there is an address, the zone has no other record there, and no other domain is current or pending |
| `DomainIntent.UnbindResolvesExactly` | cmd/dirextalk-agent/core_cloud_worker_domain_intrinsic.go:93-105 | an unbind resolves to the current domain, else to the removed one, if and only if nothing is pending |
| `DomainRetry.BindIntentSurvives` | cmd/dirextalk-agent/core_cloud_worker_domain_intrinsic.go:260-273 | after any attempts to bind, overlapping, failed and retried, the fence still passes |
| `DomainRetry.UnbindIntentSurvives` | cmd/dirextalk-agent/core_cloud_worker_domain_intrinsic.go:260-273 | the same for unbind |
| `DomainRetry.BindCompletes` | cmd/dirextalk-agent/core_cloud_worker_domain_intrinsic.go:150-187 | a bind that is let run ends in the bound state |
| `DomainRetry.BindRetryCompletes` | cmd/dirextalk-agent/core_cloud_worker_domain_intrinsic.go:115-194 | after any attempts to bind that stopped anywhere, a retry completes and ends in exactly the state the first was heading for |
| `DomainRetry.UnbindRetryCompletes` | cmd/dirextalk-agent/core_cloud_worker_domain_intrinsic.go:115-194 | the same for unbind, unless the record was re-pointed |
| `StoredView.StoredSteps` | internal/cloudworker/sshworkload/store.go:125-209 | the repository's operations on the stored list are the protocol's store steps |
| `Destroy.SuccessLeavesNothing` | cmd/dirextalk-agent/core_cloud_worker_ssh_executor.go:1084-1111 | a successful clean-up of a service not at risk leaves none of its records |
| `Destroy.CleanAllLeavesNothing` | cmd/dirextalk-agent/core_cloud_worker_ssh_executor.go:1012-1024 | with others changing the zone meanwhile, the loop adds no workload record and on success leaves none |
| `Destroy.CrashThenDestroy` | cmd/dirextalk-agent/core_cloud_worker_ssh_executor.go:983-1032 | from every crash point of every orderly run a successful destroy with no service at risk leaves no record a workload wrote, and any destroy keeps every claim |
| `Destroy.CrashThenDestroyExactly` | cmd/dirextalk-agent/core_cloud_worker_ssh_executor.go:983-1032 | at every point of every orderly run, success guarantees that no record is left and none appears later if and only if no service is at risk and no operation is in flight, where no other service claims the key of a record at risk |
| `Destroy.DestroyIsFinalExactly` | cmd/dirextalk-agent/core_cloud_worker_ssh_executor.go:1012-1031 | the same at every state whose records are claimed |
| `Destroy.InFlightWrites` | cmd/dirextalk-agent/core_cloud_worker_domain_intrinsic.go:281-286 | an operation in flight writes its record after the stored state is removed |
| `Destroy.DestroyExact` | cmd/dirextalk-agent/core_cloud_worker_ssh_executor.go:1012-1027 | success of the clean-up guarantees that nothing is left behind it if and only if no service is at risk, where no other service claims the key of a record at risk |
| `Destroy.AnsweredDestroyExactly` | cmd/dirextalk-agent/core_cloud_worker_ssh_executor.go:1012-1027 | with a provider that answers and no unreadable record under a claimed key, destroy succeeds and removes exactly the claimed records |
| `Destroy.DestroyCanLeak` | cmd/dirextalk-agent/core_cloud_worker_ssh_executor.go:1094-1102 | answers under which the clean-up reports success and a record remains |
| `Destroy.RiskIsReached` | cmd/dirextalk-agent/core_cloud_worker_ssh_executor.go:581-601 | an orderly run of one publish that crashes reaches the risk |
| `Destroy.UnclaimedSurvives` | cmd/dirextalk-agent/core_cloud_worker_ssh_executor.go:1012-1027 | a record that no stored service claims survives every destroy |
| `Destroy.LostSurvives` | cmd/dirextalk-agent/core_cloud_worker_ssh_executor.go:1017-1020 | a record lost in a race is never cleaned up, unless another service claims that very record |
| `DomainExecutor.SshWorkerExecutor.Upsert` | cmd/dirextalk-agent/core_cloud_worker_domain_intrinsic.go:275-297 | the planned upsert call by call, each behind the fence and with others acting before it; on success all six observations gave a bind the address and zone it resolved to; alone and answered it succeeds if and only if the fence holds and the key was not re-pointed |
| `DomainExecutor.SshWorkerExecutor.Delete` | cmd/dirextalk-agent/core_cloud_worker_domain_intrinsic.go:275-297 | the planned delete in the same way |
| `DomainExecutor.SshWorkerExecutor.Publish` | cmd/dirextalk-agent/core_cloud_worker_ssh_executor.go:581-601 | a run of the protocol under any steps of others; an orderly one keeps records claimed; alone and answered it succeeds if and only if the claim can be staged and neither key was re-pointed |
| `DomainExecutor.PublishedExactly` | cmd/dirextalk-agent/core_cloud_worker_ssh_executor.go:581-601 | what a publish alone leaves: its record, without the one under the key it moves from; possible if and only if neither key holds another record |
| `DomainExecutor.SshWorkerExecutor.Bind` | cmd/dirextalk-agent/core_cloud_worker_domain_intrinsic.go:115-217 | the same with the intent resolved before every call, each time to the same address and zone of the Worker; alone it leaves that address under its zone and the canonical host name with TTL 300, and the workload bound to it; alone and answered it succeeds if and only if the intent resolves and can be staged |
| `DomainExecutor.SshWorkerExecutor.Unbind` | cmd/dirextalk-agent/core_cloud_worker_domain_intrinsic.go:115-217 | the same for unbind; succeeds if and only if the intent resolves and the record was not re-pointed |
| `DomainExecutor.SshWorkerExecutor.DestroyWorkerResources` | cmd/dirextalk-agent/core_cloud_worker_ssh_executor.go:983-1032 | nothing happens while compute remains, nothing is cleaned up without a complete identity, and the stored state is removed only if every clean-up and the removal succeeded |
| `Credential.CredentialAuthority.ResolveCurrentBinding` | cmd/dirextalk-agent/core_cloud_worker_credential.go:83-109 | a returned binding was the store's state, active and verified, at every instant from listing to last read; undisturbed, the scope's usable credential is returned |
| `Credential.CredentialAuthority.FencedRead` | cmd/dirextalk-agent/core_cloud_worker_credential.go:91-107 | the two revision reads around the credential read |
| `Credential.CredentialAuthority.CurrentView` | cmd/dirextalk-agent/core_cloud_worker_credential.go:123-137 | a room whose own set is not empty never resolves to the owner's credential |
| `Credential.CredentialAuthority.SingleUsable` | cmd/dirextalk-agent/core_cloud_worker_credential.go:144-160 | exactly one active, verified, tested credential, told apart from none and from unusable |
| `Credential.CredentialAuthority.ListScoped` | internal/store/postgres/core_aws_store_credentials_plan.go:216-249 | a bounded page of the scope's active credentials, and whether there are more |
| `Credential.ApplyKeeps` | internal/store/postgres/core_aws_store_credentials_plan.go:156-332 | every transaction keeps one active credential per scope and verified identities backed by evidence, and rows only move forward |
| `Credential.CurrentBetween` | cmd/dirextalk-agent/core_cloud_worker_credential.go:91-107 | equal revisions at both ends mean the binding was current throughout |
| `Credential.UsableExactly` | cmd/dirextalk-agent/core_cloud_worker_credential.go:144-160 | a scope resolves to a binding if and only if it has one active credential, tested and verified at its present revision with region and identity, and the binding is that one |
| `Credential.CreatedAndTested` | internal/store/postgres/core_aws_store_credentials_plan.go:156-332 | a credential created in an empty scope is unusable before its test and is what the scope resolves to after it |
| `Credential.ReplacedAndDeleted` | internal/store/postgres/core_aws_store_credentials_plan.go:156-332 | a replaced credential is unusable until its new revision is tested; a deleted one leaves its scope empty |
| `Credential.OtherTestsChangeNothing` | internal/store/postgres/core_aws_store_credentials_plan.go:156-332 | a test of another revision, or with another identity than the one verified, changes no credential |
| `Credential.EvidenceExactly` | internal/store/postgres/core_aws_store_credentials_plan.go:156-332 | a late test is evidence for its own revision, past or present, the first identity found stays, and there is none for revisions to come |
| `MessagePages.ProjectMessages` | internal/agentcapability/core_adapters.go:282-327 | keeps user and assistant messages with content, all their fields, numbering unnumbered ones by position |
| `MessagePages.PageConversationMessages` | internal/agentcapability/core_adapters.go:354-384 | the page before the cursor's anchor and the cursor of the next, or rejection |
| `MessagePages.AcceptedExactly` | internal/agentcapability/core_adapters.go:334-372 | a cursor is accepted if and only if its conversation matches and its anchor is still there |
| `MessagePages.ShownExactly` | internal/agentcapability/core_adapters.go:282-327 | a message is shown, at its place, if and only if it is the user's or the assistant's and not blank, with every field, its number or position, and attachments of the user only |
| `MessagePages.PagesExactly` | internal/agentcapability/core_adapters.go:354-384 | a page is the messages directly before the cursor's, as many as asked for or there are, and the next cursor names its first one or is absent at the beginning |
| `MessagePages.RejectsExactly` | internal/agentcapability/core_adapters.go:334-372 | a call is rejected if and only if conversation, limit or cursor is malformed, of another conversation, or names no message |
| `MessagePages.ProjectedGrows` | internal/agentcapability/core_adapters.go:282-327 | appended messages only extend the projection |
| `MessagePages.EveryMessageOnce` | internal/agentcapability/core_adapters.go:354-384 | with increasing numbers, any limits and any appends, following cursors ends with the first call's messages exactly once in order |
| `MessagePages.CompleteExactlyWhenIncreasing` | internal/agentcapability/core_adapters.go:354-384 | every choice of limits is complete if and only if the numbers strictly increase |
| `Utf8.ValidExactly` | cmd/dirextalk-agent/core_serve.go:875-885 | well-formed bytes are exactly the encodings of texts (sections 3 and 4 of RFC 3629) |
| `Utf8.CutIsLongest` | cmd/dirextalk-agent/core_serve.go:881-886 | dropping trailing bytes stops at the longest well-formed prefix |
| `Utf8.CutDropsAtMostThree` | cmd/dirextalk-agent/core_serve.go:881-886 | cutting well-formed text drops at most three bytes |
| `Utf8.OrderIsByteOrder` | cmd/dirextalk-agent/core_cloud_worker_placement.go:103-109 | comparing strings by character, as these models do, is comparing their UTF-8 bytes, as the program does |
| `MemoryRecall.Recall.AppendLine` | cmd/dirextalk-agent/core_serve.go:873-889 | one line under the budget, cut at a character boundary |
| `MemoryRecall.RecallMemory` | cmd/dirextalk-agent/core_serve.go:857-906 | the framed text of facts and events, nothing if there is nothing, an error for a blank prompt or a failed lookup |
| `MemoryRecall.FittingIsLongest` | cmd/dirextalk-agent/core_serve.go:880-888 | a line shows the longest well-formed part that fits, within three bytes of the room |
| `MemoryRecall.AppendAllKeeps` | cmd/dirextalk-agent/core_serve.go:873-889 | bytes written plus bytes remaining is conserved and the body stays well-formed |
| `MemoryRecall.TruncationEndsTheBody` | cmd/dirextalk-agent/core_serve.go:873-889 | the first truncated value ends the body |
| `MemoryRecall.RecallIsFramedAndBounded` | cmd/dirextalk-agent/core_serve.go:855-906 | recalled text is valid UTF-8, framed, and below 12 KiB by exactly the bytes remaining |
| `MemoryRecall.BodyIsPrefixExactly` | cmd/dirextalk-agent/core_serve.go:890-901 | the body is the beginning of the full listing if and only if no timeline entry is shown without its heading |
| `MemoryRecall.FittingMemoryIsWhole` | cmd/dirextalk-agent/core_serve.go:890-901 | memory that fits is shown whole: the facts under their heading, then the events under theirs |
| `MemoryRecall.FactsListed` | cmd/dirextalk-agent/core_serve.go:890-895 | facts are listed in order, each as predicate, colon and value |
| `MemoryRecall.EventsListed` | cmd/dirextalk-agent/core_serve.go:896-901 | events are listed in order, each with observed and effective time, kind and summary |
| `MemoryRecall.MisfiledHappens` | cmd/dirextalk-agent/core_serve.go:890-901 | a snapshot for which that does happen |
| `MemoryRecall.CoreLayoutIsSound` | cmd/dirextalk-agent/core_serve.go:869-897 | the program's own header, footer, headings and bullet meet the assumptions of these results |
| `ToolDispatch.CalledAtMostOnce` | cmd/dirextalk-agent/core_extension_compose.go:212-305 | over every run of handlers, crashes and lost answers the tool is called at most once, `completed` carries that call's valid bounded result, `denied` means no call or a certain failure |
| `ToolDispatch.RecordIsFinal` | internal/store/postgres/core_conversation_tool_store.go:599-673 | a recorded outcome never changes |
| `ToolDispatch.NotCalledUnconfirmed` | cmd/dirextalk-agent/core_extension_compose.go:212-305 | over every run a tool whose use must be confirmed is not called before it is |
| `ToolDispatch.DispatchedCanSettle` | cmd/dirextalk-agent/core_extension_compose.go:223-226 | a dispatch whose handler was lost can be settled as uncertain without a call |
| `ToolDispatch.BeginKeeps` | internal/store/postgres/core_conversation_tool_store.go:526-594 | the begin transaction lets one handler only into dispatch |
| `ToolDispatch.FinishKeeps` | internal/store/postgres/core_conversation_tool_store.go:599-673 | the finish transaction records only what the finishing handler may claim |
| `ToolDispatch.ToolRuntime.BeginConversationTool` | internal/store/postgres/core_conversation_tool_store.go:526-594 | the begin transaction under its lease fence |
| `ToolDispatch.ToolRuntime.FinishConversationTool` | internal/store/postgres/core_conversation_tool_store.go:599-673 | the finish transaction under its lease fence |
| `ToolDispatch.ToolRuntime.HandleTask` | cmd/dirextalk-agent/core_extension_compose.go:212-305 | the handler is a run of the machine, and a reported success is the recorded result of its call; undisturbed on an attempt that may be dispatched, it calls the tool if and only if prepared with an executor, records the result if and only if it is valid and within 1 MiB, a denial if and only if unprepared, failed for certain or unusable, and otherwise uncertainty, and reports exactly the recorded result; on one already dispatched it records uncertainty, and otherwise it changes nothing |
| `Catalog.ValidateCatalog` | cmd/dirextalk-agent/message_mcp_conversation_resolver.go:139-158 | the catalog that `AcceptsExactly` and `ListsExactly` describe, or rejection |
| `Catalog.ValidateMeans` | cmd/dirextalk-agent/message_mcp_conversation_resolver.go:139-158 | the result is strictly sorted, with known effects, and has exactly the listed tools |
| `Catalog.AcceptsExactly` | cmd/dirextalk-agent/message_mcp_conversation_resolver.go:139-158 | a list is accepted if and only if every tool has a runner and a non-blank name without outer space, and no two names are equal |
| `Catalog.ListsExactly` | cmd/dirextalk-agent/message_mcp_conversation_resolver.go:139-158 | the catalog has exactly the given tools in strict name order, with name, definition and runner unchanged and the effect read-only if and only if the provider said so, and otherwise an unsafe mutation |
| `Catalog.OrderIsIrrelevant` | cmd/dirextalk-agent/message_mcp_conversation_resolver.go:139-158 | permuting the provider's list gives the same catalog |
| `Catalog.MessageCatalog.Get` | cmd/dirextalk-agent/message_mcp_conversation_resolver.go:100-137 | which catalog a call returns and what it leaves in the cache |
| `Catalog.ServesExactly` | cmd/dirextalk-agent/message_mcp_conversation_resolver.go:100-137 | what every call answers and keeps: a catalog of the last five minutes unless forced, else a usable new list, else for an unforced caller who has not given up one of the last hour, else nothing or failure |
| `Catalog.EveryAnswerIsSound` | cmd/dirextalk-agent/message_mcp_conversation_resolver.go:100-137 | in every sequence of calls a returned catalog is validated, was obtained at its time stamp, is never future and never over an hour old; forced calls never use the cache; a call that obtains nothing leaves it unchanged |
| `GroupSummary.CollectTranscript` | cmd/dirextalk-agent/core_group_summary.go:125-152 | at most four pages, sorted, and the newest 200 of them |
| `GroupSummary.WindowIsNewest` | cmd/dirextalk-agent/core_group_summary.go:143-151 | the window is the newest min(200, all) messages: with those dropped it is what was collected, none dropped is later than one kept, and the watermark is the newest time collected |
| `GroupSummary.ReadsExactly` | cmd/dirextalk-agent/core_group_summary.go:125-142 | the pages joined are the first ones, at most four, up to the first that is not followed by another; it fails if and only if one of these does not arrive |
| `GroupSummary.GroupSummaries.Refresh` | cmd/dirextalk-agent/core_group_summary.go:65-121 | what one sweep stores, and when it is an error |
| `GroupSummary.SavesExactly` | cmd/dirextalk-agent/core_group_summary.go:65-121 | a sweep saves if and only if it could load, read at least five messages, the newest not before the epoch, and got a digest that is not blank and that the store took |
| `GroupSummary.FloorExactly` | cmd/dirextalk-agent/core_group_summary.go:70-74 | the floor asks for exactly the messages newer than a positive watermark, and for all without one |
| `GroupSummary.SweepsHold` | cmd/dirextalk-agent/core_group_summary.go:65-121 | over any sweeps the count is the sum of saved windows and the watermark the newest time of the last |
| `GroupSummary.WindowsAreDisjoint` | cmd/dirextalk-agent/core_group_summary.go:65-121 | windows after a positive watermark share no message with earlier ones and the watermark rises |
| `GroupSummary.NextSweepMovesOnExactly` | cmd/dirextalk-agent/core_group_summary.go:70-74 | every further save raises the watermark, and every further window is disjoint from all before, if and only if the stored watermark is positive |
| `GroupSummary.ZeroWatermarkRepeats` | cmd/dirextalk-agent/core_group_summary.go:70-74 | at watermark zero the same sweep saves the same window again |
| `Inventory.ListWorkers` | cmd/dirextalk-agent/core_cloud_worker_ssh_executor.go:808-855 | for every order of credentials and every provider outcome each expected worker is listed exactly once with the right status |
| `Inventory.Merge` | cmd/dirextalk-agent/core_cloud_worker_ssh_executor.go:843-851 | in-place replacement of failed workers always hits the right index |
| `Inventory.OwnedWorkersAreListed` | cmd/dirextalk-agent/core_cloud_worker_ssh_executor.go:808-855 | with providers that list their credential's workers, the listing is exactly the owned workers that are not destroyed |
| `Inventory.ListedExactly` | cmd/dirextalk-agent/core_cloud_worker_ssh_executor.go:808-855 | how an owned record is shown: with what its provider lists, unavailable with its own failure, unavailable for want of credential or provider, or not at all |
| `SpeakerName.SanitizeSpeakerName` | cmd/dirextalk-agent/core_group_agent.go:502-527 | the words joined by single spaces, cut to 64 characters and trimmed |
| `SpeakerName.NameIsTidy` | cmd/dirextalk-agent/core_group_agent.go:502-527 | at most 64 characters, single inner spaces, no other space, no control or replacement characters |
| `SpeakerName.NameIsFirstFields` | cmd/dirextalk-agent/core_group_agent.go:502-527 | the name is the longest beginning, of at most 64 characters and without a space at its end, of the words joined by single spaces; all of them if they fit |
| `SpeakerName.NameIsIdempotent` | cmd/dirextalk-agent/core_group_agent.go:502-527 | cleaning twice is cleaning once |
| `SpeakerName.WordsKeepLetters` | cmd/dirextalk-agent/core_group_agent.go:508-524 | no character other than separators is lost before the cut |
| `BoundedOutput.Output.Write` | cmd/dirextalk-builtin-mcp/main.go:254-267 | keeps the first bytes of everything written and flags exactly an overflow |
| `BoundedOutput.WriteAll` | cmd/dirextalk-builtin-mcp/main.go:249-271 | after any writes the buffer is the first min(limit, total) bytes of their concatenation |

## Left out

- Composition, serving and configuration code, gRPC, HTTP, SSH, AWS, Route53 and model clients: only their outcomes appear.
- Hashes and encodings: conversation ids, digests, JSON and base64 cursors are treated as injective.
- `Catalog.ValidateCatalog`: the digest over endpoint and tools is a function of what is modelled and is omitted.
- Host name case mapping beyond ASCII, and the distance computation behind the nearest region.
- `Placement.EveryoneCanReturn`: states that a schedule exists, not that the Go scheduler is fair.
- `GroupLoop.OneAnswerPerConversation`: cancellation of revoked groups is one of the arbitrary turn changes; one delivery loop runs at a time, as the program starts one.
- `WorkloadStore.AdmissionKeepsSeparate`: each request is listed, admitted and written in one step; `Separation.RacingAdmissionsExactly` says what a race does, `Separation.AlwaysSeparateExactly` what binds do. A plain service on port 80 or 443 next to a host name is admitted by the code.
- `WorkloadStore.Repository.ClearDomain`: `SetDomain` with a domain, which the executor does not use, is not modelled.
- `DomainProtocol.RecordsStayClaimed`: holds for orderly runs; the source does not enforce that order, and `DomainRaces` shows what is lost without it.
- `Route53.HostedZone.ReconcilePlannedDelete`: read and delete are one step, since the provider deletes only the exact record it is given; `DomainExecutor.SshWorkerExecutor.Delete` takes the calls apart.
- `DomainExecutor.SshWorkerExecutor.Bind`: one resolution reads store and zone at one instant; proxy, port and HTTPS checks are outcomes; the mutation's own validation is a flag of the provider calls.
- `DomainExecutor.SshWorkerExecutor.DestroyWorkerResources`: removing compute and stopping executions is one outcome.
- `Destroy.CrashThenDestroyExactly`: operations are taken to pass no further check once the clean-up has begun, since compute is gone and executions are stopped by then.
- `Credential.CredentialAuthority.ResolveCurrentBinding`: secrets and identifier syntax are not modelled, and pages are taken in any order, which includes the database's.
- `ToolDispatch.ToolRuntime.HandleTask`: local, remote and skill executors are one call with an outcome; collecting artifacts is part of it.
- `GroupSummary.SweepsHold`: one owner and account generation; a change of either starts a new summary.
- `Inventory.ListWorkers`: assumes that a worker keeps its credential during one listing.
- Timestamps and counters are unbounded integers; overflow of 64-bit values is not modelled.
- Workspace files, artifact storage, token files and tickets.
