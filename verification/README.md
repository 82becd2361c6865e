# Bean, modelled and proved in Dafny

Bean runs sandboxes on a fleet of nodes. Its control plane places sandboxes, keeps a catalogue of
incremental snapshots and stores build logs; each node creates, pauses, snapshots and forks
sandboxes and gives them networks. This project models the parts of it whose correctness spans many
calls and many replicas, and proves what they promise.

| file | what it models |
|---|---|
| `Runs.dfy` | sequences of steps, and what holds before, between and after all of them |
| `Placement.dfy` | the ledger of committed capacity and reservations, one transaction per step |
| `Scoring.dfy` | hard constraints, scores and the ranking of nodes |
| `Preference.dfy` | what each column of a node is worth to its score, and what each constraint asks |
| `Scheduler.dfy` | Schedule and ScheduleWait against a store other replicas change |
| `Liveness.dfy` | concurrent liveness sweeps, statement by statement, and one sweep as a call |
| `Catalogue.dfy` | snapshot rows, base links, reference counts and deletion |
| `SnapshotStore.dfy` | the snapshot store's calls, and a restore reading a chain among other callers |
| `Capture.dfy` | captures in progress and the depth they give to chains |
| `Restore.dfy` | the restore stream: framing a chain and splitting it into layers |
| `Lifecycle.dfy` | Create, Pause, Resume, Snapshot and Destroy, lock region by lock region |
| `Manager.dfy` | the same five as calls, with other goroutines between their lock regions |
| `Network.dfy` | network indices and namespaces through Create, ForkSandbox, Destroy and PrewarmImage |
| `Chunks.dfy`, `BuildLog.dfy` | the build log writer and reader, one flush at a time |
| `BuildLogRace.dfy` | the same log with any number of flushes in flight and a follower |
| `BuildLogOrder.dfy` | what a failing chunk upload costs |
| `LogKey.dfy` | build log keys |
| `Multipart.dfy` | multipart uploads |
| `Buffers.dfy` | the agent's byte ring and a build's tail of lines |
| `Routing.dfy` | sandbox addresses in Host headers: one writer, three readers |
| `Hosts.dfy` | what those readers take a host, a port and a number to be |

Transactions and single SQL statements are atomic steps. Any interleaving of any number of replicas
is a sequence of steps, so a theorem over all sequences is a theorem over all interleavings. What
the environment decides (other replicas, failing uploads, runtime calls, read sizes, clocks) is a
parameter, and contracts hold for every value of it. Objects the program updates in place are
classes whose methods are tied to functions of the old state; the theorems are about those
functions.

## Where the code and its documentation disagree

The model follows the code. For each disagreement a lemma or a contract exhibits it and says exactly
when the promise holds.

* The reservations schema says its primary key makes Reserve idempotent. A second Reserve for a
  sandbox adds to the node while the insert does nothing: `ReserveIsNotIdempotent`, with
  `StepConserves` and `RunConserves` for the exact condition.
* ReleaseSnapshot calls a repeated release a no-op by design. While another caller holds the
  snapshot it drops that caller's reference: `SecondReleaseDropsAnother`, with `OpKeepsInv`,
  `Catalogue.RunKeepsInv`, `HeldChainIsPinned` and `CountDecidesPin`.
* SnapshotChain's comments say records can only dangle if damaged. Deleting a snapshot whose capture
  still streams, and then its base, lets the settling put bring the snapshot back over nothing:
  `DeletedCaptureComesBackDangling`, with `EventKeepsSound` and `DepthIsBounded`.
* The restore receiver says surplus layers fail the restore. Every pipe is closed cleanly by then, so
  no reader ever sees the error: `ErrorReachesAReaderIffNoSurplus`.
* Snapshot says it returns a sandbox to its previous state. The record always returns; the vCPUs do
  not if the resume after the snapshot fails: `FailedThawMisleads`, with
  `RecordsMatchUnlessThawFails`.
* Destroy is meant to leave nothing of a sandbox. One that overlaps the sandbox's own Create finds no
  VM yet, and the guest then comes up with no record: `DestroyedCreateComesUp`, with `GoneForGoodIff`.
* A failed log upload is put back under its old number so that a later flush retries it. If a later
  chunk has been claimed meanwhile, the retry and what follows can be stored out of order or over
  one another: `OvertakenFailureExample`, with `FailureKeepsOrderIff` for the exact condition.
* Finish flushes any remaining output. An upload that fails after Finish's own flush has claimed is
  never retried, and Finish still succeeds: `LateFailureExample`, with `EndsWellIffNoLateFailure`.
* Finish writes a terminal manifest. A flush still in flight overwrites it with one that is not:
  `LateFlushUnseals`, with `SealHoldsIffNoFlushInFlight`.
* Finish and the uploader's Close report success on a second call, also when the first one failed;
  their contracts say so. A Close whose completion request fails does not discard the parts, and no
  later Abort will.
* BuildLogKey calls its keys collision-free: `SharedExample`, with `SharedIff` and
  `SteadyAreDistinct`.
* The authority a client builds for an id with a lone colon names another sandbox: `ColonExample`,
  with `RoundTrip` for the exact condition.

## Model

| member | source | states |
|---|---|---|
| `Placement.StepConserves` | internal/control/store/placement.go:244-370 | One transaction keeps every node's committed CPU, memory, disk and GPU equal to the sum of its reservations exactly when it is not a Reserve of a non-zero amount that takes effect for a sandbox already recorded |
| `Placement.RunConserves` | internal/control/store/placement.go:105-490 | Over every interleaving of reserves, releases, finished creates, registrations, state changes, heartbeats and reports, the ledger is conserved at every moment if and only if no sandbox is counted twice |
| `Placement.ReleaseIsExact` | internal/control/store/placement.go:355-362 | In a conserved ledger the clamp to zero in Release never bites, in any column |
| `Placement.ReleaseConserves` | internal/control/store/placement.go:321-370 | Release keeps the ledger conserved, whether or not the reservation is still there |
| `Placement.StepFits` | internal/control/store/placement.go:252-316 | A transaction keeps all four sums within every node's allocatable amounts exactly when it is not a registration offering less than is already promised |
| `Placement.RunNeverOversells` | internal/control/store/placement.go:105-370 | No oversell: over every interleaving the ledger stays conserved and within bounds at every moment if and only if no sandbox is counted twice and no registration undercuts |
| `Placement.ReserveIsNotIdempotent` | internal/control/store/store.go:273-274 | A repeated Reserve records one reservation and commits two; releasing it leaves one behind for good |
| `Placement.ReleaseUndoesReserve` | internal/control/store/placement.go:244-370 | Releasing a fresh reservation restores both tables; only the in-flight marker stays for FinishCreate |
| `Placement.SumWithout` | internal/control/store/placement.go:329-340 | The sum of a node's reservations does not depend on the order in which they are added up |
| `Placement.Store.Reserve` | internal/control/store/placement.go:244-316 | Succeeds exactly when the node is READY and all four guards hold, and otherwise changes nothing |
| `Placement.Store.Release` | internal/control/store/placement.go:321-370 | Gives back what was recorded, deletes the record, and does nothing when there is none |
| `Placement.Store.SetNodeState` | internal/control/store/placement.go:412-420 | Reports a change exactly when this call made it |
| `Placement.Store.Commit` | internal/control/store/placement.go:105-490 | Every store transaction, run in place, has the effect of its step, which the rows below pin column by column |
| `Placement.HeartbeatRevives` | internal/control/store/placement.go:467-473 | A heartbeat turns SUSPECT and LOST into READY, leaves READY and DRAINING as they are, sets the heartbeat, and changes no other column, row or reservation |
| `Placement.DrainingHolds` | internal/control/store/placement.go:412-473 | Over every run in which nobody sets a draining node's state or registers it, it stays DRAINING through heartbeats and everything else, and no sandbox is added to it |
| `Placement.WorkNeedsReady` | internal/control/store/placement.go:252-300 | A reservation appears only through a Reserve of that sandbox on a READY node, recorded as asked for |
| `Placement.RegistrationKeepsAccounts` | internal/control/store/placement.go:105-150 | A registration keeps what is committed, in flight and reported, starts them at nothing for a new node, takes every other column from the node with 16 creates by default, and touches no other row |
| `Placement.ReportsReplace` | internal/control/store/placement.go:452-490 | A status report replaces the three load figures and an inventory report the image list, and nothing else |
| `Placement.StateIsSet` | internal/control/store/placement.go:412-420 | Setting a state sets it on that node, and nothing else |
| `Placement.StandingStays` | internal/control/store/placement.go:105-490 | Only a registration of the node changes what it is and what it can allocate |
| `Placement.CreatesAreCounted` | internal/control/store/placement.go:244-383 | Over every run the creates in flight on a node are those at the start plus its effective Reserves less the FinishCreates that found any |
| `Scoring.FeasibleIffUnblocked` | internal/control/scheduler/rejection.go:42-76 | A node is feasible exactly when it is in the region and nothing is listed as blocking it |
| `Scoring.FeasibleIsAdmitted` | internal/control/scheduler/scheduler.go:264-299 | What the pre-filter calls feasible, the reserving statement admits |
| `Scoring.BetterTotal` | internal/control/scheduler/scheduler.go:251-256 | The preference decides between any two different nodes, and never both ways |
| `Scoring.BetterTransitive` | internal/control/scheduler/scheduler.go:251-256 | The preference is transitive, so sorting by it is meaningful |
| `Scoring.Rank` | internal/control/scheduler/scheduler.go:240-262 | The feasible nodes, each once, best score first and lowest id on ties; the laws of `Preference` say what the score and the order of ids are |
| `Scoring.RankingIsUnique` | internal/control/scheduler/scheduler.go:249-256 | The ranking is determined by the ledger and the request, in whatever order the rows were read |
| `Scoring.HeadIsBest` | internal/control/scheduler/scheduler.go:240-262 | The first candidate is preferred to every other feasible node |
| `Scoring.WarmScoresAtLeastSeven` | internal/control/scheduler/scheduler.go:325-414 | With default weights, no spread key and loads in 0..100, a feasible node with a warm snapshot scores at least 7 |
| `Scoring.LackingScoresAtMostFive` | internal/control/scheduler/scheduler.go:325-414 | Under the same conditions a feasible node without the image's bytes scores at most 5 |
| `Scoring.WarmNodesComeFirst` | internal/control/scheduler/scheduler.go:90-101 | Every ranking lists every warm node before every node without the image, however busy, loaded or packed they are |
| `Preference.PressureIsProportional` | internal/control/scheduler/scheduler.go:366-374 | Against an idle node otherwise like it, a node within its create limit loses exactly the create-pressure weight times the share of the limit in flight |
| `Preference.PressureStopsAtTheLimit` | internal/control/scheduler/scheduler.go:366-374 | At or past the limit it loses the whole weight; with no limit or nothing in flight it loses nothing |
| `Preference.IdlerIsPreferred` | internal/control/scheduler/scheduler.go:353-374 | Of two nodes alike in everything else, the one with fewer creates in flight below the limit is preferred, whatever their ids |
| `Preference.LoadIsTheHotter` | internal/control/scheduler/scheduler.go:387-398 | The hotter of reported CPU and memory counts, each point a hundredth of the load weight |
| `Preference.PackingIsProportional` | internal/control/scheduler/scheduler.go:376-385 | Committed CPU and memory add half the packing weight each, in proportion to what the node can allocate |
| `Preference.PackingCountsTheRequest` | internal/control/scheduler/scheduler.go:376-385 | The request counts as committed |
| `Preference.NothingToPack` | internal/control/scheduler/scheduler.go:379-384 | A resource the node has none of does not count |
| `Preference.ImageIsWorth` | internal/control/scheduler/scheduler.go:328-351 | The image's bytes are worth the affinity weight, a warm snapshot the warm weight on top, a listing without bytes nothing |
| `Preference.CacheIsWorth` | internal/control/scheduler/scheduler.go:400-405 | An NVMe cache is worth its weight exactly to a node that does not list the image |
| `Preference.SpreadIsProportional` | internal/control/scheduler/scheduler.go:407-412 | Each member of the group costs the spread weight once; without a spread key groups do not matter |
| `Preference.SpreadPrefersEmptier` | internal/control/scheduler/scheduler.go:407-412 | Of two nodes alike in everything else, the one holding fewer members of the spread group is preferred |
| `Preference.ReservationJoinsItsGroup` | internal/control/store/placement.go:385-408 | A new reservation is one more member of its own group on its own node, and of no other |
| `Preference.DefaultPoints` | internal/control/scheduler/scheduler.go:98-101 | With the shipped weights: 10 for the image, 15 more if warm, 2 for the cache, up to 3 for packing, up to 12 off for pressure, 6 for load and 4 per group member |
| `Preference.TieGoesToTheLowerId` | internal/control/scheduler/scheduler.go:251-256 | Equal nodes are taken in the order of their ids |
| `Preference.LessIff` | internal/control/scheduler/scheduler.go:255 | That order is decided by the first character in which two ids differ, a proper prefix coming first |
| `Preference.SnapshotsTravelIff` | internal/control/scheduler/cpucompat.go:26-72 | A memory snapshot may go from one node to another exactly when the vendors agree and the families agree or one is unknown; one of unknown vendor may go anywhere |
| `Preference.SelectorNarrows` | internal/control/scheduler/scheduler.go:498-505 | One more label asked for leaves exactly the nodes that have it, and with an empty value also those without the label |
| `Preference.RuntimeNarrows` | internal/control/scheduler/scheduler.go:489-496 | A runtime asked for leaves exactly the nodes that list it |
| `Preference.FoldIff` | internal/control/scheduler/scheduler.go:489-496 | Runtime names match letter by letter in either case, and in no other way |
| `Scheduler.VerdictIsUnique` | internal/control/scheduler/scheduler.go:151-210 | A request has only one right answer on a given ledger |
| `Scheduler.CpuRejection` | internal/control/scheduler/scheduler.go:307-322 | Blames the CPU exactly when no node is feasible but one would be without the CPU constraint |
| `Scheduler.AnyUnblocked` | internal/control/scheduler/wait.go:141-170 | Finds a node exactly when some node in the region is feasible |
| `Scheduler.Replica.TryReserve` | internal/control/scheduler/scheduler.go:187-206 | One Reserve in the presence of other replicas: it counts as asked exactly when the call went through, as won exactly when it took effect, and then nothing came after it |
| `Scheduler.AccountIsSane` | internal/control/store/placement.go:244-316 | From the account of a call alone: for a new sandbox among harmless others, a call that won nothing leaves the ledger conserved, within bounds and without the sandbox, and one that ended by winning a node leaves it sound and showing exactly that reservation |
| `Scheduler.Replica.TryAll` | internal/control/scheduler/scheduler.go:187-206 | Asks for the candidates best first until one is granted; gives up only when every one was asked for and refused |
| `Scheduler.Replica.Schedule` | internal/control/scheduler/scheduler.go:151-210 | For every environment, with others also between its two reads: success means exactly one effective Reserve, on the node named, and failure none. It asks for exactly the candidates of its rounds, each round ranked on nodes and reservations the store really held, best first; it gives up only when its last read shows nothing that fits, blaming the CPU exactly when that decides, or after five rounds in which every candidate was taken. Left alone: the best feasible node, ErrIncompatibleCPU or ErrNoCapacity, each exactly when it is right. For a new sandbox among harmless others: the ledger stays conserved and within bounds and shows exactly this reservation |
| `Scheduler.Replica.WorthWaiting` | internal/control/scheduler/wait.go:141-170 | True only when some node is feasible as of its own read, and left alone exactly then; unreadable stores are not waited on |
| `Scheduler.OwnReserveKeepsSound` | internal/control/store/placement.go:244-316 | A Reserve for a sandbox without a reservation keeps a sound ledger sound, and records it exactly when it is admitted |
| `Scheduler.Replica.ScheduleWait` | internal/control/scheduler/wait.go:68-129 | Over any number of polls one reservation on success and none on failure; nothing at all for a caller already gone; a timeout only past the deadline, a cancellation only if there was one, and, told to wait, no capacity only when a read says waiting is no use; left alone, the same verdict as Schedule |
| `Liveness.StaleNodes` | internal/control/store/placement.go:492-511 | Exactly the nodes with an old heartbeat in no excluded state, each once |
| `Liveness.LossAddsOnePlace` | internal/control/scheduler/scheduler.go:423-437 | A statement changes a node into LOST, as the ledger shows it, exactly when it adds one place in one sweep's list that names the node; no statement takes a place away |
| `Liveness.NextKeepsInv` | internal/control/scheduler/scheduler.go:420-453 | Every statement of any sweep keeps each list free of repetitions and of nodes still to be visited |
| `Liveness.EachLossReportedOnce` | internal/control/scheduler/scheduler.go:416-453 | Over every statement-level interleaving, for every node and at every moment, the sweeps' lists together name the node exactly as often as the ledger changed it into LOST, and no list names a node twice |
| `Liveness.SweepLiveness` | internal/control/scheduler/scheduler.go:420-453 | A sweep with nobody else about returns exactly the nodes silent past the first threshold that were neither draining nor lost, each once, and leaves them LOST, leaves READY nodes past the second threshold SUSPECT, and changes nothing else; it is a behaviour of the interleaved system |
| `Catalogue.WalksAreExclusive` | internal/control/store/store.go:564-593 | On any map a walk down base links ends, dangles or cycles, and exactly one of these |
| `Catalogue.ChainIsUnique` | internal/control/store/store.go:551-559 | There is at most one base-first chain of a snapshot |
| `Catalogue.ChainNamesOnce` | internal/control/store/store.go:567-576 | A chain names no snapshot twice |
| `Catalogue.SnapshotChain` | internal/control/store/store.go:564-593 | Terminates on every map; answers the chain, a cycle or a missing base exactly when the walk ends, cycles or dangles |
| `Catalogue.OpKeepsInv` | internal/control/store/store.go:483-716 | One statement keeps counts equal to outstanding holders and every row restorable exactly when it is no put over a missing base and no second release of a reference while another is held |
| `Catalogue.RunKeepsInv` | internal/control/store/store.go:483-716 | Over every interleaving of puts, acquires, releases and deletes, counts equal outstanding holders and every row is restorable, at every moment, if and only if no statement is a put over a missing base or a second release |
| `Catalogue.OpKeepsHeldChain` | internal/control/store/store.go:610-716 | While a snapshot is held, one statement of anyone keeps it stored over the same chain with an exact count if and only if it is not an unowned release of that snapshot; dangling puts and double releases elsewhere do no harm |
| `Catalogue.HeldChainIsPinned` | internal/control/store/store.go:561-563 | While a reference is outstanding the snapshot and all its ancestors stay stored, the chain stays the same list and the count stays the holders, across every interleaving, if and only if nobody releases the snapshot without owning a reference |
| `Catalogue.CountDecidesPin` | internal/control/store/store.go:642-653 | For a held snapshot that nothing stands on, the chain stays through every fair continuation if and only if its count is the number of its holders |
| `Catalogue.ReadsNeedNotBeSimultaneous` | internal/control/store/store.go:568-591 | A walk whose reads happen at different moments of a hold still visits exactly that chain |
| `Catalogue.DeleteIffFree` | internal/control/store/store.go:656-716 | A delete takes effect exactly when nobody holds the snapshot and nothing stands on it |
| `Catalogue.PutStores` | internal/control/store/store.go:483-498 | A put stores the state, base, depth and memory it is given, over an old row or not, and leaves the references of an old row as they were |
| `Catalogue.StatementsAreLocal` | internal/control/store/store.go:483-716 | Every statement leaves all rows but one as they were |
| `Catalogue.SecondReleaseDropsAnother` | internal/control/store/store.go:648-652 | After two acquires and two releases by one caller, the other caller's snapshot can be deleted underneath it |
| `SnapshotStore.Snapshots.AcquireSnapshot` | internal/control/store/store.go:610-639 | Adds a reference exactly to a READY row; absent and not-ready are told apart |
| `SnapshotStore.Snapshots.DeleteSnapshot` | internal/control/store/store.go:656-716 | Removes the row exactly when it is unreferenced and childless; absent and in-use are told apart |
| `SnapshotStore.Snapshots.Others` | internal/control/store/interfaces.go:44-59 | Whatever proper statements other callers make, as long as none gives up this caller's reference, the held snapshot stays pinned |
| `SnapshotStore.Snapshots.ReadChain` | internal/control/store/store.go:564-593 | Reading link by link with other callers between the reads, a holder gets exactly the chain: never a cycle, never a missing base |
| `SnapshotStore.Snapshots.Restore` | internal/control/api/snapshots.go:319-343 | Acquire, read, release: reads the chain the snapshot had when acquired, whatever others do meanwhile; refused exactly when the snapshot is absent or not READY |
| `Capture.EventKeepsSound` | internal/control/api/snapshots.go:122-176 | One statement of any capture or caller keeps every row at the right depth on a READY base with memory exactly when it puts no row over a missing base |
| `Capture.EventKeepsInv` | internal/control/api/snapshots.go:122-176 | And keeps reference counts exact as well exactly when it does no harm to the catalogue |
| `Capture.RunKeepsInv` | internal/control/api/snapshots.go:122-262 | Over every interleaving of captures, acquires, releases and deletes, counts are exact and every row stands at the right depth on a READY base with memory, at every moment, if and only if no event does harm |
| `Capture.SettleWrites` | internal/control/api/snapshots.go:243-262 | A settling put leaves the row READY if the capture went well and FAILED otherwise, with the plan's base, depth and memory and the count it had, and touches no other row |
| `Capture.SettledForGood` | internal/control/api/snapshots.go:243-262 | Over every interleaving what a capture settles on is final: at every later moment its row is gone or says the same, but for the count |
| `Capture.ReadyWasSettled` | internal/control/api/snapshots.go:243-250 | Over every interleaving a row is READY at some moment only if a capture of its id settled well before |
| `Capture.OpenWrites` | internal/control/api/snapshots.go:155-176 | The first put adds one unreferenced CREATING row with the plan's base, depth and memory |
| `Capture.StartPlans` | internal/control/api/snapshots.go:122-153 | The base is read once: the capture keeps what that read decided, a refused one leaves no trace, and the catalogue is not written |
| `Capture.DiffIff` | internal/control/api/snapshots.go:122-153 | A diff is planned exactly for a capture with memory over a READY base with memory at depth below eight, one deeper; any other plan is a full capture at depth 0 |
| `Capture.RefusedIff` | internal/control/api/snapshots.go:122-146 | Each refusal, exactly when it is the first thing wrong |
| `Capture.EveryDepthIsReached` | internal/control/api/snapshots.go:47-54 | The bound is tight: orderly captures reach every depth up to eight, and one over the deepest is taken in full |
| `Capture.ChainLengthIsDepth` | internal/control/api/snapshots.go:147-153 | A chain is one longer than its leaf's recorded depth, and its members below the leaf are READY and carry memory |
| `Capture.DepthIsBounded` | internal/control/api/snapshots.go:47-54 | Over every interleaving of captures, acquires, deletes and releases of any kind: every snapshot has a chain of at most nine, below the node's limit of 64, at every moment if and only if no row is put over a base that is gone |
| `Capture.DeletedCaptureComesBackDangling` | internal/control/api/snapshots.go:243-262 | Deleting a capturing snapshot and then its base lets the settling put leave a READY row over a missing base |
| `Restore.ReceiveLayers` | internal/node/grpc.go:634-673 | The receiving loop delivers to layer i exactly the i-th segment of the stream, counts exactly the delivered bytes, and closes each pipe as the stream's shape demands |
| `Restore.RecvLayers` | internal/node/grpc.go:592-677 | No layers for a filesystem-only restore, a refusal past 64, otherwise one layer per declared id in order |
| `Restore.SendBlob` | internal/control/api/snapshots.go:494-518 | However the reads fall, the data frames concatenate to the bundle and none is empty or over 1 MiB |
| `Restore.SendChain` | internal/control/api/snapshots.go:459-478 | Sends the bundles base first, so that the stream cut at its boundaries is exactly the bundles; nothing for an empty chain |
| `Restore.SegmentsOfFramed` | internal/control/api/snapshots.go:459-478 | Cutting a framed chain at its boundaries gives back the bundles, in order |
| `Restore.RoundTrip` | internal/node/grpc.go:580-677 | For every chain of 1 to 64 bundles and every chunking, layer i arrives as exactly bundle i, closed cleanly, and the count is the total |
| `Restore.SurplusNeverArrives` | internal/node/grpc.go:654-661 | No byte after the last declared layer's boundary reaches a layer |
| `Restore.ErrorReachesAReaderIffNoSurplus` | internal/node/grpc.go:654-661 | An error reaches some reader exactly when there is no surplus; with a surplus every pipe ends cleanly |
| `Lifecycle.EventKeepsInv` | internal/node/manager.go:196-774 | Every lock region and every runtime outcome keeps the exclusion, the truth of the records, and the starting state of sandboxes being created |
| `Lifecycle.TransitionsExclude` | internal/node/manager.go:638-774 | Over every interleaving at most one of Pause, Resume and Snapshot is between claim and settlement per sandbox, PAUSED records are stopped, and RUNNING ones have a VM |
| `Lifecycle.EventsAreLocal` | internal/node/manager.go:196-774 | An event changes the record and the vCPUs of the sandbox it is about, and of no other |
| `Lifecycle.RemoveRemoves` | internal/node/manager.go:588-606 | Destroy deletes the record whatever state it shows, and then the VM, and touches nothing else |
| `Lifecycle.RemovedForGood` | internal/node/manager.go:588-594 | Over every interleaving a destroyed sandbox has no record at any later moment, and no operation claims it again |
| `Lifecycle.GoneForGoodIff` | internal/node/manager.go:588-616 | Once Destroy's runtime call has returned, the sandbox has no VM in any continuation if and only if no create of it had still to bring its guest up |
| `Lifecycle.DestroyedCreateComesUp` | internal/node/manager.go:299-326 | Otherwise the guest can come up with no record |
| `Lifecycle.SnapshotReturnsWhatItFound` | internal/node/manager.go:671-774 | Whatever failed inside it, a snapshot returns the record to the state it found |
| `Lifecycle.EventKeepsExact` | internal/node/manager.go:638-774 | One lock region or runtime outcome keeps RUNNING and PAUSED records equal to the vCPUs, or settles a snapshot whose closing resume failed and makes them differ |
| `Lifecycle.RecordsMatchUnlessThawFails` | internal/node/manager.go:744-750 | Over every interleaving RUNNING and PAUSED records match the vCPUs at every moment if and only if no snapshot settles after a failed closing resume while its sandbox is still there |
| `Lifecycle.FailedThawMisleads` | internal/node/manager.go:744-750 | After a failed one the record says RUNNING while the vCPUs are stopped |
| `Manager.RecordShowsClaim` | internal/node/manager.go:654-668 | On every reachable node the record of an operation in progress shows its claim or is gone, so undoing a failed call never misses |
| `Manager.Manager.Others` | internal/node/manager.go:638-774 | Whatever other goroutines do while the lock is free, an operation in progress keeps its job and the node stays reachable |
| `Manager.Manager.Create` | internal/node/manager.go:230-326 | Refuses exactly an id in use; otherwise, unless others destroy it meanwhile, success leaves the sandbox RUNNING and running, and a failure before or after the guest came up leaves neither record nor VM |
| `Manager.Manager.Destroy` | internal/node/manager.go:559-629 | Whatever state the sandbox is in and whatever others do, no record remains, and no VM either unless the runtime failed or the sandbox's create had still to bring it up; a sandbox without a record needs nothing |
| `Manager.Manager.Pause` | internal/node/manager.go:638-669 | Claims exactly a RUNNING sandbox; unless others destroy it meanwhile, success leaves it PAUSED and stopped and failure RUNNING |
| `Manager.Manager.Resume` | internal/node/manager.go:1437-1473 | Claims exactly a PAUSED sandbox, a RUNNING one needs nothing; unless others destroy it meanwhile, success leaves it RUNNING and running and failure PAUSED and stopped |
| `Manager.Manager.Snapshot` | internal/node/manager.go:678-774 | Claims exactly a RUNNING or PAUSED sandbox; whatever fails inside and whatever others do, unless they destroy it, the record is back where it was, and so are the vCPUs unless the closing resume failed |
| `Network.Node.Reserve` | internal/node/network/alloc.go:53-94 | The lowest index neither handed out nor standing on the host, adopting what it passes over; refuses exactly when the listing fails or none is free |
| `Network.Node.Provision` | internal/node/network/provision.go:76-90 | Gives the sandbox an index nobody has; an error leaves nothing behind |
| `Network.Node.Deprovision` | internal/node/network/provision.go:101-117 | Takes the index back also when the teardown fails, leaving at most one namespace standing, whose index is not handed out again |
| `Network.Node.ReleaseNetwork` | internal/node/manager.go:455-463 | Takes the sandbox's index back, if the node has networking |
| `Network.Node.DropFailed` | internal/node/manager.go:436-445 | Record and index go together, wherever the create failed |
| `Network.Node.StartGuest` | internal/node/manager.go:1048-1104 | Restores a warm snapshot if there is one and boots if there is none or the restore fails, so the guest comes up exactly when the boot works, or there is a snapshot and its restore works |
| `Network.Node.BringUp` | internal/node/manager.go:276-326 | From taking the id to a healthy agent, in a fork only from its own layers: on any failure neither the record nor the index stays |
| `Network.Node.Create` | internal/node/manager.go:196-339 | Succeeds exactly when the id is new, the guards admit it, the network comes up, the boot or a warm restore works, and the agent answers; otherwise leaves the sandboxes unchanged and at most one namespace whose teardown failed |
| `Network.Node.ForkSandbox` | internal/node/manager.go:1174-1271 | The same for a fork, which has no boot to fall back to |
| `Network.Node.Destroy` | internal/node/manager.go:559-629 | Record and index go together, whatever the runtime said |
| `Network.Node.PrewarmImage` | internal/node/manager.go:928-1034 | Captures exactly when the throwaway guest came up and the store took it, and leaves the sandboxes and their indices unchanged |
| `Network.Node.Serve` | internal/node/manager.go:196-1271 | Over any sequence of calls with failures anywhere, the sandboxes are exactly the owners of indices, no index has two owners, and the namespaces standing are theirs, those there before, and at most one per failed teardown |
| `BuildLog.Writer.Write` | internal/control/s3/buildlog.go:159-175 | Accepts everything until closed; the stored chunks followed by the buffer are what was accepted; at 256 KiB the buffer is flushed with a manifest that is not final, and returns to the buffer if that fails |
| `BuildLog.Writer.Flush` | internal/control/s3/buildlog.go:181-235 | For any failing upload the log stays whole, stored chunks never change, and the manifest is replaced exactly when the flush gets that far, with the exact chunk count |
| `BuildLog.Writer.Finish` | internal/control/s3/buildlog.go:240-253 | A first success leaves an empty buffer, everything accepted readable, and a terminal manifest with the exact count; a second call does nothing and reports success |
| `BuildLog.Reader.ChunkSize` | internal/control/s3/buildlog.go:319-332 | The chunk's length or its absence, and a cache that stays right |
| `BuildLog.Reader.ReadFrom` | internal/control/s3/buildlog.go:340-373 | Exactly the available bytes from the offset on, and the offset after them |
| `BuildLog.Follow` | internal/control/s3/buildlog.go:334-339 | A reader that keeps asking from where it stopped has exactly what was available at its last call: nothing twice, nothing lost |
| `BuildLog.AvailableGrows` | internal/control/s3/buildlog.go:315-318 | As chunks are only added, what is available only grows at its end |
| `BuildLogRace.PutFailKeepsInv` | internal/control/s3/buildlog.go:197-207 | A failed chunk that no later one has overtaken goes back in front of the buffer and nothing is lost |
| `BuildLogRace.EventKeepsInv` | internal/control/s3/buildlog.go:159-373 | Every lock region, upload outcome and read other than an overtaken failure keeps everything written in exactly one place and the follower on a prefix |
| `BuildLogRace.RunKeepsLog` | internal/control/s3/buildlog.go:159-373 | Over every interleaving with any number of flushes in flight and no overtaken failure, what readers can get and what the follower has is a prefix of what was written, at every moment |
| `BuildLogOrder.OvertakenFailureExample` | internal/control/s3/buildlog.go:197-207 | A run with an overtaken failure in which the retry makes everything readable and the next chunk then overwrites another |
| `BuildLogOrder.FailureKeepsOrderIff` | internal/control/s3/buildlog.go:197-207 | After a failed upload, readers and follower stay on a prefix through every further steady run if and only if no later chunk was claimed, or Finish has closed the log and its own flush can no longer claim or would claim bytes that commute with the later chunks |
| `BuildLogRace.AllAvailableIffFlushed` | internal/control/s3/buildlog.go:340-373 | A reader can get everything written exactly when nothing is buffered and no chunk upload is outstanding |
| `BuildLogRace.FollowerEndsWithEverything` | internal/control/s3/buildlog.go:334-373 | End to end over every interleaving without overtaken or late failures: the follower always has a prefix, and once Finish's manifest has landed with no chunk upload outstanding, every ReadFrom that returns leaves it with exactly everything, whatever happens between its looks |
| `BuildLogRace.FollowerGetsEverything` | internal/control/s3/buildlog.go:340-373 | And such a ReadFrom does return, after one look per chunk and one more |
| `BuildLogRace.RunKeepsHealthy` | internal/control/s3/buildlog.go:181-253 | Over every interleaving without overtaken or late failures the log stays whole and its end orderly |
| `BuildLogRace.EndsWellIffNoLateFailure` | internal/control/s3/buildlog.go:237-253 | Over every interleaving without overtaken failures, everything written can still become readable behind Finish's flush, at every moment, if and only if no upload fails after that flush has claimed |
| `BuildLogRace.LateFailureExample` | internal/control/s3/buildlog.go:237-253 | Finish succeeds with a terminal manifest of no chunks while what was written sits in the buffer |
| `BuildLogRace.OnlySuccessPublishes` | internal/control/s3/buildlog.go:197-235 | Only a successful upload changes what is stored: a chunk as claimed, a manifest as composed; and only Finish's own manifest finishes the log |
| `BuildLogRace.FirstVerdictStands` | internal/control/s3/buildlog.go:240-253 | Over every interleaving the first Finish decides whether the build failed and why; later calls change nothing |
| `BuildLogRace.FinishSeals` | internal/control/s3/buildlog.go:237-253 | When Finish's manifest lands it is terminal with the exact count, and everything written is readable exactly when no other chunk upload is outstanding |
| `BuildLogRace.LateFlushUnseals` | internal/control/s3/buildlog.go:217-235 | A flush still in flight can end with a manifest that is not terminal |
| `BuildLogRace.SealHoldsIffNoFlushInFlight` | internal/control/s3/buildlog.go:217-253 | After Finish the terminal manifest stays in every continuation if and only if no other flush is in flight |
| `LogKey.BuildLogKey` | internal/control/s3/buildlog.go:41-57 | The escaped reference, and an error for the empty one |
| `LogKey.KeyIsPlain` | internal/control/s3/buildlog.go:35-40 | A key is one non-empty path segment of plain characters |
| `LogKey.KeptIff` | internal/control/s3/buildlog.go:41-57 | Letters, digits, dashes and underscores are kept in a key, and nothing else is |
| `LogKey.SharedIff` | internal/control/s3/buildlog.go:38-40 | A reference shares its key with another exactly when it has a character to escape or an underscore before a hexadecimal digit |
| `LogKey.SharedExample` | internal/control/s3/buildlog.go:38-40 | Two references with one key |
| `LogKey.SteadyAreDistinct` | internal/control/s3/buildlog.go:35-40 | References without underscores whose escaped characters have two-digit codes, as image references do, have distinct keys |
| `Multipart.PartsMakeWhole` | internal/control/s3/multipart.go:112-125 | The full parts and the rest put together are the data |
| `Multipart.PartsReachMinimum` | internal/control/s3/multipart.go:21-24 | At the default size every part but the last is exactly 16 MiB, above Amazon S3's 5 MiB minimum, none is empty, and together they are the data |
| `Multipart.Uploader.FlushPart` | internal/control/s3/multipart.go:130-142 | Stores the buffer as the next part number, or changes nothing |
| `Multipart.Uploader.Write` | internal/control/s3/multipart.go:102-127 | What was sent and buffered is always the cut of everything written, however it was written; it fails exactly when the upload of a part it fills fails, and says how much it took |
| `Multipart.Uploader.Close` | internal/control/s3/multipart.go:177-240 | A first success publishes exactly the bytes written, as parts 1..n cut at the part size or as an empty object; any failure publishes nothing; says exactly when the parts are discarded |
| `Multipart.Uploader.Abort` | internal/control/s3/multipart.go:244-252 | Discards the parts of an open upload and leaves a closed one alone; what is published does not change |
| `Buffers.RingStep` | internal/beand/buffer.go:74-85 | Writing into a ring, wrapping or not, leaves the last elements of everything written |
| `Buffers.RingBuffer.Write` | internal/beand/buffer.go:64-87 | The ring always holds the last bytes of everything written, for any size and any cutting into writes |
| `Buffers.RingBuffer.Snapshot` | internal/beand/buffer.go:90-103 | Exactly the last min(total, size) bytes written, in order |
| `Buffers.CutIsExact` | internal/node/image/buildlog.go:39-51 | Cutting text at its newlines loses nothing and leaves no newline in a line |
| `Buffers.CutIsUnique` | internal/node/image/buildlog.go:39-51 | It is the only such cut |
| `Buffers.TailBuffer.Push` | internal/node/image/buildlog.go:53-59 | The ring of lines keeps the last n lines ended |
| `Buffers.TailBuffer.Write` | internal/node/image/buildlog.go:36-51 | The buffer's state is a function of everything written, not of how it was cut into writes |
| `Buffers.TailBuffer.String` | internal/node/image/buildlog.go:61-75 | The last n complete lines without trailing carriage returns, and an unterminated last one, joined by newlines |
| `Buffers.TailIsVerbatim` | internal/node/image/buildlog.go:62-75 | Output without carriage returns is shown verbatim from the start of its last n lines, short of a final newline |
| `Buffers.ReturnsAreDropped` | internal/node/image/buildlog.go:39-51 | Output that ends its lines with carriage return and newline is shown like output that ends them with newlines |
| `Routing.ReadersAgree` | internal/control/proxy/proxy.go:82-110 | On every host string the node accepts a sandbox and port exactly when the proxy reads the same two |
| `Routing.AcceptedIff` | internal/node/portforward.go:58-90 | A host is accepted exactly when its first label is a port in range, a dash and a non-empty sandbox |
| `Hosts.SplitIff` | internal/node/portforward.go:69-73 | The host of a host:port pair is found exactly when there is one: no colons or brackets in either, or the host in brackets |
| `Hosts.ListenerPortIsIgnored` | internal/node/portforward.go:70-73 | The port of the listener makes no difference to what any of the readers reads |
| `Hosts.AtoiIff` | internal/node/portforward.go:82-88 | A port text is a number exactly when it is digits with at most one sign and fits 64 bits |
| `Hosts.AtoiItoa` | internal/node/portforward.go:82-88 | Printing and reading a number gives it back whenever it fits |
| `Hosts.PortIff` | internal/control/proxy/proxy.go:185-209 | The proxy's port is the number before the first dash of the label, in range or not, and 0 when there is none |
| `Routing.DigitsValue` | cli/dataplane.go:75-76 | Reading a printed port gives it back |
| `Routing.RoundTrip` | cli/dataplane.go:72-81 | Parsing undoes building exactly when the port is in range and the id is non-empty, has no dot, and does not hold the authority's only colon with no bracket anywhere |
| `Routing.CutIdNamesAnother` | internal/node/portforward.go:69-77 | An id cut at its colon is read as the part before it, or refused |
| `Routing.ColonExample` | internal/node/portforward.go:69-77 | Port 80 of `a:b` is read as port 80 of `a` |

## Left out

- SQL text, JSON, drivers, migrations and transports: a transaction or statement is one step, and an upload or commit that reports an error has had no effect.
- Concurrency inside Release: it reads the reservation before subtracting, and is taken as one atomic transaction.
- Float rounding: CPU amounts, loads and scores are exact reals.
- Case folding of runtime names beyond ASCII, and the text explainRejection composes.
- Columns no modelled decision reads: advertise addresses, CPU templates, names, reasons and timestamps.
- OrphanReservations: which reservations are orphans is left open; the sweep's releases are ordinary steps.
- Network.Node.Reserve: a repeated Reserve for a sandbox that has an index is not modelled, because Create and ForkSandbox refuse such an id before it.
- Liveness.SweepLiveness: the call has nobody else about, and the final sorting of its result is left out; interleaved sweeps are the behaviours of `EachLossReportedOnce`.
- Captures as calls: captureSnapshot is modelled as its base resolution and its two puts, which succeed; streaming the bundle is left out.
- Restore readers that close their pipe early, and a sender whose read fails halfway.
- AgentConn's connection and in-flight count; wake-on-request and the idle sweep appear as the Resume, Pause and Destroy they start.
- Runtime calls that fail after taking effect: a failed Pause or Resume leaves the vCPUs as they were.
- Overlapping calls in the network model.
- Manager.Manager.Create: assumes that the id of a destroyed sandbox is not taken again, as ids are generated; a failed create is taken to leave no VM.
- BuildLogOrder.FailureKeepsOrderIff: quantifies over continuations without a further overtaken failure; each failure is judged where it happens.
- Read errors other than a missing chunk, and a reader of a log whose chunks are rewritten.
- References that are not valid UTF-8 text: keys are modelled on characters.
- cappedBuffer, tokens, authentication, metrics, tracing and the command line: no decision modelled here depends on them.
- Scheduler.Replica.ScheduleWait: assumes a poll at which the caller has gone or the clock has reached the deadline, without which the loop need not end.
- Liveness.EachLossReportedOnce: assumes that only sweeps write LOST and registrations write READY, as their callers do.
- Scoring.WarmNodesComeFirst: assumes non-negative requests and commitments and loads within 0..100, which the ledger and the reports give.
