# Verified model of the capability broker's resource protocols

This project models, in Dafny, the process-local resource protocols of the capability broker and
proves what they keep over every run:

- the **snapshot store**: a content-addressed, reference-counted byte store with two-phase staging
  (`Snapshots`, `SnapshotAnswers`, `SnapshotStores`) and the package **loader** on top of it
  (`Loaders`, `LoadRuns`);
- the **registry** of immutable generations with leases, retirement and reclamation (`Registries`,
  `RegistryStores`), its path tree (`Hierarchies`), the catalog (`Catalogs`, `CatalogAnswers`,
  `CatalogStores`) and search (`Searches`, `SearchAnswers`, `Tokenizers`, `TokenAnswers`);
- **resumable chunked reads** (`Reads`, `ReadLeaseStores`), and the three stores together under
  concurrent threads (`Systems`, `SystemRuns`, `ReadAnswers`, `Ownership`, `OwnershipRuns`);
- **paged descriptions** (`Projections`, `ProjectionStores`, `DescribeAnswers`);
- **single-flight loading** of provider clients and the per-provider mutexes (`SingleFlight`,
  `SingleFlightAnswers`, `ServerRegistries`, `ClientMutexes`);
- the bounded **provider event queue** (`EventQueues`), the bounded **JSON scan** (`JsonScans`) and
  the **frame readers** (`Frames`).

`Outcomes`, `Sums` and `Orders` hold what the others share.

Most stateful parts are written twice. One module gives the operations as functions on values and
proves invariants and run theorems about them, with one step for every locked region, wait or
foreign call, so that every interleaving of threads is a run. A second module gives the same
operations as classes and loops over mutable memory, as the program has them: fields, arrays that
are moved or zeroed, map iteration in any order. Every method there is proved to change its state
as the function says. The modules whose names end in `Answers` state, apart from both, what each
call answers and under which condition, with numbers and conditions of their own.

Conventions of the model:

- SHA-256 is an injective function: a digest is the constructor `Sha256` applied to its content.
- Cursors sealed by an HMAC are tokens that carry their cursor; every other token is foreign.
- Time is an integer that the caller passes; in the theorems about how long a description cursor
  is good it does not go back.
- Encoded sizes, string-shape checks, case folding, Unicode classes and trimming, manifest parsing
  and message validation are functions that a configuration supplies, and the theorems hold for all
  of them.
- A random identifier is an input: one that is not in use, or none.
- Map iteration takes any remaining key next.
- A dotted path is the sequence of its segments where trees are built.
- A provider factory creates new clients only, and reports the initiator's cancellation only if
  its context has ended.

`dafny verify dfyconfig.toml` checks everything.

Where the code does not do what one might expect, the model follows the code and says exactly
when: reserving through a closed transaction leaks the reservation (`Snapshots.LeaksExactlyLate`),
staging more than is left of the reservation takes a transaction past what it reserved
(`Snapshots.BoundedExactlyWhenDisciplined`), after which its commit may meet the byte quota,
installing a record that is not fresh gives away bytes still in use
(`Ownership.OwnedExactlyWhenFresh`), and two calls can be at one provider at once if one of them
fetched its mutex before the first close of the server registry and the other after it
(`ClientMutexes.MeetExactlyAcrossFirstClose`). Each comes with a concrete run. The loader does none
of the first two: it never reserves after the end of its transaction, and it stages exactly what it
reserved (`Loaders.StageAll`).

## Model

| member | source | states |
|---|---|---|
| `Snapshots.ReachableCounts` | internal/capability/snapshot.go:125-275 | In every reachable store an object exists exactly for the digests with a live reference (one per snapshot name, one per artifact lease), counts those references, and the used bytes are the sum over the objects. |
| `Snapshots.SnapshotIsImmutable` | internal/capability/snapshot.go:192-204 | While a snapshot is not released, no other transaction, snapshot or lease changes what it reads. |
| `Snapshots.StagedBytesSurvive` | internal/capability/snapshot.go:140-204 | From a successful commit until release, every read returns exactly the bytes staged under that name, and nothing under other names, despite deduplication and clearing. |
| `Snapshots.LeaseIsImmutable` | internal/capability/snapshot.go:206-256 | An unreleased artifact lease reads the same ranges of the same bytes, also after its snapshot is gone. |
| `Snapshots.HoldersDetermineStore` | internal/capability/snapshot.go:43-59 | Two sound stores with the same live holders agree on every object, count and counter: nothing else is remembered. |
| `Snapshots.CommitAddsAtMost` | internal/capability/snapshot.go:148-174 | A commit adds at most the bytes its quota test counted, whatever the package duplicates inside itself or shares with the store. |
| `Snapshots.CommitFits` | internal/capability/snapshot.go:140-156 | A transaction that staged no more than it reserved never meets the quota failure at commit. |
| `Snapshots.QuotasHold` | internal/capability/snapshot.go:65-85 | Over any interleaving of disciplined transactions, used plus reserved bytes and staging bytes never pass their limits, and no commit can fail on the quota. |
| `Snapshots.BoundedExactlyWhenDisciplined` | internal/capability/snapshot.go:65-115 | One call keeps used plus reserved bytes, staging bytes and every staged total within their bounds exactly if it is not an accepted stage that declares more than its transaction has left of its reservation, which the caller can tell before the call. |
| `Snapshots.UndisciplinedStageBreaksBound` | internal/capability/snapshot.go:87-115 | One call that is not disciplined: four bytes staged under an empty reservation, and the quota failure at commit that follows. |
| `Snapshots.LeaksExactlyLate` | internal/capability/snapshot.go:65-85 | Reservations stay those of the open transactions in every step exactly unless the step is an accepted, non-empty reservation through a closed transaction, whose bytes are never given back. |
| `Snapshots.LateReserveLeaks` | internal/capability/snapshot.go:65-85 | One such call: ten bytes reserved through a transaction that has committed stay reserved with no transaction left. |
| `SnapshotStores.NewSnapshotStore` | internal/capability/snapshot.go:41-59 | A store is made exactly for positive limits, and is empty. |
| `SnapshotStores.SnapshotStore.Absorb` | internal/capability/snapshot.go:161-171 | One artifact of a commit: its array becomes the new object, or is zeroed when the content is stored already; either way the content gains one reference. |
| `SnapshotStores.SnapshotStore.Unreference` | internal/capability/snapshot.go:245-254 | Gives up one reference; the last one zeroes the bytes in memory and deletes the object. |
| `SnapshotStores.SnapshotStore.AbsorbAll` | internal/capability/snapshot.go:161-171 | Publishing all staged artifacts in any map order adds one reference for every name and exactly the new bytes. |
| `SnapshotStores.SnapshotStore.UnreferenceAll` | internal/capability/snapshot.go:262-273 | Releasing all names in any map order drops one reference for every name and exactly the freed bytes. |
| `SnapshotStores.StagingTransaction.Reserve` | internal/capability/snapshot.go:65-85 | All four refusals in order; on success the bytes count in both reservations, on refusal nothing changes, and a closed transaction still reserves. |
| `SnapshotStores.StagingTransaction.StageReserved` | internal/capability/snapshot.go:87-115 | Stages a private copy exactly if the reader delivers the declared number of bytes within the limit under a new name; every other outcome is the stated error and changes nothing. |
| `SnapshotStores.StagingTransaction.Abort` | internal/capability/snapshot.go:125-138 | Gives the reservation back once and zeroes every staged array. |
| `SnapshotStores.StagingTransaction.Measure` | internal/capability/snapshot.go:148-155 | The loop computes the digest of every staged name and the bytes that the store does not hold yet. |
| `SnapshotStores.StagingTransaction.Commit` | internal/capability/snapshot.go:140-175 | Publishes everything or nothing: the quota failure leaves the store as an abort would, success adds one snapshot with one reference for every name. |
| `SnapshotStores.Snapshot.Read` | internal/capability/snapshot.go:192-204 | An unreleased snapshot reads exactly the content of the digest it was committed with. |
| `SnapshotStores.Snapshot.AcquireArtifact` | internal/capability/snapshot.go:206-219 | Takes one reference exactly if the object is present with the expected size and digest; otherwise nothing changes. |
| `SnapshotStores.Snapshot.Release` | internal/capability/snapshot.go:258-275 | The first release drops one reference for every name, later ones do nothing. |
| `SnapshotStores.ArtifactLease.ReadRange` | internal/capability/snapshot.go:221-236 | An unreleased lease returns the clipped range of its content for every offset inside it, also where the sum would overflow. |
| `SnapshotStores.ArtifactLease.Release` | internal/capability/snapshot.go:238-256 | The first release drops one reference, later ones do nothing. |
| `Loaders.ArtifactSpecs` | internal/capability/loader.go:191-220 | Accepts a manifest exactly if no artifact path is used twice and none is the manifest itself. |
| `Loaders.OpenSources` | internal/capability/loader.go:149-161 | Succeeds exactly if every artifact opens within its limit, and returns the sum of the declared sizes. |
| `Loaders.StageAll` | internal/capability/loader.go:165-174 | Succeeds exactly if every file delivers its declared size within its limit and closes; keeps staged bytes plus bytes to come equal to the reservation, and on success has staged every file in full under its own path. |
| `Loaders.CommitGains` | internal/capability/loader.go:183-188 | Committing a covered transaction cannot fail on the quota, and adds exactly one snapshot to an otherwise unchanged store. |
| `Loaders.Load` | internal/capability/loader.go:91-189 | Succeeds exactly if the directory opens, the manifest delivers, parses and names it, the artifact paths are distinct and all deliver, everything together has room, and the rules accept the contents. A failed load, at whatever stage, leaves the store exactly as it was, and the failure is never the quota at commit; a successful one adds one snapshot that holds every file of the package. |
| `Loaders.ReleaseRecords` | internal/capability/loader.go:48-61 | Releasing the records loaded so far restores the store exactly. |
| `Loaders.LoadAll` | internal/capability/loader.go:34-67 | Stops exactly at the first package that does not load into the store as the ones before it left it, or repeats an identifier. Whichever package fails, objects, counts, used bytes and reservations equal those before the call; on success there is one record for every package, sorted by strictly ascending identifier, each holding its package, and nothing else changed. |
| `Loaders.SortRecords` | internal/capability/loader.go:65-65 | Records with distinct identifiers come out as the same records in ascending order of identifier. |
| `Loaders.SortedIsKept` | internal/capability/loader.go:62-67 | Sorting changes nothing about which snapshots the records hold. |
| `LoadRuns.LoadIsInvisible` | internal/capability/snapshot.go:61-275 | Under every interleaving of a load with other transactions, snapshots and leases, the store without the load's own reservations and snapshots is at every moment what the others alone have made of it. |
| `LoadRuns.FailedLoadLeavesNothing` | internal/capability/loader.go:48-89 | A load that fails among other users leaves nothing: once its transactions are closed and its snapshots released, the store is exactly the one that the others' calls make alone, up to reservations refused for want of room. |
| `LoadRuns.OtherStepCommutes` | internal/capability/snapshot.go:65-204 | A call of another user does the same with the load and without it, unless it is a reservation refused for want of room. |
| `LoadRuns.OwnStepIsInvisible` | internal/capability/snapshot.go:61-275 | A call of the load changes nothing in the store without the load. |
| `Registries.GenerationsConserved` | internal/capability/registry.go:335-378 | Through any run every generation has one reference for being installed plus one for each unreleased lease, is retired exactly when not installed, and its record is released exactly once, when that count reaches zero. |
| `Registries.NewRegistryRollsBack` | internal/capability/registry.go:41-53 | Construction succeeds exactly on distinct identifiers; when it fails, every record that was installed is released exactly once. |
| `Registries.MutationTakesRevision` | internal/capability/registry.go:55-121 | Every accepted change takes the next revision and changes what is shown for its own identifier only. |
| `Registries.SameRevisionSameEntries` | internal/capability/registry.go:55-121 | Along any run the revision never falls, and equal revisions of an open registry show equal entries. |
| `Registries.LeaseKeepsGeneration` | internal/capability/registry.go:123-183 | A leased generation keeps its record, unreclaimed, through any run that does not release the lease. |
| `Registries.FoundOperationIsFirst` | internal/capability/registry.go:149-155 | The operation found is the first one with the identifier, and none is found exactly if there is none. |
| `Registries.FoundBindingIsFirst` | internal/capability/registry.go:161-167 | The same for provider bindings. |
| `RegistryStores.CapabilityRegistry.Put` | internal/capability/registry.go:69-82 | A fresh generation takes the place under its identifier; the displaced one keeps its count and flag. |
| `RegistryStores.CapabilityRegistry.RetireGeneration` | internal/capability/registry.go:335-341 | Retiring gives up the installed reference and reclaims at zero. |
| `RegistryStores.NewRegistry` | internal/capability/registry.go:41-53 | The loop builds the registry and its tree from records with distinct identifiers; the first repeated one closes and reclaims what was built. |
| `RegistryStores.CapabilityRegistry.RebuildHierarchy` | internal/capability/registry.go:296-333 | The node table becomes the path tree of the identifiers and parents that are installed. |
| `RegistryStores.CapabilityRegistry.Publish` | internal/capability/registry.go:64-66 | Ends every change: the tree is rebuilt from the new entries, then the revision moves on. |
| `RegistryStores.CapabilityRegistry.Add` | internal/capability/registry.go:55-82 | Refuses a closed registry and a known identifier; otherwise installs, rebuilds the tree and takes the next revision. |
| `RegistryStores.CapabilityRegistry.Reinstall` | internal/capability/registry.go:84-104 | Replaces an installed generation by a fresh one, retires the old one, rebuilds the tree and takes the next revision, in this order. |
| `RegistryStores.CapabilityRegistry.Swap` | internal/capability/registry.go:98-100 | The entry changes hands: next generation in, old one retired. |
| `RegistryStores.CapabilityRegistry.Uninstall` | internal/capability/registry.go:106-121 | Removes the entry, retires its generation, rebuilds the tree and takes the next revision. |
| `RegistryStores.CapabilityRegistry.Remove` | internal/capability/registry.go:117-118 | Drops the entry and retires its generation. |
| `RegistryStores.CapabilityRegistry.Lookup` | internal/capability/registry.go:123-135 | Leases the generation installed under the identifier, or reports why not. |
| `RegistryStores.CapabilityRegistry.ResolveOperation` | internal/capability/registry.go:137-183 | Resolves operation and provider binding from one generation inside one locked region, as Registries.ResolvesExactly writes out, and leases that generation. |
| `RegistryStores.CapabilityRegistry.Close` | internal/capability/registry.go:362-378 | Retires everything installed and empties the node table, once. |
| `RegistryStores.CapabilityRegistry.RetireAll` | internal/capability/registry.go:372-376 | The loop retires every entry in any map order. |
| `RegistryStores.CapabilityRegistry.Browse` | internal/capability/registry.go:261-294 | An open registry shows the view of the trimmed path in the tree of what is installed, or that there is none. |
| `RegistryStores.SearchOperation` | internal/capability/registry.go:149-155 | The loop finds the first operation with the identifier, if any. |
| `RegistryStores.SearchBinding` | internal/capability/registry.go:161-167 | The loop finds the first provider binding with the identifier, if any. |
| `RegistryStores.CapabilityLease.Release` | internal/capability/registry.go:388-393 | Gives the generation back once; the last lease on a retired generation reclaims it. |
| `Reads.DropKeeps` | internal/capability/read.go:330-344 | Dropping any set of reads keeps tables inverse, counters equal to sums and every remaining object held. |
| `Reads.PrepareIsExact` | internal/capability/read.go:246-287 | With a live object and an offset inside the artifact a prepared chunk is the artifact range asked for; the only failure left is the size of the encoded response. |
| `Reads.SecondKeeps` | internal/capability/read.go:154-209 | After the second locked region the object taken in between belongs to the new lease or was given back: none leaks. |
| `Reads.CheckedAdvance` | internal/capability/read.go:227-243 | A continuation of a live lease never finds its artifact gone, and keeps artifact, object and creation time. |
| `Reads.CloseKeeps` | internal/capability/read.go:346-356 | Close drops every read and keeps the accounts. |
| `ReadLeaseStores.DropOneMore` | internal/capability/read.go:338-344 | Dropping reads one at a time, in any order, is dropping them together. |
| `ReadLeaseStores.ReadLeaseStore.Drop` | internal/capability/read.go:338-344 | Removes a read from both tables and both counters and releases its artifact lease. |
| `ReadLeaseStores.ReadLeaseStore.SweepLocked` | internal/capability/read.go:330-336 | The loop drops exactly the reads whose deadline has come, whatever the map order. |
| `ReadLeaseStores.ReadLeaseStore.ReadInitialFirst` | internal/capability/read.go:134-152 | Sweeps, then answers a known attempt by its committed response or a conflict. |
| `ReadLeaseStores.ReadLeaseStore.PrepareLocked` | internal/capability/read.go:246-287 | Computes chunk, completeness, continuation and deadlines, and refuses an oversized encoding without touching the lease. |
| `ReadLeaseStores.ReadLeaseStore.Decide` | internal/capability/read.go:179-204 | The checks of the second region in order: known attempt, three quotas, handle, chunk. |
| `ReadLeaseStores.ReadLeaseStore.ReadInitialSecond` | internal/capability/read.go:171-209 | Closed, known, over quota, without handle or unprepared: the object is released; otherwise it is entered with the lease. |
| `ReadLeaseStores.ReadLeaseStore.ReadContinuation` | internal/capability/read.go:212-244 | Checks bounds, then that capability and attempt are left out, then the handle, and only then enters the locked region. |
| `ReadLeaseStores.ReadLeaseStore.ContinueLocked` | internal/capability/read.go:220-244 | Compares handle and scope first, then replays the committed tuple, refuses a competing one, or advances the lease by one chunk, as ReadAnswers.StrangersAreStale and ContinuationAnswers write out. |
| `ReadLeaseStores.ReadLeaseStore.Close` | internal/capability/read.go:346-356 | Drops every read in any order and closes, once. |
| `Systems.StepKeeps` | internal/capability/read.go:98-356 | Every locked region of store, registry and read store, by any thread, keeps the joint invariant of all three. |
| `SystemRuns.EveryReachableStateIsSound` | internal/capability/read.go:134-209 | Under every interleaving attempts and reads are inverse, byte counters are sums over live leases, three quotas hold, every object reference is held by a read or a waiting thread, and a closed store holds none. |
| `SystemRuns.ContinuationIsExact` | internal/capability/read.go:212-244 | The next continuation of a live read is answered with the next bytes of the artifact it was accepted for, or refused for the response size only, whatever was uninstalled or closed in between. |
| `SystemRuns.ReadKeepsIdentity` | internal/capability/read.go:196-287 | A read keeps artifact, bytes and creation time for its whole life, and no deadline passes creation plus the absolute limit. |
| `SystemRuns.ChunksReassemble` | internal/capability/read.go:234-287 | The committed chunks of a read are consecutive, strictly advancing ranges that join to the artifact from the first offset on, complete exactly at its size. |
| `SystemRuns.ReplayIsExact` | internal/capability/read.go:234-239 | Until an advance, a close or the deadline that the response states, the committed tuple gets the identical response and a competing one a conflict, and neither changes the read. |
| `SystemRuns.InitialReplayIsExact` | internal/capability/read.go:142-150 | The same for the initial attempt. |
| `SystemRuns.RacingAttemptsShare` | internal/capability/read.go:171-186 | Two threads racing with one attempt share one lease: the later gives its object back and returns the response already committed. |
| `Ownership.OwnedExactlyWhenFresh` | internal/capability/registry.go:53-121 | An accepted install or reinstall leaves every generation with bytes of its own exactly when its record was fresh: stored, unreleased and nobody else's. |
| `Ownership.ReinstallInPlace` | internal/capability/registry.go:84-104 | Reinstalling the record already in place never leaves it its bytes, in any state; without a lease on the old generation its snapshot is gone at once. |
| `Ownership.ReinstalledInPlace` | internal/capability/registry.go:84-104 | One such reinstall, of a package just loaded and installed. |
| `Ownership.RegistryStepOwns` | internal/capability/registry.go:55-121 | Registry steps that install nothing, or a fresh record, keep the bytes of every unreleased generation in the store. |
| `OwnershipRuns.StepOwns` | internal/capability/registry.go:55-121 | Any locked region of store, registry or reads keeps every unreleased generation's bytes stored and its own exactly if it neither installs a record that is not fresh nor releases such a snapshot from outside. |
| `OwnershipRuns.RunOwns` | internal/capability/registry.go:55-121 | So over every careful run of installs, reinstalls, uninstalls, loads, reads and closes. |
| `OwnershipRuns.InitIsOwned` | internal/capability/registry.go:41-53 | The run begins so: a new store, registry and read store own all their bytes and leases. |
| `OwnershipRuns.StepKeepsLeases` | internal/capability/read.go:154-170 | Every thread between lookup and return keeps a registry lease of its own on the generation whose record it carries. |
| `OwnershipRuns.TakenExactlyWhenOffered` | internal/capability/read.go:154-170 | A thread past its lookup finds all bytes of its record in the store, and can take its artifact exactly if the record lists it with a matching entry. |
| `OwnershipRuns.AcquiredBytesAreInstalled` | internal/capability/read.go:154-170 | The bytes a read is accepted for are those its package was stored with; it is refused only for what its record says. |
| `OwnershipRuns.LookupSettlesBytes` | internal/capability/read.go:154-170 | The record installed at the lookup settles what an initial read gets, whatever is installed, reinstalled, uninstalled, loaded or read before it acquires. |
| `Ownership.InstalledIsReadable` | internal/capability/read.go:154-170 | While the bytes are owned, every artifact of an installed record reads as the content of its digest. |
| `SingleFlight.StepKeeps` | internal/hierarchy/hierarchy.go:618-677 | Every locked region, wait, cancellation, factory return, clean-up and closing step keeps the invariant of tables, loads, calls and client accounts. |
| `SingleFlight.OneFactoryCallPerServer` | internal/hierarchy/hierarchy.go:650-654 | Under every interleaving, also around Close, at most one factory call for a server is in flight. |
| `SingleFlight.StoredForGood` | internal/hierarchy/hierarchy.go:657-664 | The client of a server is stored at most once and never overwritten, and none is stored after Close. |
| `SingleFlight.EveryClientClosedOnce` | internal/hierarchy/hierarchy.go:842-861 | No client is closed twice or both closed and cleaned up; when all calls have returned and Close is through, every client a factory made was closed exactly once, by Close exactly if it was stored. |
| `SingleFlight.AnswersAreOwn` | internal/hierarchy/hierarchy.go:631-642 | A call returns a cancellation only if it is its own and it was cancelled; a returned client is the one client stored for its server. |
| `SingleFlight.RetriesAreBounded` | internal/hierarchy/hierarchy.go:638-640 | A waiter goes round the loop at most once for every cancelled call. |
| `ServerRegistries.ServerRegistry.Enters` | internal/hierarchy/hierarchy.go:618-652 | A new call takes its first turn of the loop. |
| `ServerRegistries.ServerRegistry.BeginTurn` | internal/hierarchy/hierarchy.go:618-652 | The first locked region answers, joins the listed load or starts the only one for the server, as SingleFlightAnswers.StoredClientIsReturned and EntersWithoutClient write out. |
| `ServerRegistries.ServerRegistry.AfterDone` | internal/hierarchy/hierarchy.go:631-642 | After a load is done: own context first, then another turn after a cancelled initiator, else the outcome of the load. |
| `ServerRegistries.ServerRegistry.Publishes` | internal/hierarchy/hierarchy.go:657-675 | The second locked region stores the client or records the error, unlists the load and hands a client that may not be kept to clean-up. |
| `ServerRegistries.ServerRegistry.Shuts` | internal/hierarchy/hierarchy.go:842-855 | The locked region of Close takes all clients and empties the tables, once. |
| `ServerRegistries.ServerRegistry.CloseTaken` | internal/hierarchy/hierarchy.go:857-861 | The loop closes each taken client exactly once, in any map order. |
| `ClientMutexes.ExclusiveBeforeClose` | internal/hierarchy/hierarchy.go:570-616 | As long as the registry has not closed, no two calls are at one provider at once. |
| `ClientMutexes.SharedExactlyOnOneSide` | internal/hierarchy/hierarchy.go:570-581 | Over every run two calls for one server share a mutex exactly if both fetched it before the first Close or both after it; further closes change nothing. |
| `ClientMutexes.MeetExactlyAcrossFirstClose` | internal/hierarchy/hierarchy.go:570-616 | In every reachable state two calls with mutexes for one server can come to use the provider at once if and only if exactly one of them fetched its mutex before the first Close. |
| `ClientMutexes.CloseBreaksExclusion` | internal/hierarchy/hierarchy.go:842-855 | One such run: a call after the first Close takes a new mutex while an older call still holds the old one. |
| `ClientMutexes.ClientMutex.LockContext` | internal/hierarchy/hierarchy.go:599-614 | Locks exactly if the context has not ended, and otherwise leaves the token as it was. |
| `EventQueues.CounterIsConserved` | internal/client/provider_events.go:71-113 | The counter plus the event being counted equals the bytes in the channel plus those taken but not discounted; counter and bytes stay between 0 and 16 MiB, the channel within 256 events. |
| `EventQueues.QuietCounterIsExact` | internal/client/provider_events.go:71-113 | With the lock free and no worker between receive and discount the counter is exactly the bytes in the channel. |
| `EventQueues.TakenInOrderAndStoppedOnce` | internal/client/provider_events.go:61-126 | Workers take exactly what was sent in order and pass each event on at most once; done closes and the overflow action runs at most once, the latter only with the former. |
| `EventQueues.ProviderEventQueue.TrySend` | internal/client/provider_events.go:79-95 | Takes a ready way out of the locked region: too big, sent, done, or full only when nothing is ready. |
| `EventQueues.ProviderEventQueue.CountSent` | internal/client/provider_events.go:87-89 | Counts the event after the send, under the lock held since the check. |
| `EventQueues.ProviderEventQueue.DiscountTaken` | internal/client/provider_events.go:104-107 | Discounts a received event and reads the handler under the lock. |
| `EventQueues.FirstFailureStands` | internal/client/provider_events.go:115-126 | The validation keeps the first failure for good; the overflow action never starts without one, and has started or is about to once a producer failed first. |
| `EventQueues.ProviderEventQueue.FailQueue` | internal/client/provider_events.go:115-126 | Fails the validation, which keeps its first failure, and only the first report stops the queue and starts the overflow action. |
| `EventQueues.ProviderEventQueue.FailValidation` | internal/client/json_validation.go:150-158 | Only the first failure is kept. |
| `EventQueues.ProviderEventQueue.StartOverflow` | internal/client/provider_events.go:120-125 | Only the first caller stops the queue and starts the overflow action. |
| `JsonScans.ParseTokens` | internal/client/json_validation.go:74-132 | Reading the tokens of a value gives back the value and what follows it. |
| `JsonScans.ParsedTokens` | internal/client/json_validation.go:74-132 | A value read off a stream is spelled by exactly the tokens consumed. |
| `JsonScans.ScanJSONValue` | internal/client/json_validation.go:74-132 | Accepts exactly if the stream begins with a value without repeated member names, within depth and node limits, and consumes exactly that value and counts its nodes; a refusal names a violation the value has. |
| `JsonScans.ScanMembers` | internal/client/json_validation.go:92-112 | The loop over the members of an object, with the names seen so far. |
| `JsonScans.ScanItems` | internal/client/json_validation.go:114-118 | The loop over the items of an array. |
| `JsonScans.RejectJSONMembers` | internal/client/json_validation.go:44-58 | Accepts exactly the messages that are the tokens of one acceptable value and nothing more; on a complete value the error kind is a violation that the value has. |
| `Frames.SpelledEventEnds` | internal/client/response_limit.go:90-129 | Non-blank lines and a blank line, under LF, CR and CR LF, are cut exactly behind the blank line. |
| `Frames.EventEndSpells` | internal/client/response_limit.go:90-129 | What is cut off as an event is non-blank lines and one blank line. |
| `Frames.AdvanceKeeps` | internal/client/response_limit.go:67-88 | Reading one more frame keeps the bytes handed out and pending a prefix of the stream, made of valid frames within the limit and at most one unterminated tail. |
| `Frames.FailureExplained` | internal/client/response_limit.go:67-88 | A failed read is explained by the bytes behind those handed out: end of stream, a frame over the limit, or an invalid frame. |
| `Frames.EndRepeats` | internal/client/response_limit.go:71-80 | Behind the last byte every further read reports the end of the stream again. |
| `Frames.SSEEventLimitedBody.ReadEvent` | internal/client/response_limit.go:90-129 | The byte loop yields the first event if it is within the limit and valid, the tail at the end of the stream unchecked, or the right error. |
| `Frames.SSEEventLimitedBody.Read` | internal/client/response_limit.go:67-88 | For any buffer and any number of reads: since the beginning, or since the last error, what is handed out continues a prefix of the stream made of valid frames, every read makes progress, and an error is explained by the bytes that follow. |
| `Frames.LfEndIsFirstLf` | internal/client/response_limit.go:269-291 | A line ends at the first LF. |
| `Frames.BoundedLineReader.ReadLine` | internal/client/response_limit.go:269-301 | The line is independent of how the read buffer cut it into fragments; the tail is checked too, and the limit is signalled at most once. |
| `Frames.BoundedLineReader.Read` | internal/client/response_limit.go:246-267 | As for events, for newline-terminated messages. |
| `Projections.PageIsRange` | internal/capability/describe.go:384-418 | A page is a range of skills, operations and references in this order, each item in its own section. |
| `Projections.PageProjection` | internal/capability/describe.go:384-418 | The walk over the three sections with a mutated offset and remainder computes that page. |
| `Projections.BoundedPage` | internal/capability/describe.go:356-378 | The loop returns the page with the largest number of items up to the limit whose encoding fits, or the quota error if none does. |
| `Projections.FollowingEnumerates` | internal/capability/describe.go:356-418 | Following cursors yields every skill, then every operation, then every reference, each once and in order. |
| `Projections.PagesAreMaximal` | internal/capability/describe.go:356-378 | Every page of the chain is non-empty and the largest prefix of what is left that fits both limits; only the last has no cursor. |
| `ProjectionStores.AccountsAreExact` | internal/capability/describe.go:284-323 | Over every run the byte counter is the sum over the retained projections, both quotas hold, and a closed store retains nothing. |
| `ProjectionStores.RetainedIffCursor` | internal/capability/describe.go:284-323 | A first page retains the projection exactly when it returns a cursor, which names the entry and the first item not shown; no failure retains anything. |
| `ProjectionStores.RetryGivesSamePage` | internal/capability/describe.go:325-354 | A cursor resubmitted later gives the same page, whatever other calls came in between, until its entry expires. |
| `ProjectionStores.ChaseEnumerates` | internal/capability/describe.go:325-354 | Following cursors through a store that others use gives the pages of the one frozen projection, in order and without gap. |
| `ProjectionStores.DescriptionIsWhole` | internal/capability/describe.go:284-354 | From the first request to the page without a cursor, whatever others do to the store in between: every skill, operation and reference of the projection, each once and in order. |
| `ProjectionStores.ProjectionStore.SweepLocked` | internal/capability/describe.go:480-487 | The loop drops exactly the expired entries, whatever the map order. |
| `ProjectionStores.ProjectionStore.FirstPage` | internal/capability/describe.go:284-323 | Whole page, quota, identifier, retain and roll back, as DescribeAnswers.FirstAnswers writes out, deadlines included. |
| `ProjectionStores.ProjectionStore.CursorPage` | internal/capability/describe.go:325-354 | Every refusal of a cursor in order; success extends the idle deadline only. |
| `ProjectionStores.ProjectionStore.Close` | internal/capability/describe.go:489-495 | Forgets everything and closes. |
| `Hierarchies.EnsurePath` | internal/capability/registry.go:299-316 | The loop adds exactly the missing prefixes of a path and the edges between them. |
| `Hierarchies.Rebuild` | internal/capability/registry.go:296-333 | Whatever order the maps are visited in, the nodes are the dotted prefixes of identifiers and parents, capabilities are marked, and children are the sorted one-segment extensions. |
| `Hierarchies.TreeIsUnique` | internal/capability/registry.go:296-333 | There is one such tree for an installed set. |
| `Hierarchies.NodesArePrefixes` | internal/capability/registry.go:296-333 | With parents that are prefixes, the nodes are exactly the dotted prefixes of installed identifiers. |
| `Hierarchies.DescentMeetsEachOnce` | internal/capability/registry.go:274-333 | Descending from the root meets every installed capability exactly once. |
| `Hierarchies.SiblingOrder` | internal/capability/registry.go:326-331 | Sorting siblings by whole path or by last segment is the same. |
| `Catalogs.BrowseLocked` | internal/capability/registry.go:274-294 | Shows whether a capability is installed at the path and lists the children of its node with the card of each installed one, or reports an unknown path. |
| `Catalogs.ParentsAreInstalled` | internal/capability/registry.go:318-324 | The installed paths are exactly the split identifiers, each with its declared parent. |
| `Catalogs.SearchShown` | internal/capability/search.go:132-218 | The loop turns the ranked matches into results with the cards of the records they were found in. |
| `Catalogs.CapabilityCard` | internal/capability/search.go:199-218 | The loop counts context artifacts and the resources of all skills. |
| `Catalogs.PageIsOfOneRevision` | internal/capability/catalog.go:55-105 | An answered page is of one open revision of the registry: its results are the search of what was installed, at most as many as asked for, its children a range of the child list of the path, and its cursor names that revision and the next child exactly if there is one. |
| `Catalogs.IdentifierGetsItsCard` | internal/capability/search.go:173-231 | A query that names an installed capability or operation is answered with the card of its owner alone, exactly if the path contains it. |
| `RegistryStores.CapabilityRegistry.SearchAndBrowse` | internal/capability/search.go:94-171 | Every refusal in order, then results and children from one locked region of one revision. |
| `CatalogStores.Catalog.Search` | internal/capability/catalog.go:55-105 | Child limit, cursor, search, range, next cursor and size, in order. |
| `Catalogs.MutationMakesStale` | internal/capability/catalog.go:64-79 | After any successful change of the installed set every earlier cursor is answered stale (or closed), never from the new tree. |
| `Catalogs.ChaseStaysOnOneTree` | internal/capability/catalog.go:55-105 | Pages that succeed, with other registry calls in between, are of one revision: they show the same results and join to one range of the child list of one tree. |
| `Catalogs.PagesJoinToChildList` | internal/capability/catalog.go:55-105 | From a request without a cursor to a page without one, the pages join to the whole child list without gap or repeat, and each shows the results of the search of that same revision. |
| `Searches.LexicalSearchScore` | internal/capability/search.go:314-342 | The loops compute the integer formula over shared and total token bytes. |
| `Searches.ScoreRange` | internal/capability/search.go:314-334 | A score is at most 1,000,000, and reaches it exactly for equal token sets of ten bytes or more. |
| `Searches.BestLexicalMatch` | internal/capability/search.go:291-312 | The loop returns the first field that no other beats, or nothing if all score below 375,000. |
| `Searches.MatchExactly` | internal/capability/search.go:222-253 | The exact tests, each list searched by a loop: identifiers, then names, tags, local operations and skills; an installed identifier stops after the first two. |
| `Searches.MatchCapability` | internal/capability/search.go:220-274 | An exact match if there is one, else the first lexical one of capability, operations and skills; an installed identifier gets no lexical match. |
| `Searches.MatchScoreRange` | internal/capability/search.go:220-312 | Every match scores between 375,000 and 1,000,000. |
| `Searches.HasExactSearchIdentifier` | internal/capability/search.go:173-188 | The loops find out whether the query is an installed or qualified identifier. |
| `Searches.SearchCapabilities` | internal/capability/search.go:132-171 | Collected in any map order, the sorted and cut list is the ranking of the installed set, whose order and contents SearchAnswers.ResultsAreRanked and ResultsAreMatches write out. |
| `Searches.RefuseRequest` | internal/capability/search.go:95-115 | Refuses limits, long queries and long or misshapen paths, in this order. |
| `Searches.AcceptedQueryIsSmall` | internal/capability/search.go:369-378 | The byte limit on a query bounds the bytes that its scores divide by, and no more results come than were asked for. |
| `Searches.NormalizeSearchText` | internal/capability/search.go:380-389 | The folded text, the distinct tokens of the trimmed text, and their bytes with repeats and separators. |
| `Searches.SmallerLimitIsPrefix` | internal/capability/search.go:164-166 | A smaller limit gives a prefix of what a larger one gives. |
| `Searches.ResultsAreTheBest` | internal/capability/search.go:154-166 | Each match is shown or ranks behind everything shown, in the order that SearchAnswers.NotShownIsNoBetter writes out. |
| `Searches.IdentifierFindsItsOwner` | internal/capability/search.go:173-231 | A query equal to an installed or qualified identifier finds that capability alone, with the exact score, exactly if the path contains it. |
| `Tokenizers.TokenizeSearchText` | internal/capability/search.go:395-437 | The loop finds pieces that cover every letter and number once and in order, folds them into a list and a set of tokens, and counts their UTF-8 bytes with separators. |
| `Tokenizers.TokensHaveBytes` | internal/capability/search.go:405-412 | No token is empty, so every token has a byte: the score never divides by zero. |
| `Tokenizers.PiecesAreMaximalRuns` | internal/capability/search.go:395-446 | The pieces are exactly the maximal runs of word characters without a case break, GitHub and GitLab kept whole. |
| `Tokenizers.CoveringIsUnique` | internal/capability/search.go:395-437 | The pieces are determined by the text. |
| `SnapshotStores.SnapshotStore.Begin` | internal/capability/snapshot.go:61-63 | Opens a transaction under a fresh identity with nothing reserved or staged. |
| `SnapshotStores.SnapshotStore.Stats` | internal/capability/snapshot.go:284-294 | Reports the counters as they are. |
| `SnapshotStores.StagingTransaction.StagedCopy` | internal/capability/snapshot.go:117-123 | Returns a copy of the bytes staged under the name, if any. |
| `SnapshotStores.StagingTransaction.Wipe` | internal/capability/snapshot.go:134-137 | Zeroes every staged array in any map order. |
| `SnapshotStores.StagingTransaction.PublishAll` | internal/capability/snapshot.go:161-174 | Within the quota: every array becomes an object or is zeroed, the reservation is given back and one snapshot is made. |
| `Loaders.StageManifest` | internal/capability/loader.go:108-135 | Succeeds exactly if the manifest opens, is at most one MiB, has room, delivers its declared size, closes, parses from the staged bytes and names the directory. |
| `Loaders.StagePackage` | internal/capability/loader.go:108-182 | All stages before the commit, in order; succeeds exactly if the content loads, and leaves every file staged in full and the package accepted. |
| `Loaders.Commits` | internal/capability/loader.go:183-188 | Commits exactly if the quota test passes; otherwise the commit error, with the reservation given back. |
| `RegistryStores.CapabilityRegistry.Take` | internal/capability/registry.go:123-135 | One more reference and one more lease on the generation. |
| `ReadLeaseStores.ReadLeaseStore.Forget` | internal/capability/read.go:338-343 | Takes the read out of both tables and both counters. |
| `ReadLeaseStores.ReadLeaseStore.Refuse` | internal/capability/read.go:173-176 | Gives back the artifact lease of an attempt that became no read. |
| `ReadLeaseStores.ReadLeaseStore.Install` | internal/capability/read.go:205-209 | Enters the lease, its object and its attempt, and adds to both counters. |
| `ReadLeaseStores.ReadLeaseStore.Replace` | internal/capability/read.go:279-285 | Overwrites replay slot and deadlines of one live read only. |
| `ReadLeaseStores.ReadLeaseStore.Answered` | internal/capability/read.go:142-150 | Answers a known attempt: the committed response for the committed tuple, else a conflict. |
| `ReadLeaseStores.ReadLeaseStore.Enter` | internal/capability/read.go:176-209 | The second region in the swept store: every refusal gives the object back, success enters it. |
| `ServerRegistries.ServerRegistry.Launches` | internal/hierarchy/hierarchy.go:650-652 | Lists a new unfinished load for the server. |
| `ServerRegistries.ServerRegistry.Settles` | internal/hierarchy/hierarchy.go:663-668 | Fills the load, unlists it and marks it done. |
| `ServerRegistries.ServerRegistry.Stores` | internal/hierarchy/hierarchy.go:661-664 | Enters the client under its server. |
| `ServerRegistries.ProviderLoad.Fill` | internal/hierarchy/hierarchy.go:661-668 | Client, error and flag say what the outcome says. |
| `EventQueues.ProviderEventQueue.Take` | internal/client/provider_events.go:103-103 | Receives the oldest event, also while a producer holds the lock. |
| `EventQueues.ProviderEventQueue.StopQueue` | internal/client/provider_events.go:61-63 | Closes done at most once. |
| `JsonScans.ScanState.AddNode` | internal/client/json_validation.go:66-72 | Counts first and compares then. |
| `Frames.CopyOut` | internal/client/response_limit.go:85-87 | Copies as much as fits and leaves the rest of the buffer alone. |
| `Frames.SSEEventLimitedBody.Refill` | internal/client/response_limit.go:71-83 | Refills from the next event, returns the pending error, or fails with an explained one. |
| `Frames.BoundedLineReader.ReadSlice` | internal/client/response_limit.go:272-272 | A fragment up to an LF, a full buffer, or the end of the stream. |
| `Frames.BoundedLineReader.Refill` | internal/client/response_limit.go:250-262 | As for events. |
| `Projections.CopySection` | internal/capability/describe.go:392-408 | One section of the walk: the part of the section in the page, and where the walk then is. |
| `ProjectionStores.NextIsBounded` | internal/capability/describe.go:325-354 | A page fetched by cursor is a function of the frozen projection, the offset and the limit. |
| `Hierarchies.EnsureAll` | internal/capability/registry.go:318-324 | Visiting the capabilities in any order makes the same nodes, marks and edges. |
| `Hierarchies.JoinSplit` | internal/capability/registry.go:303-306 | Splitting a dotted path and joining its segments gives the path back. |
| `Searches.TokenBytes` | internal/capability/search.go:336-342 | The loop adds up the bytes of a token set in any order. |
| `Searches.BestMatch` | internal/capability/search.go:291-312 | The best lexical match is determined by query and fields. |
| `Tokenizers.Flush` | internal/capability/search.go:402-415 | Closes the open piece: it is maximal, and its folded text is counted and appended unless empty. |
| `SnapshotAnswers.ReservesExactly` | internal/capability/snapshot.go:65-85 | A reservation is accepted exactly if it is not negative, the package stays within 64 MiB, and both limits have room beside all reservations and stored objects; each refusal has its own condition, and the accepted bytes are added to what is reserved. |
| `SnapshotAnswers.StagesExactly` | internal/capability/snapshot.go:87-115 | A file is staged exactly if its name is new and its reader delivers precisely the declared bytes within the maximum; growing, shrinking and failing readers get their own errors, and growth is noticed before a failure behind it. |
| `SnapshotAnswers.CommitsExactly` | internal/capability/snapshot.go:140-175 | A commit succeeds exactly if stored bytes and fresh content are within the limit; it then holds every staged name under the digest of its bytes, and otherwise changes no object. |
| `SnapshotAnswers.AcquiresExactly` | internal/capability/snapshot.go:192-219 | An artifact of an unreleased snapshot is taken exactly if size and digest are those of the content stored under its name, and reading the name gives that content. |
| `SnapshotAnswers.RangesExactly` | internal/capability/snapshot.go:221-236 | A range read gives as many bytes as asked for or as are left for every offset up to the end, also where the sum would overflow, and nothing for any other offset. |
| `SnapshotAnswers.LimitsAlwaysHold` | internal/capability/snapshot.go:61-175 | Over every run of every caller, disciplined or not, the stored bytes never pass the store limit and the reservations never the staging limit. |
| `Registries.AnswersFollowWhatIsShown` | internal/capability/registry.go:55-135 | Adding, reinstalling, uninstalling and looking up are refused exactly for a closed registry and for an identifier that is, or is not, installed; a lookup answers with the installed generation. |
| `Registries.ResolvesExactly` | internal/capability/registry.go:137-183 | Resolving returns the installed generation, the first operation with the identifier and the first binding with the identifier of that operation's provider; each of the four errors is given exactly under its own condition. |
| `ReadAnswers.StrangersAreStale` | internal/capability/read.go:212-233 | In every reachable open state a sound continuation is answered stale exactly if its handle is not live, its deadline has come or another scope began the read, whatever its offset and size, and no lease changes. |
| `ReadAnswers.ContinuationAnswers` | internal/capability/read.go:212-287 | What the owner is answered in every reachable state: the committed tuple its response, the next offset the next chunk (written out, with deadline, type, reference and digest) or the quota error exactly if its encoding passes 128 KiB, anything else a conflict; and exactly how the leases change. |
| `ReadAnswers.UnsoundIsRefused` | internal/capability/read.go:108-125 | A continuation that is out of range, or carries a capability or an attempt, is an invalid request, and otherwise one without a well-formed handle an invalid continuation, before anything is looked at. |
| `ReadAnswers.PreparesExactly` | internal/capability/read.go:246-287 | The chunk prepared from any offset inside the artifact: the rest with the final deadline if it fits, or else as much as asked for with a handle and the idle deadline, neither past the absolute limit; refused exactly for an encoding over 128 KiB. |
| `ReadAnswers.FirstAnswers` | internal/capability/read.go:134-152 | The first region of an initial read answers exactly when closed or when a live read was made by the same attempt, and drops exactly the reads whose deadline has come. |
| `ReadAnswers.StartsExactly` | internal/capability/read.go:98-152 | A thread goes on to its lookup exactly if its request is sound, the store is open and the attempt is not known. |
| `ReadAnswers.ReturnsExactly` | internal/capability/read.go:154-170 | A manifest is answered stale, an offset behind the end invalid, and everything else goes on with its artifact. |
| `ReadAnswers.SecondAnswers` | internal/capability/read.go:171-209 | The second region for every thread that holds its artifact: a known attempt shares the answer, three quotas over the live reads, handle and size are refused in this order, and otherwise the first chunk of a new read is committed. |
| `DescribeAnswers.FirstAnswers` | internal/capability/describe.go:284-323 | A first page: whole if it fits, refused for room, identifier or size in this order, otherwise retained from now on with idle and absolute deadline; nothing else is kept but what has not expired. |
| `DescribeAnswers.NextAnswers` | internal/capability/describe.go:325-354 | A cursor is invalid unless sound, refused after Close, stale exactly if its entry is gone or past a deadline, and otherwise served from its own projection with the idle time counted anew. |
| `DescribeAnswers.FirstCursorIsGood` | internal/capability/describe.go:284-354 | The cursor of a first page is served until the idle or the absolute time is over, whatever other calls come in between. |
| `DescribeAnswers.ServedCursorIsGood` | internal/capability/describe.go:325-354 | A page served makes the cursors of its entry good for the idle time from then on, up to the absolute limit. |
| `DescribeAnswers.PromptDescriptionLasts` | internal/capability/describe.go:284-354 | A caller that asks for each page in time gets the whole description. |
| `DescribeAnswers.EveryPageHasTheHead` | internal/capability/describe.go:384-391 | Every page of a description carries the head of the projection. |
| `SingleFlightAnswers.StoredClientIsReturned` | internal/hierarchy/hierarchy.go:625-629 | In every reachable open state a call for a server with a stored client returns exactly that client. |
| `SingleFlightAnswers.EntersWithoutClient` | internal/hierarchy/hierarchy.go:618-652 | Any other call is refused exactly after Close, waits exactly for a listed load, fails exactly without a configuration, and otherwise starts the load. |
| `SingleFlightAnswers.PublishedForAll` | internal/hierarchy/hierarchy.go:657-675 | A client published on an open registry is what its own call returns and what its waiters get; on a closed one both get the error and the client goes to clean-up; a factory's error is passed on. |
| `SingleFlightAnswers.WaiterGetsOutcome` | internal/hierarchy/hierarchy.go:631-642 | A waiter returns its own cancellation, goes round again exactly after a cancelled initiator, and otherwise returns what the load ended with. |
| `SingleFlightAnswers.ErrorsHaveReasons` | internal/hierarchy/hierarchy.go:618-677 | Over every interleaving, closed is returned only after Close, a missing configuration only for a server without one, and a provider's failure only if a factory for that server failed so. |
| `EventQueues.EventIsSettled` | internal/client/provider_events.go:71-96 | An event is sent only within 16 MiB and 256 events; one that is too big or meets a full channel is not sent and leaves an overflow to report; one that meets the stopped queue is dropped. |
| `EventQueues.WayOut` | internal/client/provider_events.go:79-95 | The locked region always has a way out, and until the queue stops only one: refused, sent, or full. |
| `EventQueues.RefusedEventStopsQueue` | internal/client/provider_events.go:79-126 | However a run goes on after a refused event, its overflow is still to be reported, on its way, or the validation has failed and the queue is stopped for good. |
| `EventQueues.HandlerMissesNothing` | internal/client/provider_events.go:104-110 | As long as a handler is set no event is ignored. |
| `EventQueues.NobodyHandles` | internal/client/provider_events.go:104-110 | Before one is set no event is handled. |
| `Orders.LessExactly` | internal/capability/search.go:162-162 | Which of two strings is less is decided where they first differ, or where the shorter one ends. |
| `Hierarchies.SegmentsHaveNoDot` | internal/capability/registry.go:303-306 | No segment of a split path holds a dot, so with the round trip a path is cut at every dot and nowhere else. |
| `SearchAnswers.ResultsAreRanked` | internal/capability/search.go:154-166 | Of two results the earlier one has the lower tier, or the same tier and the higher score, or both the same and the identifier that is less. |
| `SearchAnswers.NotShownIsNoBetter` | internal/capability/search.go:154-166 | If a match is not shown, as many results as asked for are, and every one of them ranks before it by tier, score and identifier. |
| `SearchAnswers.ResultsAreMatches` | internal/capability/search.go:132-171 | A result is an installed capability at or below the path with what makes it match; none is shown twice, and an empty query finds nothing. |
| `SearchAnswers.InPathExactly` | internal/capability/search.go:195-197 | A capability lies below a path exactly if the segments of the path are the first ones of its identifier. |
| `SearchAnswers.ScoreWeighs` | internal/capability/search.go:314-334 | Half a million for the shared part of the query, a quarter of a million for that of the field, each rounded down, and 25,000 for each shared byte up to ten; nothing without a shared byte. |
| `SearchAnswers.MatchesExactly` | internal/capability/search.go:220-312 | A capability matches exactly if one of nine ways works that the query allows, and then by the first of them, with its tier, and with the highest score among the texts that this way looks at. |
| `SearchAnswers.NameBeforeDescription` | internal/capability/search.go:291-312 | A description counts only if it beats the name. |
| `SearchAnswers.FirstSkillCounts` | internal/capability/search.go:259-274 | Of skills that score the same the first counts, its name before its description. |
| `SearchAnswers.QualifiedExactly` | internal/capability/search.go:173-188 | A query is an identifier exactly if something installed has it, compared folded and trimmed. |
| `TokenAnswers.SeparatedTokens` | internal/capability/search.go:395-437 | The tokens of two texts with a separator between them are those of the one and then those of the other. |
| `TokenAnswers.PlainWordIsOneToken` | internal/capability/search.go:395-437 | A word without a capital inside, and a word all in capitals, is one token. |
| `TokenAnswers.CamelCaseIsCut` | internal/capability/search.go:424-446 | Camel case is cut in front of the capital unless that is inside a product name. |
| `TokenAnswers.AcronymIsCut` | internal/capability/search.go:424-431 | Capitals in front of a capitalized word are cut off from it. |
| `TokenAnswers.ProductsStayWhole` | internal/capability/search.go:439-446 | GitHub and GitLab are one token. |
| `TokenAnswers.SizeOfText` | internal/capability/search.go:336-342 | ASCII text, and only that, has as many bytes as characters; no character has more than four. |
| `CatalogAnswers.CardShows` | internal/capability/search.go:199-218 | A card shows identifier, name, version, description, parent and tags of its record and counts its skills, operations and references. |
| `CatalogAnswers.SearchSeesRecord` | internal/capability/search.go:220-274 | What a search compares with are the names, descriptions, tags and identifiers of the record, in their order. |
| `CatalogAnswers.ResultsAreRankedCards` | internal/capability/search.go:132-218 | The results of a page are cards of installed capabilities below the path that match, each with kind, field and score of its match, none twice, and ranked by tier, score and identifier. |
| `CatalogAnswers.ViewIsExact` | internal/capability/registry.go:274-294 | A path has a view exactly if an installed identifier or declared parent begins with it; the view lists exactly the next segments, each once and ascending, each entry showing what is installed there. |
| `CatalogAnswers.RefusedExactly` | internal/capability/search.go:95-115 | A search request is refused exactly if it has a fault (limit outside 1 to 100, more than 4096 bytes as text or as the line of its tokens, more than 256 bytes of path, a path that is no identifier), and for the first one it has. |
| `CatalogAnswers.CurrentAnswers` | internal/capability/catalog.go:55-105 | Against an open registry of the cursor's revision every sound request is answered with the page written out, unless the path is unknown, the cursor lies behind the children or the page passes one MiB. |
| `CatalogAnswers.OthersAreRefused` | internal/capability/catalog.go:55-105 | Every other request is refused for its child limit, its cursor, its search, the closed registry or the stale revision, in this order. |

## Left out

- Stored objects and read leases are values in the maps of their stores, not objects of their own
  that a pointer could alias; artifact leases, snapshots, transactions, generations and provider
  loads are objects.
- The lock of the snapshot store is taken inside the locked regions of the read store; such a nested
  region is one atomic step.
- Systems.StepKeeps: one step covers a whole locked region, so memory-model effects inside a region
  and of unlocked reads are not modelled.
- Reservation sums are unbounded integers: 64-bit wrap-around in `reserve` is not modelled; the
  range read, which guards against it, is.
- Loaders.LoadAll: loads one package at a time; LoadRuns covers other users in between. The final
  sort is an insertion sort.
- Loaders.Load: package and path names, file opening and the content checks of a staged package are
  inputs; the record's descriptive fields are not built.
- ServerRegistries.ServerRegistry.BeginTurn: the loop of `GetOrLoadServer` appears as its locked
  regions and waits, which other calls interleave, not as one method.
- A load is named by the call that started it, which the program identifies by a pointer.
- JsonScans.RejectJSONMembers: works on the decoder's tokens; characters, escapes and the decoder's
  own syntax errors are one unreadable tail.
- Message validation is an arbitrary predicate on a frame's bytes, without its side records. Closing
  the body after a failure is foreign: reading goes on with what the stream still holds.
- The whole-body reader of non-streaming responses is not part of this model; it reads and checks
  everything before its first byte.
- Describe requests are modelled after their bounds and include lists are checked, and projections
  after they are built.
- Query and path text that is not valid UTF-8, which the program refuses, is not a string here.
- Legacy tool-path resolution, statistics of the other stores, and constructors that only check
  arguments would add easy members.
- File systems, processes, HTTP, the MCP transports, configuration, logging and YAML are foreign.
