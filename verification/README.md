# Verified models of the rollout engine, the pet store, the load balancer pool, emergency stop and the network scan

Dafny models of five parts of the repository, with proofs of what they promise and, where a
promise does not hold, of exactly when it does. `dafny verify dfyconfig.toml` checks everything.

| part | files |
|---|---|
| Pet store: calendar arithmetic, the three indexes and the birthday tree, the object that holds them, its handlers beside each other, search | `Calendar`, `PetIndex`, `BirthdayTree`, `PetStore`, `MemData`, `PetHandlers`, `PetSearch`, `PetValidation` |
| Kubernetes controller that reconciles a pet resource with the store | `PetController` |
| Load balancer pool: lists and health rounds, races between transitions, request weights | `Pool`, `PoolRaces`, `PoolWeights` |
| Rollout: precondition, action chain, launcher with semaphore and cut-off, status and retry | `Precondition`, `Actions`, `Rollout`, `Retry` |
| Emergency stop: subscriptions in small steps, what they promise, for which files, and the reader object | `EmergencyStop`, `EsPromise`, `EsFiles`, `EsReader` |
| Network scan, and the header of the log | `HostRange`, `ScanPipeline`, `LogHeader` |
| Shared: trimming, counting | `Text`, `Counts` |

Objects that change in place are classes (`MemData.Data`, `Pool.P2C`, `Actions.Actions`,
`EsReader.Reader`, `PetController.PetResource`) and loops are methods with invariants, each
proved against a function on values; the properties are lemmas about those functions.
Concurrent code (the rollout, the health transitions, the requests, the store's handlers, the
scan, the subscriptions) is a relation of small steps, and its properties hold for every interleaving.
The outside world (files, SSH, HTTP, health checks, pings, the network between controller and
store, the order of map ranges) is an argument that a lemma ranges over.

The main results:

- **Rollout.** Without its precondition Run touches nothing, and with it it goes ahead
  (`Rollout.PreconditionGates`). From a passed precondition, and as long as no round of health
  checks changes two backends at once, at most MaxFailures + Concurrency configured backends are
  ever out of the pool (`Rollout.RolloutKeepsCapacity`); success means that every action ran once
  and that the reported failures are the counted ones (`Rollout.SuccessAccounts`); Run returns
  (`Rollout.RunReturns`), with success if nothing fails (`Rollout.OkayRunsSucceed`); the
  precondition is a bijection between configuration and pool (`Precondition.CheckIsBijection`).
- **Search.** No live matching pet is ever lost or sent twice, in any run
  (`PetSearch.NoLostResults`), nor in any interleaving of handlers
  (`PetHandlers.NoLostResultsUnderLock`). Counting is filtering exactly when the indexes agree
  (`PetSearch.ExactIffIndexesAgree`) and exactly for filters that repeat no value
  (`PetSearch.ExactOnEveryStoreIff`).
- **Pool.** Taken one at a time, the transitions of a round move each backend to where its check
  says (`Pool.HealthRound`); interleaved, they do under every schedule exactly when at most one
  backend changes (`PoolRaces.RoundIsSafeIff`), and no single round panics
  (`PoolRaces.NoPanicInOneRound`). Weights are the requests in flight
  (`PoolWeights.WeightIsInFlight`).
- **Emergency stop.** Every subscriber sees Go, Stop, closed in that order
  (`EmergencyStop.SubscriberStreams`). The subscribers of a name are told of every change exactly
  when each registration finds it on go in the file being applied or still to be stopped
  (`EsPromise.RunKeepsPromiseIff`, `EsPromise.LiveSubscribersAreOnGo`), which every run does exactly
  when no read takes the name off go (`EsFiles.EveryRunCoversIff`); and no subscriber of a name that
  every file has on go is ever stopped (`EsFiles.GoIsNeverStopped`). A failed load is got over
  exactly when no name is in the map (`EsPromise.FailedLoadEndsIff`).
- **Store.** A request that succeeds stores its batch, or takes out its ids, and leaves every other
  pet alone (`PetStore.DoneMeansStored`, `PetHandlers.WriteStores`).
- **Controller.** A pass succeeds exactly when its calls get through, the reply arrives and the name
  is not blank, and then the pet is stored as the spec says (`PetController.PassSucceedsIff`). A
  second pass changes nothing exactly under a condition on name, replies and status
  (`PetController.SecondPassChangesNothingIff`). On every store a pass adds a pet exactly
  when no item that arrives carries the id of the status (`PetController.AddsIffNothingFound`).
- **Handlers.** An update finds its pets stored when it writes exactly when no delete beside it
  names one (`PetHandlers.UpdatesWriteStoredIdsIff`), and a change past its check can be made
  exactly when no read lock is or will be leaked (`PetHandlers.CanBeMadeIff`).
- **Scan and log.** Every host of a prefix is listed exactly when the host bits are zero
  (`HostRange.ListsEveryHostIff`) and printed once with the right record
  (`ScanPipeline.ScanOfPrefix`), and a log
  header reads back (`LogHeader.HeaderParsesBack`).

Where the code differs from its documentation or from what a caller would expect, the model
follows the code:

- `AddPets` and `UpdatePets` return an error with the read lock held, and a search by some criterion
  that selects three pets or more may keep it when the server stops reading, blocked on a send that
  does not watch its context: the next writer, and then everyone, waits for ever
  (`PetHandlers.LeakFreezes`). Changes write some time after their check, so an update may bring a
  deleted pet back (`PetHandlers.UpdateRevivesDeleted`).
- `UpdatePets` leaves index entries under old keys, and repeated filter values count twice
  (`PetSearch.RenamedPetIsStillFound`, `PetSearch.ExactOnEveryStoreIff`).
- For a stale entry with no live pet the server sends a nil item. What becomes of it is up to the
  codec, which is not part of this model, so both cases are. If it arrives as an empty item, the
  controller takes it for the pet of a resource without an id and does not create that pet
  (`PetController.CreatesIffNoEmptyItem`). If the codec refuses it, the stream ends there, which is
  only logged, and a resource whose pet comes later gets another one
  (`PetController.AddsAnotherIff`). `PetController.RenameThenDeleteLeavesStale` shows such an entry.
- A broken search stream and a name with outer white space each make the controller add another
  pet (`PetController.SecondPassChangesNothingIff`).
- Health transitions of one round share the lists without a lock: whenever two backends change,
  one can be lost, and one can end up in both lists, which makes the next round panic
  (`PoolRaces.RaceLosesBackend`, `PoolRaces.RaceLeadsToPanic`). `Add` overlooks the sick list
  (`PoolWeights.RecoveryPanicsIffSickDuplicate`).
- The documentation of `Subscribe` asks for a Cancel after a Stop, which panics for the last
  subscriber (`EmergencyStop.CancelAfterStopPanics`). A failed load is meant to stop all work,
  but takes its mutex twice and stops nobody (`EsPromise.FailedLoadEndsIff`,
  `EsPromise.TrappedMeansNoStop`). Subscribe looks at the old entries, before it takes the mutex,
  and can miss a stop in two ways (`EsFiles.OffMayMiss`, `EsFiles.SubscribeDuringPass`,
  `EsPromise.UncoveredIsMissed`). A file that cannot be opened changes nothing when no name is in the
  map: entries stay on go (`EsFiles.FailedOpenChangesNothing`).
- The documentation of `load` calls any error a file that could not be read, yet invalid rules
  are skipped, and the trimmed name of a rule is dropped: it is kept as written (`EsReader.ReadFile`).
- A failed action never records the state it failed in, so a retry starts over
  (`Actions.Actions.Run`); `RetryFailed` shares its loop variable (Go 1.21) and never shortens
  the list of failures (`Retry.RetriesAreSafeIffNone`, `Retry.RetryNeverClearsFailures`).

## Model

| member | source | states |
|---|---|---|
| `Calendar.AcceptsExactlyRealDates` | kubernetes/petstore-operator/petstore/server/storage/storage.go:65-78 | BirthdayToTime accepts a date if and only if its month and day exist in that year, leap years included (section 5.7 and Appendix C of RFC 3339), and then returns its day number |
| `Calendar.OverflowMovesOneMonth` | kubernetes/petstore-operator/petstore/server/storage/storage.go:69-76 | a day of at most 31 past the end of its month always reads back as the next month, so comparing months alone is enough |
| `Calendar.RealDateRoundTrip` | kubernetes/petstore-operator/petstore/server/storage/storage.go:72-74 | the year and month read back from the time of a real date are its own |
| `Calendar.YearOfBounds` | kubernetes/petstore-operator/petstore/server/storage/storage.go:72-74 | cutting a day number into 400-, 100-, 4- and 1-year cycles finds the year whose days contain it, for every day number |
| `Calendar.TimeOrderIsDateOrder` | kubernetes/petstore-operator/petstore/server/storage/mem/mem.go:39-47 | on accepted dates, Before and Equal of the times are lexicographic order and equality of (year, month, day) |
| `Calendar.RefusedSortsAsZeroTime` | kubernetes/petstore-operator/petstore/server/storage/mem/mem.go:39-40 | the comparators drop the error of a refused date and take it for the zero time, the first day of year 1 |
| `BirthdayTree.ComparatorsAreDateOrder` | kubernetes/petstore-operator/petstore/server/storage/mem/mem.go:27-80 | on one-date buckets both comparators give the same total order, which is date order |
| `BirthdayTree.CompareBuckets` | kubernetes/petstore-operator/petstore/server/storage/mem/mem.go:27-49 | whichever pet either range loop stops at, the result is the order of the two buckets' dates |
| `BirthdayTree.CompareGet` | kubernetes/petstore-operator/petstore/server/storage/mem/mem.go:57-80 | whichever pet the range loop stops at, the result is the order of the birthday against the bucket's date |
| `BirthdayTree.Find` | kubernetes/petstore-operator/petstore/server/storage/mem/mem.go:174-175 | on a strictly ordered tree of non-empty one-date buckets, the lookup finds the bucket of the date if there is one and otherwise the place it belongs; no comparator meets an empty bucket |
| `BirthdayTree.Insert` | kubernetes/petstore-operator/petstore/server/storage/mem/mem.go:27-49 | inserting by the comparator of buckets keeps the tree strictly date-ordered and adds exactly that bucket |
| `BirthdayTree.Place` | kubernetes/petstore-operator/petstore/server/storage/mem/mem.go:174-179 | filing a pet keeps the tree strictly date-ordered with non-empty one-date buckets, and changes the tree-as-an-index exactly as the map indexes change |
| `BirthdayTree.Unplace` | kubernetes/petstore-operator/petstore/server/storage/mem/mem.go:215-222 | taking a pet out keeps the same tree invariant; a bucket of one pet leaves the tree before it is emptied |
| `PetIndex.PutCovers` | kubernetes/petstore-operator/petstore/server/storage/mem/mem.go:159-179 | filing a pet keeps: no empty bucket, every entry under its own key and id, every live pet under its current key |
| `PetIndex.DropCovers` | kubernetes/petstore-operator/petstore/server/storage/mem/mem.go:200-222 | so does deleting a pet, even from an index with stale entries |
| `PetIndex.PutAgreesIffKeyKept` | kubernetes/petstore-operator/petstore/server/storage/mem/mem.go:137-181 | filing keeps an index equal to the live pets if and only if the pet is new or keeps that index's key |
| `PetIndex.DropAgrees` | kubernetes/petstore-operator/petstore/server/storage/mem/mem.go:195-223 | deleting keeps an index equal to the live pets |
| `PetStore.EveryRunInv` | kubernetes/petstore-operator/petstore/server/storage/mem/mem.go:154-225 | every run of write-locked sections from the empty store, updates that change keys included, keeps the covering invariant of all indexes |
| `PetStore.PutPetAgreesIffKeysKept` | kubernetes/petstore-operator/petstore/server/storage/mem/mem.go:137-181 | one turn of populate keeps all indexes in agreement if and only if the pet is new or keeps name, type and day |
| `PetStore.PopulateAgrees` | kubernetes/petstore-operator/petstore/server/storage/mem/mem.go:154-181 | a batch of distinct pets that are new or keep their keys keeps all indexes in agreement |
| `PetStore.EraseAgrees` | kubernetes/petstore-operator/petstore/server/storage/mem/mem.go:195-223 | deleting any ids, unknown or repeated ones included, keeps all indexes in agreement |
| `PetStore.KeyKeepingRunsAgree` | kubernetes/petstore-operator/petstore/server/storage/mem/mem.go:111-225 | in every run whose batches keep keys, each index holds exactly the live pets |
| `PetStore.FirstBad` | kubernetes/petstore-operator/petstore/server/storage/mem/mem.go:122-126 | the id check stops at the first pet whose presence is not the one wanted, and only there |
| `PetStore.DoneIffAccepted` | kubernetes/petstore-operator/petstore/server/storage/mem/mem.go:111-152 | for requests served one at a time: a request succeeds if and only if the lock is free and every id is absent (add) or present (update); otherwise the store is unchanged and the lock is left unusable |
| `PetStore.DoneMeansStored` | kubernetes/petstore-operator/petstore/server/storage/mem/mem.go:111-225 | a request that succeeds has stored of each id the last pet of its batch, whatever was there before, or has taken out exactly the pets it names, and leaves every other pet as it was |
| `PetStore.RejectionNamesFirst` | kubernetes/petstore-operator/petstore/server/storage/mem/mem.go:120-144 | a rejection names the first pet of the batch that is present and should not be, or the reverse, and leaves only the lock changed |
| `PetStore.RejectionFreezesStore` | kubernetes/petstore-operator/petstore/server/storage/mem/mem.go:120-151 | the error return under RLock leaks the read lock: after one rejected batch no sequence of requests ever changes the store again |
| `PetHandlers.StepKeepsLock` | kubernetes/petstore-operator/petstore/server/storage/mem/mem.go:120-151 | every step of handlers beside each other keeps: read locks held = readers at work plus leaks (rejected changes and searches blocked on a reader that has gone), at most one writer, no reader beside it |
| `PetHandlers.ReadersSeeOneStore` | kubernetes/petstore-operator/petstore/server/storage/mem/mem.go:243-244 | in every interleaving a search and an id check see one store from lock to unlock |
| `PetHandlers.InterleavingIsSections` | kubernetes/petstore-operator/petstore/server/storage/mem/mem.go:129-150 | in every interleaving the store is what a run of write-locked sections makes of it |
| `PetHandlers.WriteStores` | kubernetes/petstore-operator/petstore/server/storage/mem/mem.go:129-225 | in every interleaving a write stores just its batch, or takes out just its ids |
| `PetHandlers.NoLostResultsUnderLock` | kubernetes/petstore-operator/petstore/server/storage/mem/mem.go:120-326 | in every interleaving of adds, updates and deletes a search sends every live matching pet exactly once and no id twice |
| `PetHandlers.MayStrandIff` | kubernetes/petstore-operator/petstore/server/storage/mem/mem.go:229-328 | a search may be stuck on its send with the read lock held if and only if it has a criterion and sends three items or more |
| `PetHandlers.LeakFreezes` | kubernetes/petstore-operator/petstore/server/storage/mem/mem.go:120-326 | once a change was rejected or is bound to be, or a search is blocked on its send with the read lock held, in every interleaving of any handlers the store never changes again and no further change succeeds |
| `PetHandlers.HandlersCanStep` | kubernetes/petstore-operator/petstore/server/storage/mem/mem.go:111-326 | without such a leak some handler can step until all have returned |
| `PetHandlers.CanBeMadeIff` | kubernetes/petstore-operator/petstore/server/storage/mem/mem.go:129-150 | a change past its check can still be made if and only if no lock is leaked and no reader at work is bound to be rejected |
| `PetHandlers.AddsWriteNewIds` | kubernetes/petstore-operator/petstore/server/storage/mem/mem.go:112-134 | with fresh ids an add finds its ids still absent when it writes, whatever ran since its check, and so keeps agreeing indexes in agreement |
| `PetHandlers.UpdatesWriteStoredIdsIff` | kubernetes/petstore-operator/petstore/server/storage/mem/mem.go:137-151 | for any handlers on a store that has the pets of their updates: in every interleaving every update finds its pets still stored when it writes if and only if no delete among the handlers names one of them |
| `PetHandlers.UpdateRevivesDeleted` | kubernetes/petstore-operator/petstore/server/storage/mem/mem.go:137-225 | among any handlers, an update and a delete of one of its pets may both succeed, with the pet gone when the update gets the write lock and back afterwards |
| `PetHandlers.AloneIsServe` | kubernetes/petstore-operator/petstore/server/storage/mem/mem.go:112-225 | a change that runs alone is the request on the store as a value, with the same outcome and the same leaked lock |
| `MemData.Data.constructor` | kubernetes/petstore-operator/petstore/server/storage/mem/mem.go:96-109 | a new store is empty, unlocked and valid |
| `MemData.Data.Populate` | kubernetes/petstore-operator/petstore/server/storage/mem/mem.go:154-181 | the in-place loop over maps and tree is the fold of PutPet over the batch, and keeps the invariant |
| `MemData.Data.CheckIds` | kubernetes/petstore-operator/petstore/server/storage/mem/mem.go:121-126 | the loop finds the first pet whose presence is not the one wanted |
| `MemData.Data.CheckedWrite` | kubernetes/petstore-operator/petstore/server/storage/mem/mem.go:138-151 | check under the read lock, then populate under the write lock, with the early return that keeps the read lock, for a handler that runs alone |
| `MemData.Data.AddPets` | kubernetes/petstore-operator/petstore/server/storage/mem/mem.go:112-134 | AddPets on the object is the AddPets request on the store as a value; on success of each id the last pet of the batch is stored and every other pet is as it was |
| `MemData.Data.UpdatePets` | kubernetes/petstore-operator/petstore/server/storage/mem/mem.go:137-152 | UpdatePets on the object is the UpdatePets request on the store as a value; on success of each id the last pet of the batch is stored and every other pet is as it was |
| `MemData.Data.DeletePets` | kubernetes/petstore-operator/petstore/server/storage/mem/mem.go:184-225 | the in-place deletion from maps and tree is the fold of DropPet over the ids, keeps the invariant, and takes out exactly the pets named |
| `MemData.Ids` | kubernetes/petstore-operator/petstore/server/storage/mem/mem.go:380-382 | ranging over a bucket lists each id once, in an order left open |
| `MemData.PetIds` | kubernetes/petstore-operator/petstore/server/storage/mem/mem.go:437-442 | collecting the ids of the pets of a bucket gives each key once, since entries are filed under their own id |
| `MemData.ListBuckets` | kubernetes/petstore-operator/petstore/server/storage/mem/mem.go:371-384 | byNames and byTypes list an id once for each filter value whose bucket holds it, so a repeated value lists it again |
| `MemData.ByBirthdays` | kubernetes/petstore-operator/petstore/server/storage/mem/mem.go:434-452 | the half-open range walk lists an id once for each day in range whose bucket holds it, and panics on an inverted range |
| `MemData.CountList` | kubernetes/petstore-operator/petstore/server/storage/mem/mem.go:297-304 | counting one arrived list sends an id exactly when its count passes the number of filters |
| `MemData.CountMatches` | kubernetes/petstore-operator/petstore/server/storage/mem/mem.go:290-306 | over all arrived lists an id is sent once if it is listed at least as often as there are filters, and never otherwise |
| `MemData.ArrivalOrder` | kubernetes/petstore-operator/petstore/server/storage/mem/mem.go:267-306 | the total count of an id is the same for every arrival order of the three lists |
| `MemData.Data.SearchPets` | kubernetes/petstore-operator/petstore/server/storage/mem/mem.go:239-353 | for every filter and every arrival order, the search sends each selected id once and no other, with the live pet or an empty item; a cancelled search may miss some but sends no id twice and no id that is not selected; an inverted range panics |
| `MemData.Data.CollectMatches` | kubernetes/petstore-operator/petstore/server/storage/mem/mem.go:267-306 | the three lists, in any order and some of them lost to a cancelled context, counted: exactly the selected ids when none is lost, and never another |
| `PetSearch.NoLostResults` | kubernetes/petstore-operator/petstore/server/storage/mem/mem.go:154-306 | in every run of adds, updates and deletes, with stale entries and repeated filter values, every live matching pet is sent exactly once and no id twice |
| `PetSearch.MatchingIsSelected` | kubernetes/petstore-operator/petstore/server/storage/mem/mem.go:246-306 | in every store with covering indexes a live pet that satisfies the filter reaches the count |
| `PetSearch.SearchIsFilter` | kubernetes/petstore-operator/petstore/server/storage/mem/mem.go:239-331 | with agreeing indexes and no repeated value, or at most one criterion, selected means exactly: live, name in Names, type in Types, Start <= birthday < End |
| `PetSearch.SearchRefinesFilter` | kubernetes/petstore-operator/petstore/server/storage/mem/mem.go:239-331 | the sequence sent in a key-keeping run holds exactly the live matching pets, each once |
| `PetSearch.HitsAreOccurrences` | kubernetes/petstore-operator/petstore/server/storage/mem/mem.go:371-384 | in an agreeing index an id is listed as often as the filter names its key |
| `PetSearch.ExactIffIndexesAgree` | kubernetes/petstore-operator/petstore/server/storage/mem/mem.go:137-181 | a reachable store searches exactly for every filter without repeats if and only if its indexes agree |
| `PetSearch.ExactOnEveryStoreIff` | kubernetes/petstore-operator/petstore/server/storage/mem/mem.go:290-306 | a filter searches every agreeing store exactly if and only if it has at most one criterion or repeats no value |
| `PetSearch.ExactOnServedStoresIff` | kubernetes/petstore-operator/petstore/server/storage/mem/mem.go:290-306 | the same for filters of values that pets can have and stores of validated pets only |
| `PetSearch.PanicsIffInverted` | kubernetes/petstore-operator/petstore/server/storage/mem/mem.go:434-448 | on dates that the server accepts a range panics if and only if it ends before it starts; one that ends where it starts is empty |
| `PetSearch.RenamedPetIsStillFound` | kubernetes/petstore-operator/petstore/server/storage/mem/mem.go:137-181 | after an update that renames a pet, a search by the old name alone still sends it |
| `Text.Trim` | kubernetes/petstore-operator/petstore/server/storage/storage.go:47 | the trimmed name neither starts nor ends with white space |
| `Text.TrimIsTheMiddle` | kubernetes/petstore-operator/petstore/server/storage/storage.go:47 | the result is the one string that the argument becomes when the white space at both ends is cut off, all of it and nothing else |
| `Text.SpacesAreWhiteSpace` | kubernetes/petstore-operator/petstore/server/storage/storage.go:47 | what is cut is exactly the White_Space characters of the Unicode character database |
| `Text.TrimTwice` | kubernetes/petstore-operator/petstore/server/storage/storage.go:47 | trimming a trimmed name changes nothing |
| `PetValidation.ValidationIsExact` | kubernetes/petstore-operator/petstore/server/storage/storage.go:39-62 | ValidatePet accepts if and only if the id is present as asked, the name is not all white space, the type known and the birthday real; it changes only the name, which loses the white space at its ends and nothing else, and accepting again changes nothing |
| `PetValidation.RejectionNamesFirstFault` | kubernetes/petstore-operator/petstore/server/storage/storage.go:39-62 | a rejection names the first fault in the order of the checks |
| `PetController.FoundIffSameNameAndKind` | kubernetes/petstore-operator/controllers/pet_controller.go:175-198 | with the searched indexes in agreement, the pet of the status is found if and only if it is stored with the spec's name and type and the stream lives to deliver it |
| `PetController.CreateAdds` | kubernetes/petstore-operator/controllers/pet_controller.go:142-155 | a create that reaches the store stores one pet with the trimmed spec under the drawn id; the status learns the id only if the reply arrives |
| `PetController.UpdateSets` | kubernetes/petstore-operator/controllers/pet_controller.go:157-165 | an update that reaches the store stores the spec under the status id and leaves the resource alone |
| `PetController.PassSucceedsIff` | kubernetes/petstore-operator/controllers/pet_controller.go:90-165 | a pass succeeds if and only if its calls get through, the reply arrives and the name is not blank, and then the pet of the status is stored as the spec says; it always puts its finalizer after those there, and leaves the spec and every other pet alone |
| `PetController.TypesOfTheProtocol` | kubernetes/petstore-operator/controllers/pet_controller.go:200-211 | dog, cat and bird become 1, 2 and 3, and any other word 4 |
| `PetController.SecondPass` | kubernetes/petstore-operator/controllers/pet_controller.go:90-165 | a pass over a resource that has its finalizer changes nothing if and only if one of its calls does not get through, or the stream delivers the pet of the status and it is already as the spec wants it |
| `PetController.SecondPassChangesNothingIff` | kubernetes/petstore-operator/controllers/pet_controller.go:90-165 | for every failure of client, search, stream, write or reply in either pass: a second pass with the same spec leaves store, status and finalizers as they were exactly under the condition stated; otherwise a pet is added or changed |
| `PetController.AddsIffNothingFound` | kubernetes/petstore-operator/controllers/pet_controller.go:90-198 | on every unlocked store, stale entries included, a pass stores a new pet if and only if its calls get through and no item that arrives carries the id of the status |
| `PetController.CreatesIffNoEmptyItem` | kubernetes/petstore-operator/controllers/pet_controller.go:175-198 | a resource without an id gets its pet if and only if the calls get through and no nil item arrives empty: an empty item matches the empty status id, and its update is refused; where nil items end the stream it always gets it |
| `PetController.AddsAnotherIff` | kubernetes/petstore-operator/controllers/pet_controller.go:175-198 | a resource whose pet is stored gets another one if and only if the calls get through and the stream ends before the place of its pet: it breaks, or a nil item sent earlier ends it |
| `PetController.LeakFailsPass` | kubernetes/petstore-operator/controllers/pet_controller.go:90-165 | while a read lock is leaked no pass succeeds or changes the store; the first create waits for the write lock, and from then on every search waits too |
| `PetController.RenameThenDeleteLeavesStale` | kubernetes/petstore-operator/petstore/server/storage/mem/mem.go:137-225 | updating name and type of a pet and then deleting it leaves such an entry |
| `PetController.PutSamePet` | kubernetes/petstore-operator/petstore/server/storage/mem/mem.go:154-181 | storing a pet that is already stored leaves ids and all indexes unchanged |
| `PetController.DeleteDropsFinalizerLast` | kubernetes/petstore-operator/controllers/pet_controller.go:125-140 | success means no pet with that id is stored and the finalizer is gone; failure leaves the resource as it was; no other pet is touched |
| `PetController.RemoveFinalizer` | kubernetes/petstore-operator/controllers/pet_controller.go:138 | no copy of the finalizer is left |
| `PetController.OtherFinalizersStay` | kubernetes/petstore-operator/controllers/pet_controller.go:138 | every stretch of finalizers without the own one stays as it is, in its place |
| `PetController.OtherFinalizersCounted` | kubernetes/petstore-operator/controllers/pet_controller.go:138 | every other finalizer stays as often as it was there |
| `PetController.PetResource.DropFinalizer` | kubernetes/petstore-operator/controllers/pet_controller.go:138 | the loop over the finalizers keeps the others in order |
| `PetController.FindPetInStore` | kubernetes/petstore-operator/controllers/pet_controller.go:175-198 | on every store, with stale entries and any arrival order, the loop finds an item exactly when one that arrives carries the status id, wherever the stream breaks and whether nil items arrive empty or end it |
| `PetController.CreatePetInStore` | kubernetes/petstore-operator/controllers/pet_controller.go:142-155 | on the objects: the create on values |
| `PetController.UpdatePetInStore` | kubernetes/petstore-operator/controllers/pet_controller.go:157-165 | on the objects: the update on values |
| `PetController.ReconcileNormal` | kubernetes/petstore-operator/controllers/pet_controller.go:90-122 | finalizer, search, then update or create on the objects is the pass on values |
| `PetController.ReconcileDelete` | kubernetes/petstore-operator/controllers/pet_controller.go:125-140 | delete, then finalizer, on the objects is the delete pass on values |
| `LogHeader.DigitsRoundTrip` | kubernetes/petstore-operator/petstore/server/log/log.go:209-223 | for every number that is not negative and every width, reading the printed digits gives the number |
| `LogHeader.PrintsTheNumberIff` | kubernetes/petstore-operator/petstore/server/log/log.go:209-223 | for every int and width, what is printed is decimal digits with the value of the number if and only if the number is not negative |
| `LogHeader.DigitsLength` | kubernetes/petstore-operator/petstore/server/log/log.go:209-223 | exactly max(width, 1, number of digits) characters are printed, one digit counted for a negative number |
| `LogHeader.DigitsAreDecimal` | kubernetes/petstore-operator/petstore/server/log/log.go:209-223 | every character printed for a number that is not negative is a decimal digit |
| `LogHeader.Itoa` | kubernetes/petstore-operator/petstore/server/log/log.go:209-223 | for i < 10^20, negative i included, and width <= 20 the backward loop stays inside its 20-byte array, ends, and appends those digits |
| `LogHeader.FormatHeader` | kubernetes/petstore-operator/petstore/server/log/log.go:256-300 | with the time of the zone that LUTC asks for, the appends make up the date-time header and the file and line part of the flags |
| `LogHeader.FormatTime` | kubernetes/petstore-operator/petstore/server/log/log.go:257-283 | the appends make up the date-time part |
| `LogHeader.Shorten` | kubernetes/petstore-operator/petstore/server/log/log.go:286-292 | the loop computes the short name |
| `LogHeader.ShortNameIsLastElement` | kubernetes/petstore-operator/petstore/server/log/log.go:286-293 | the short name is what follows the last slash after the first character, and the whole name when there is none |
| `LogHeader.FileReadsBack` | kubernetes/petstore-operator/petstore/server/log/log.go:285-299 | the file and line part is the name, a colon, decimal digits with the value of the line, a colon and a space, and nothing when no file is asked for |
| `LogHeader.HeaderParsesBack` | kubernetes/petstore-operator/petstore/server/log/log.go:256-283 | for years 0 to 9999, every flag combination and any text after it, the header has a fixed width, its fields read back at fixed positions as what was written, and the marks of the format are between them |
| `HostRange.Hosts` | automation_the_hard_way/remoteUname/remoteUname.go:87-108 | for addresses of any width (32 bits for IPv4, 128 for IPv6) the delayed loop sends the addresses strictly between the given one and the broadcast address, in order, for every prefix length |
| `HostRange.ContainsIsBlock` | automation_the_hard_way/remoteUname/remoteUname.go:99 | sharing the first n bits is lying between network and broadcast address |
| `HostRange.EveryHostOnce` | automation_the_hard_way/remoteUname/remoteUname.go:85-108 | for zero host bits and at least two of them (section 3.1 of RFC 4632) that is every address but network and broadcast, each once, 2^(bits-n) - 2 in all |
| `HostRange.ListedAreLater` | automation_the_hard_way/remoteUname/remoteUname.go:87-108 | for every address and prefix length: the addresses after the given one and before the broadcast address, in order |
| `HostRange.ListsEveryHostIff` | automation_the_hard_way/remoteUname/remoteUname.go:85-108 | the hosts of the prefix are listed, all and only they, if and only if the host bits are zero or there are fewer than two of them |
| `ScanPipeline.StepKeepsStageOk` | automation_the_hard_way/remoteUname/remoteUname.go:111-177 | each step of a stage keeps the limit, the right records, and the close after the last worker; no step sends on the closed channel |
| `ScanPipeline.StepConserves` | automation_the_hard_way/remoteUname/remoteUname.go:111-177 | no step of a stage creates, loses or copies a host, and each uses up remaining work |
| `ScanPipeline.EveryRun` | automation_the_hard_way/remoteUname/remoteUname.go:63-69 | the same for every interleaving of generator, both stages and printer |
| `ScanPipeline.LimitsAndOpenChannels` | automation_the_hard_way/remoteUname/remoteUname.go:111-177 | in every run at most 100 workers hold a slot in each stage, a channel holds one item at most and no goroutine is about to send on a closed channel |
| `ScanPipeline.NoDeadlock` | automation_the_hard_way/remoteUname/remoteUname.go:63-177 | some goroutine can step until the printer's loop ends |
| `ScanPipeline.ScanPrintsEachHostOnce` | automation_the_hard_way/remoteUname/remoteUname.go:63-177 | every run is finite, can go on until the printer ends, and then has printed one record of each host, whatever the finishing order: Reachable as the host answers, LoginSSH exactly when it answers and uname ran, and Uname the text it gave or empty |
| `ScanPipeline.AsManyAsHosts` | automation_the_hard_way/remoteUname/remoteUname.go:63-177 | a finished scan has printed as many records as there were hosts |
| `ScanPipeline.ScanOfPrefix` | automation_the_hard_way/remoteUname/remoteUname.go:53-177 | the whole program: for a prefix with zero host bits and at least two of them, a finished scan has printed 2^(bits-n) - 2 records, the right one, field by field, for each address strictly between network and broadcast, and nothing else |
| `Pool.P2C.constructor` | automation_the_hard_way/orchestration/lb/server/http/p2c.go:75-90 | a new pool has no backends |
| `Pool.P2C.AddToValue` | automation_the_hard_way/orchestration/lb/server/http/p2c.go:201-217 | the copying loop refuses a present URL and otherwise stores the list with the backend at its end |
| `Pool.P2C.RemoveFromValue` | automation_the_hard_way/orchestration/lb/server/http/p2c.go:219-240 | nothing on an empty list, an error when no URL matches, otherwise the list without that URL in order |
| `Pool.P2C.Add` | automation_the_hard_way/orchestration/lb/server/http/p2c.go:99-118 | a failed check changes nothing; otherwise only the healthy list is searched and extended |
| `Pool.P2C.Remove` | automation_the_hard_way/orchestration/lb/server/http/p2c.go:121-128 | both lists lose the URL, errors ignored |
| `Pool.P2C.HealthyToSick` | automation_the_hard_way/orchestration/lb/server/http/p2c.go:300-310 | the transition on the object, including when it panics |
| `Pool.P2C.SickToHealthy` | automation_the_hard_way/orchestration/lb/server/http/p2c.go:312-322 | the transition on the object, including when it panics |
| `Pool.P2C.HealthChecks` | automation_the_hard_way/orchestration/lb/server/http/p2c.go:272-298 | a round on the object whose transitions run one at a time, for every order of its goroutines and any lists, the panic included; on lists without a common URL it ends as the checks say |
| `Pool.P2C.Health` | automation_the_hard_way/orchestration/lb/server/http/p2c.go:131-199 | status and backends in list order for each combination of flags |
| `Pool.WithoutContent` | automation_the_hard_way/orchestration/lb/server/http/p2c.go:228-236 | removal keeps exactly the other URLs, and the length test detects exactly a missing one |
| `Pool.WithoutCuts` | automation_the_hard_way/orchestration/lb/server/http/p2c.go:228-236 | from a list without repeats just the backend with that URL is cut out, and the rest stay in order |
| `Pool.RemovedContent` | automation_the_hard_way/orchestration/lb/server/http/p2c.go:121-128 | after Remove the URL is in neither list, every other address is where it was, and duplicates stay absent |
| `Pool.AddedContent` | automation_the_hard_way/orchestration/lb/server/http/p2c.go:99-118 | adding an address that is in neither list keeps the lists free of duplicates |
| `Pool.MovesAreClean` | automation_the_hard_way/orchestration/lb/server/http/p2c.go:300-322 | on lists without a common URL a transition of a listed backend never panics, moves that backend only and keeps the lists free of duplicates |
| `Pool.HealthRound` | automation_the_hard_way/orchestration/lb/server/http/p2c.go:272-322 | a round whose transitions run one at a time, in any order, conserves the backends, ends with healthy = those that pass and sick = those that fail, and never panics |
| `PoolRaces.NoDuplicatesUnderRaces` | automation_the_hard_way/orchestration/lb/server/http/p2c.go:201-240 | however loads and stores of any transitions interleave, neither list ever holds a URL twice |
| `PoolRaces.UninterruptedTransition` | automation_the_hard_way/orchestration/lb/server/http/p2c.go:300-322 | the four accesses taken together are the transition of the pool |
| `PoolRaces.RoundIsSafeIff` | automation_the_hard_way/orchestration/lb/server/http/p2c.go:272-322 | on a good pool every schedule of a round leaves each backend where its check says if and only if at most one check disagrees with the list its backend is in |
| `PoolRaces.NoPanicInOneRound` | automation_the_hard_way/orchestration/lb/server/http/p2c.go:272-322 | under no schedule does a round over lists without a common URL panic |
| `PoolRaces.OneChangeIsOneMove` | automation_the_hard_way/orchestration/lb/server/http/p2c.go:272-322 | a round in which one backend changes ends as its transition alone does, under every schedule |
| `PoolRaces.RaceLosesBackend` | automation_the_hard_way/orchestration/lb/server/http/p2c.go:277-322 | for every good pool and every check by which two or more backends change: a schedule of the round after which one of them is in neither list |
| `PoolRaces.RaceLeadsToPanic` | automation_the_hard_way/orchestration/lb/server/http/p2c.go:277-322 | and a schedule that leaves a backend in both lists, so that the transition the next round starts for it panics whatever its check says |
| `PoolWeights.WeightIsInFlight` | automation_the_hard_way/orchestration/lb/server/http/p2c.go:37-58 | in every interleaving of requests, adds, removes and health moves each wrapper's weight is its number of requests in flight, and the negative-weight panic is unreachable |
| `PoolWeights.WeightSurvivesMove` | automation_the_hard_way/orchestration/lb/server/http/p2c.go:300-322 | a backend that goes to sick and back keeps its wrapper and weight |
| `PoolWeights.NoDuplicatePanic` | automation_the_hard_way/orchestration/lb/server/http/p2c.go:99-118 | if no backend is added whose URL is in the sick list, no run lists a URL twice or panics in a move |
| `PoolWeights.RecoveryPanicsIffSickDuplicate` | automation_the_hard_way/orchestration/lb/server/http/p2c.go:113 | in a good pool, recovery after an add panics if and only if the sick list already had the URL |
| `PoolWeights.PeakRisesIffBothAtPeak` | automation_the_hard_way/orchestration/lb/server/http/p2c.go:243-257 | a request whose steps from arrival to call are not interrupted raises the highest weight of its list if and only if both sampled backends were at it |
| `Precondition.CheckLBState` | automation_the_hard_way/orchestration/workflow/workflow.go:155-195 | the loops decide the precondition |
| `Precondition.CheckIsBijection` | automation_the_hard_way/orchestration/workflow/workflow.go:161-194 | on a duplicate-free pool the check passes if and only if no backend is sick and the configuration lists each healthy backend once and nothing else |
| `Actions.NextIsNextPlace` | automation_the_hard_way/orchestration/actions/actions.go:113-268 | each state function returns the next one of the chain, the last one none |
| `Actions.WholeChain` | automation_the_hard_way/orchestration/actions/actions.go:113-268 | a whole run calls find, remove from the pool, kill, copy, start, add to the pool, in that order |
| `Actions.Actions.constructor` | automation_the_hard_way/orchestration/actions/actions.go:53-65 | a new action has not started and has no failed state and no error |
| `Actions.Actions.Run` | automation_the_hard_way/orchestration/actions/actions.go:78-106 | the loop calls the state functions in chain order without a gap, succeeds if and only if every turn is fine, records the first failure, leaves an old error on success, and never leaves a failed state to resume from |
| `Rollout.StepKeepsShape` | automation_the_hard_way/orchestration/workflow/workflow.go:78-125 | every step of launcher, workers and actions keeps which action may be where; no action is started twice |
| `Rollout.StepKeepsTally` | automation_the_hard_way/orchestration/workflow/workflow.go:92-117 | every step keeps: counter = counted failures, slots = holders plus the launcher's own, slots <= Concurrency, counted + uncounted <= MaxFailures + Concurrency |
| `Rollout.StepKeepsPool` | automation_the_hard_way/orchestration/actions/actions.go:151-158 | every step keeps: an out backend belongs to an action past its removal or failed, and the pool has no duplicates |
| `Rollout.ActChangesPool` | automation_the_hard_way/orchestration/actions/actions.go:146-268 | one step of an action changes the pool only by the removal or addition of its own backend, whose call may take effect although it fails |
| `Rollout.CapacityInState` | automation_the_hard_way/orchestration/workflow/workflow.go:92-117 | the three invariants together bound the configured backends out of the pool by MaxFailures + Concurrency |
| `Rollout.RolloutKeepsCapacity` | automation_the_hard_way/orchestration/workflow/workflow.go:68-125 | from a passed precondition, in every reachable state of every rollout at most MaxFailures + Concurrency configured backends are out of the pool, and slots, failures and lists keep their bounds |
| `Rollout.PreconditionGates` | automation_the_hard_way/orchestration/workflow/workflow.go:68-76 | for every pool and configuration: unless the load balancer answers, no backend is sick and the configuration lists each healthy backend once and nothing else, Run ends in a precondition failure with no action started and the addresses of the pool as they were; with all that it never does |
| `Rollout.SuccessAccounts` | automation_the_hard_way/orchestration/workflow/workflow.go:96-124 | if Run ends in success the launch loop never broke, every action ran exactly once, Status lists as many failures as the counter says, at most MaxFailures, and every succeeded backend is in the pool |
| `Rollout.MaxFailuresAccounts` | automation_the_hard_way/orchestration/workflow/workflow.go:118-124 | if Run ends because of too many failures, more than MaxFailures were counted and Status lists as many |
| `Rollout.OkayRunsSucceed` | automation_the_hard_way/orchestration/workflow/workflow.go:68-125 | if every step of every action goes well, Run can go on so until it has returned, and it returns success with every action succeeded and every backend in the pool |
| `Rollout.EveryReplyIsPossible` | automation_the_hard_way/orchestration/actions/actions.go:146-268 | in every reachable state a running action may meet success or failure in its next step; in particular the pool accepts its backend back |
| `Rollout.RunsAtMostOnce` | automation_the_hard_way/orchestration/workflow/workflow.go:78-116 | no action is run twice; after a canary failure that canary is the only failed action |
| `Rollout.NoDeadlock` | automation_the_hard_way/orchestration/workflow/workflow.go:78-125 | with Concurrency >= 1 one of the goroutines of Run can step until Run has returned, health checks aside |
| `Rollout.StepRanks` | automation_the_hard_way/orchestration/workflow/workflow.go:78-125 | every step of those goroutines uses up remaining work, and a health move adds none |
| `Rollout.RunReturns` | automation_the_hard_way/orchestration/workflow/workflow.go:68-125 | Run returns: at most 17 steps for each backend and 6 more, however many health checks come between, and one is possible until it has returned |
| `Retry.Status` | automation_the_hard_way/orchestration/workflow/workflow.go:222-230 | the loop lists the actions with an error |
| `Retry.FailedListContent` | automation_the_hard_way/orchestration/workflow/workflow.go:222-230 | exactly the actions with an error are listed |
| `Retry.FailedListInOrder` | automation_the_hard_way/orchestration/workflow/workflow.go:222-230 | in the order of the configuration, each once |
| `Retry.FailedListLength` | automation_the_hard_way/orchestration/workflow/workflow.go:222-230 | so the list is as long as there are failed actions |
| `Retry.EarlyAndLateReads` | automation_the_hard_way/orchestration/workflow/workflow.go:137-149 | each goroutine may read the shared variable in its own turn, and each only when the loop is over |
| `Retry.EachRetriedOnceIff` | automation_the_hard_way/orchestration/workflow/workflow.go:137-149 | every failure is retried exactly once without a panic if and only if each goroutine reads the shared loop variable in its own turn |
| `Retry.RetriesAreSafeIffNone` | automation_the_hard_way/orchestration/workflow/workflow.go:128-150 | every schedule retries each failure once without a panic if and only if there is no failure to retry |
| `Retry.RetryNeverClearsFailures` | automation_the_hard_way/orchestration/workflow/workflow.go:137-149 | whatever the retries return, Status lists the same failures afterwards, and agrees with the counter if and only if no retry succeeded |
| `EmergencyStop.SubscriberStreams` | design_for_chaos/es/es.go:107-211 | in every interleaving of subscribers, receivers, cancels and the operations of the loop, each subscriber sees a beginning of Go, Stop, closed or of Stop, closed, and nothing is sent on or closes a closed channel, or is about to |
| `EmergencyStop.RefusedGetsStop` | design_for_chaos/es/es.go:107-114 | a subscriber to a name that is not on go gets Stop first and then the closing |
| `EmergencyStop.RegisteredGetsGo` | design_for_chaos/es/es.go:116-124 | one that was let through is registered last, and gets Go on a channel that stays open |
| `EmergencyStop.StopIsReceived` | design_for_chaos/es/es.go:186-211 | whoever was stopped has received Stop or does so with the next receive |
| `EmergencyStop.StepSafe` | design_for_chaos/es/es.go:107-211 | each step keeps: registered channels are open and registered once, every stream is in order, the mutex is held exactly where the code holds it, a pass stops only names it must, and no channel is dropped |
| `EmergencyStop.CancelPanicsIffNoneRemain` | design_for_chaos/es/es.go:128-139 | cancel panics if and only if no subscriber of the name remains; otherwise it takes out its own channel only and keeps the order of the rest |
| `EmergencyStop.CancelAfterStopPanics` | design_for_chaos/es/es.go:105-139 | right after sendStop every cancel of the name, as the documentation asks for, panics |
| `EsPromise.SendStopEnds` | design_for_chaos/es/es.go:186-211 | sendStop ends within four operations a channel, whether or not slots are full and whatever receivers take meanwhile |
| `EsPromise.LoopCanStep` | design_for_chaos/es/es.go:157-211 | a pass under way can always go on, unless the loop waits for the mutex it holds |
| `EsPromise.FailedLoadEndsIff` | design_for_chaos/es/es.go:160-168 | from the two attempts to take the mutex: the pass after a failed load comes to an end in some run if and only if no name is in the map, and with a name there the second attempt waits for ever |
| `EsPromise.TrappedMeansNoStop` | design_for_chaos/es/es.go:160-168 | from then on no open channel is ever closed and no Stop is received |
| `EsPromise.StepKeepsPromiseIff` | design_for_chaos/es/es.go:107-183 | for every name: every step keeps it, while registered, on go or still to be stopped, except a registration of it, which does if and only if the name is on go in the file being applied or still to be stopped by the pass |
| `EsPromise.RunKeepsPromiseIff` | design_for_chaos/es/es.go:107-183 | so a run keeps it throughout if and only if every registration of the name is so covered |
| `EsPromise.LiveSubscribersAreOnGo` | design_for_chaos/es/es.go:107-183 | in every run that covers every registration of the name, between passes, every open channel of it that was not cancelled has the name on go: no change, removal or failed load that a pass got over was missed |
| `EsPromise.OnlyDueAreClosed` | design_for_chaos/es/es.go:170-211 | the loop closes only channels whose name is in the old entries and is gone from the file being applied, or was on go and is not there, each after Stop was sent |
| `EsPromise.AtomicSubscribeIsCoveredIff` | design_for_chaos/es/es.go:107-124 | a Subscribe in one piece during a pass is covered if and only if the new file has its name on go or the pass has not yet dealt with it |
| `EsPromise.UncoveredIsMissed` | design_for_chaos/es/es.go:107-183 | a channel registered uncovered is never stopped, by passes or by failed loads, for as long as the file keeps its name off go and does not drop it |
| `EsFiles.EveryRunCoversIff` | design_for_chaos/es/es.go:107-183 | whatever the file will hold, read after read: every registration of a name in every run is covered if and only if no read takes the name off go |
| `EsFiles.GoIsNeverStopped` | design_for_chaos/es/es.go:159-183 | in every run in which each file that loads has a name on go, whatever was there before and whatever reads fail, no channel that was let through for it is ever closed or gets Stop |
| `EsFiles.OffMayMiss` | design_for_chaos/es/es.go:107-181 | whenever a read takes the name off go, a run in which the pass comes between the halves of Subscribe leaves the registration uncovered |
| `EsFiles.SubscribeDuringPass` | design_for_chaos/es/es.go:107-181 | on any two files of which the second takes the name off go, the whole of Subscribe may come between the sendStop of the pass and its store of the new entries |
| `EsFiles.FailedOpenChangesNothing` | design_for_chaos/es/es.go:160-168 | after a file that cannot be opened, with no name in the map, the pass ends with everything as it was: names stay on go and a later Subscribe is let through |
| `EsReader.ReadFile` | design_for_chaos/es/es.go:215-243 | an undecodable value makes the file malformed; otherwise each name gets its first valid rule and invalid rules are skipped |
| `EsReader.GoIffFirstRuleSaysGo` | design_for_chaos/es/es.go:64-75 | a name is on go if and only if it is not blank and the first of its rules that says go or stop says go; it is in the file if and only if there is such a rule |
| `EsReader.Reader.constructor` | design_for_chaos/es/es.go:86-97 | a new reader has the loaded entries and no subscribers |
| `EsReader.Reader.AskFor` | design_for_chaos/es/es.go:108-114 | Subscribe up to the mutex is the first step on values |
| `EsReader.Reader.RegisterFor` | design_for_chaos/es/es.go:116-124 | Subscribe under the mutex is the second step on values |
| `EsReader.Reader.Subscribe` | design_for_chaos/es/es.go:107-142 | both steps, or only the first when the mutex is held |
| `EsReader.Reader.Cancel` | design_for_chaos/es/es.go:128-139 | cancel on the object, the panic included, is the step on values, and waits when the mutex is held |
| `EsReader.Reader.TrySend` | design_for_chaos/es/es.go:194-196 | the send of the select |
| `EsReader.Reader.DrainSlot` | design_for_chaos/es/es.go:197-204 | the drain of a full slot |
| `EsReader.Reader.CloseChan` | design_for_chaos/es/es.go:208-209 | the close, and the deletion of the name |
| `EsReader.Reader.PutStop` | design_for_chaos/es/es.go:193-207 | drain and replace ends within two tries whatever the receiver does meanwhile, with Stop sent, and is a run of the steps on values |
| `EsReader.Reader.SendStop` | design_for_chaos/es/es.go:186-211 | sendStop is a run of the steps on values; it waits if and only if the mutex is held |
| `EsReader.Reader.DealWith` | design_for_chaos/es/es.go:170-180 | one turn of the range over the old entries is a run of the steps; it closes the channels of its name and forgets them exactly when the name must be stopped, and touches no other |
| `EsReader.Reader.PassOver` | design_for_chaos/es/es.go:159-182 | a pass over a loaded file, in any order of the range and with receivers taking meanwhile, is a run of the steps that ends at rest with the new entries, with the channels of exactly the names that must be stopped closed and forgotten |
| `EsReader.Reader.PassFailed` | design_for_chaos/es/es.go:160-168 | a pass after a failed load is a run of the steps; it ends up waiting for its own mutex if and only if a name is in the map, and stops nobody |

## Left out

Stated weaker than one might expect:

- Rollout.RolloutKeepsCapacity: the pool's health checks move one backend at a time, as a round does in which one backend changes (`PoolRaces.OneChangeIsOneMove`); a backend lost in a round where two change (`PoolRaces.RaceLosesBackend`) is lost whatever the rollout does, and is not counted.
- Pool.HealthRound: transitions run one after the other; `PoolRaces.RoundIsSafeIff` says when interleaving makes no difference.
- EsPromise.LiveSubscribersAreOnGo: every registration of the name is covered when it is made; `EsFiles.EveryRunCoversIff` says when that is so and `EsPromise.UncoveredIsMissed` what happens to one that is not.
- EsPromise.UncoveredIsMissed: a load that drops the name from the file is excluded, because its pass does stop the channel.
- MemData.Data.SearchPets: the panic of an inverted range is an outcome; items sent before it are not described.
- MemData.Data.CheckedWrite: the handler runs alone, and a wait that never ends is an outcome; handlers beside each other are in `PetHandlers`.
- PetStore.DoneIffAccepted: requests are served one at a time; handlers beside each other are in `PetHandlers`.
- PetHandlers.AddsWriteNewIds: ids that are drawn twice, which the server's generator is taken not to do, are excluded.
- PoolWeights.PeakRisesIffBothAtPeak: the request is not interrupted; other requests between its two reads can make either choice stale.
- LogHeader.HeaderParsesBack: the file and line part is any text after the header and is not parsed.
- Actions.Actions.Run: the inside of the state functions (finding, killing, copying, starting, waiting) is one answer per call.
- Retry.RetryNeverClearsFailures: each retried action counts as one returned answer, in the order in which they return, and a read past the end of the list, which ends the process, is excluded.
- EsReader.Reader.PassOver: between the operations of a pass on the object only receivers act; subscribers and cancels beside a pass are in `EmergencyStop` and `EsPromise`.

On values rather than in place:

- The rollout, the racing transitions, the requests, the store's handlers beside each other, the retries and the scan are step relations on values: goroutines that share memory have no counterpart as methods.
- Maps of pets are values, so a pet shared by pointer between indexes is a copy in each; the source never changes a stored pet.
- A wrapped backend is a number next to its address, and its weight a map entry under that number.
- Channels of subscribers are numbered, and a receiver's steps are steps of the run.

Not modelled:

- gRPC, HTTP, SSH, process and file I/O, JSON decoding, protobuf and deep-copy code, command line clients and manifests.
- The balancing of the tree library; only its ordered-set contract is, with the order of the repository's comparators. The library is not part of this model.
- Context cancellation and timeouts, except as a failing turn of an action, as a search that ends early and as a search whose reader goes away.
- Wrap-around of the 32-bit counters for failures, weights and loop indices.
- The text form of addresses: the precondition compares the strings of IPv4 backends, and every backend is an IP backend, as the pool's only kind.
- A nil birthday, on which validation dereferences nil, and the drawing of ids, assumed fresh.
- Torn or stale plain reads of weights and the shared random generator; positions are arguments.
- Reading the custom resource and patching it back; a pass that ends is taken as patched.
- Tracing, metrics, event attributes, the event pool and the trace sampler.
- The mux, the table of pools and the circuit breaker and backoff clients: only easy members.
