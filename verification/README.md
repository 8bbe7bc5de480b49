# What the agent and its panel promise, as Dafny proofs

The repository is a proxy agent (`cmd/mini-sb-agent`, `counter`, `panelapi`) and a small panel
server (`tiny-xboard`). This project models the four parts of it that keep state while others
use it, and proves what they promise over every input and every run.

* **Rate limiting** (`TokenBucket.dfy`, `RateBound.dfy`, `PacketLaw.dfy`, `RateLedger.dfy`,
  `RateLimiter.dfy`, `ConnStack.dfy`): one token bucket shared by any number of connections, its
  two disciplines (wait in debt, or drop), rate changes, and the stack of wrappers around a
  connection.
* **The panel's store** (`Records.dfy`, `Push.dfy`, `Decimal.dfy`, `TrafficFiles.dfy`,
  `Store.dfy`, `Disk.dfy`, `CrashSafety.dfy`, `SaveOutcome.dfy`, `Recovery.dfy`,
  `StoreMachine.dfy`, `CounterLaw.dfy`, `Startup.dfy`): the in-memory users and counters, the
  file-replacement protocol under power loss, the two-lock saving protocol with any number of
  threads, and start-up.
* **User reconciliation** (`UserDiff.dfy`, `InboundRuns.dfy`, `Identity.dfy`, `LimiterTable.dfy`,
  `LimiterRates.dfy`, `UserManager.dfy`): the incremental diff applied to inbounds that may fail
  half-way, who a connection is, and the limiters that live connections hold on to.
* **Traffic accounting** (`Sums.dfy`, `Panel.dfy`, `Counter.dfy`, `Hook.dfy`,
  `SyncMachine.dfy`, `Removal.dfy`, `Losses.dfy`, `Delivery.dfy`, `FlushRetry.dfy`,
  `Progress.dfy`, `Crediting.dfy`): the snapshot, push and commit protocol that runs while
  connections keep counting, up to the counters of the server.

Objects whose methods change their fields are classes (`RateLimiter`, `StateFile`, `Store`,
`Inbound`, `UserManager`, `TrafficCounter`, `Hook`) proved against functions and relations on
values; the theorems over runs and interleavings are about those. Protocols are state machines
whose steps are the sections between two locks, or single loads and stores of shared counters.

Ranging over a Go map is `MapRange.Pick` in a loop: the next key is any key not yet visited, so
everything proved about such a loop holds for every iteration order.

## Where the code does not do what one would expect

Each of these is stated by a lemma: for a family of inputs, and with the exact condition under
which the code does meet the expectation.

* `Allow` charges at most `burst` for a packet larger than that, so the windowed rate bound
  holds if and only if no grant exceeds the burst (`RateBound.WindowBound`,
  `RateBound.BigPacketBreaksBound`). Chunks of `Wait` and packets of at most 65535 bytes never
  do (`RateBound.RealCallersStayWithin`).
* `SetRate` and `Close` reset debt to zero. The ledger balances to the last token only with a
  term for what they forgive (`RateLedger.LedgerBalances`); it balances without that term if and
  only if none of these calls finds the bucket in debt (`RateLedger.ForgivenessIsNeeded`,
  `RateLedger.DebtIsForgiven`).
* The comment at `tiny-xboard/persist.go:74-75` says that a power-loss window can never leave the
  main file missing. That holds of a write if and only if it never gets to rename the old file
  away (`Recovery.GapExactly`), so of none that replaces a file it can see
  (`Recovery.EveryReplacementHasAGap`). `loadWithFallback` would find the backup, but its
  callers `os.Stat` the main path first and take its absence for a first start; exactly there
  they ignore the good backup (`Recovery.LoaderRecoversExactly`). In the gap of nodes.json the
  server comes up on node.json or on a default node with a new token (`Startup.NodesGap`).
* A save whose `os.Stat` fails on an existing file and whose rename into place fails afterwards
  restores an older backup over the live file. That and burying a good backup under a corrupt
  main file (`Recovery.RestoringCanLoseBoth`) are the two things that break crash safety, and
  exactly they (`CrashSafety.WriteCrashSafe`, `CrashSafety.RunIsCrashSafe`). In the running
  process the first takes users.json back to an earlier user set, and nothing else does
  (`StoreMachine.SavesNeverGoBack`, `StoreMachine.StaleRestoreGoesBack`).
* `loadWithFallback` wraps its error with `%w`, which `os.IsNotExist` does not unwrap, so the
  branch of `loadUsersFromDisk` that should yield an empty list for a missing file is dead, and
  both files missing is an error (`Recovery.EmptyListIsNeverReached`). The code, not the comment
  at `tiny-xboard/store.go:332-334`, is modelled.
* Counters recovered from the backup at start-up are saved again, and an error of that save is
  only logged. If it neither promotes the new file nor restores the backup, they are in memory
  only, with the dirty flag clear (`Startup.RecoveredCountersUnsaved`); this is the one way the
  store starts with counters that are not on disk (`Startup.StartIsInit`).
* `RefreshUsers` reads the file outside every lock. It brings back the users it read, whatever
  happened since: harmless exactly when the users are again those it read
  (`StoreMachine.RefreshRestoresRead`); otherwise a user whose `AddUser` succeeded in between is
  dropped (`StoreMachine.RefreshLosesUser`).
* A user removed while sharing its secret with one who stays takes the other's entry with it
  (`UserDiff.SharedSecretIsLost`; the exact condition is in `UserDiff.DiffEqualsRebuild`).
* A failed `ApplyBox` can leave on an inbound the credential of a user that no later list names,
  and the next successful call does not remove it (`UserDiff.FailedAddStays`). It stays over
  every run until a list names it again (`InboundRuns.StrandedStays`); when a retry with another
  list does clean up is the condition of `UserDiff.RetryWithAnotherList`.
* A failed `ApplyBox` reconciles the limiters although the users stay: it leaves behind the
  limiter of a user only its list named (`LimiterTable.FailureOrphansLimiter`) and takes that of a
  user only the applied users limit, whose new connections then run unlimited
  (`LimiterTable.FailureUnlimitsUser`). Who has limiters after a run with failures is
  `LimiterTable.MapHoldsExactly`.
* A numeric user key beyond 64 bits is committed but never sent, and of two keys that parse to
  the same id one is dropped (`Decimal.NumericMayNotParse`, `Decimal.NumericIsNotCanonical`); the
  payload loses nothing if and only if neither occurs (`Panel.PayloadLosesNothing`).
* `flush` commits every numeric user of every inbound, but a client sends only the inbounds its
  node type matches: each inbound arrives as often as panels match it (`Delivery.DeliveryLaw`),
  and the two agree if and only if that is once (`Panel.MatchedOnceIsNeeded`,
  `Delivery.WiringIsNeeded`).
* Bytes counted into a storage after `RemoveAbsent` checked it, or after it was deleted, are in
  no later snapshot. It can happen to any absent user with any number of bytes
  (`Losses.LateBytesAreLost`, `Losses.LossIsReachable`), and nothing is lost under a key if and
  only if neither step occurs with bytes under it (`Losses.LostExactly`).
* The server answers a push with success also when it drops the bytes of users it does not know,
  so the agent commits them. Counters grow by all that was committed if and only if the server
  knew the user whenever bytes of it arrived (`Crediting.CommittedAreCredited`).

## Model

| member | source | states |
|---|---|---|
| RateBound.WindowBound | counter/ratelimit.go:90-200 | at a constant rate, for every interleaving of waiting chunks and accepted packets by any callers: in every window the bytes falling due are at most burst + rate times its length, if and only if no single grant exceeds the burst |
| RateBound.TruncationBound | counter/ratelimit.go:190-199 | with waits truncated to whole nanoseconds the same bound holds over a window one nanosecond longer; the slack does not accumulate |
| RateBound.DueBelowPosition | counter/ratelimit.go:168-200 | bytes due in a window are bounded by what the bucket's position on the time axis still allows, for every operation sequence |
| RateBound.DueInGrantOrder | counter/ratelimit.go:168-200 | exact due instants never decrease in grant order |
| RateBound.PacketEventuallyPasses | counter/ratelimit.go:136-166 | a packet of any size is accepted once the missing tokens have flowed in, and one of at least burst size not before |
| RateBound.RealCallersStayWithin | counter/ratelimit.go:90-166 | chunks no longer than the burst and packets of at most 65535 bytes keep every grant within the burst, so for such callers the window bound holds over every interleaving |
| RateBound.BigPacketBreaksBound | counter/ratelimit.go:136-166 | a full bucket passes a packet of any size, and the window bound then holds if and only if the packet is no larger than the burst |
| PacketLaw.PacketPassesExactly | counter/ratelimit.go:136-166 | after any run of chunks and packets a packet passes if and only if it fits, capped at the burst: into what the limiter held and has earned since the start, and into the burst plus the rate for every window that ends now; so one of at most the burst is dropped only if passing it would overfill one of these |
| PacketLaw.LevelIsWhatFits | counter/ratelimit.go:144-166 | what is in the bucket at any time after any run is exactly what fits beside the charges of every window that ends then |
| RateLedger.LedgerBalances | counter/ratelimit.go:41-73 | over any run with rate changes and closing, as an equality: charged + in hand at the end + thrown away = in hand at the start + the integral of the rate + the debt forgiven |
| RateLedger.NewLimiterLedger | counter/ratelimit.go:35-60 | for a new limiter the same equality from zero, so its charges less its debt never exceed what was paid and forgiven; and tokens never exceed the burst while limiting |
| RateLedger.ForgivenessIsNeeded | counter/ratelimit.go:41-60 | the books balance without the forgiveness term if and only if no SetRate and no Close of the run finds the bucket in debt; otherwise more was charged than was paid for |
| RateLedger.ChargesAreCovered | counter/ratelimit.go:41-73 | charges less the debt outstanding never exceed the opening credit, the integral of the rate and the debt forgiven |
| RateLedger.DebtIsForgiven | counter/ratelimit.go:41-60 | any chunk charged to an empty limiter, followed by a rate change, is charged without ever being paid for |
| RateLimiters.RateLimiter.SetRate | counter/ratelimit.go:41-60 | a positive rate opens the limiter, also a closed one, and any other disables it; tokens within the new burst are kept, debt and more tokens are dropped to zero; the burst is a fifth of a second of the rate, rounded down and at least one chunk, as long as the 64-bit product does not wrap |
| RateLimiters.RateLimiter.Close | counter/ratelimit.go:62-73 | closing disables the limiter and drops its tokens or debt; nothing is charged afterwards until a positive rate is set |
| RateLimiters.RateLimiter.Reserve | counter/ratelimit.go:168-200 | refill and charge, and the wait is the debt at the rate, truncated to nanoseconds |
| RateLimiters.RateLimiter.Allow | counter/ratelimit.go:136-166 | for an enabled limiter a packet passes exactly when the tokens plus what the rate has earned since, capped at the burst, reach the packet, capped at the burst; a dropped packet is not charged |
| RateLimiters.RateLimiter.Wait | counter/ratelimit.go:90-118 | the 64 KiB chunk loop ends, and for a sole caller it ends at the instant, and leaves the bucket, of a single reservation of all bytes, however many chunks it took |
| RateLimiters.ReserveStep | counter/ratelimit.go:90-118 | reserving one more chunk after sleeping out the last one keeps a caller on the one-shot schedule |
| RateLimiters.Landing | counter/ratelimit.go:190-199 | where the truncated sleep of a one-shot reservation lands: at the exact instant or less than a nanosecond before |
| TokenBucket.RefillPosition | counter/ratelimit.go:172-186 | refilling never moves the bucket's zero-debt instant backwards, and keeps it where it is unless the burst caps the tokens |
| TokenBucket.ChargePosition | counter/ratelimit.go:187-199 | charging n bytes moves that instant forward by exactly n at the rate |
| TokenBucket.BurstIsOneFifth | counter/ratelimit.go:45-48 | up to the rate at which the product wraps: the burst is the bytes of a fifth of a second, rounded down, and never less than 65536 |
| TokenBucket.Int64Wraps | counter/ratelimit.go:45 | the 64-bit product is the congruent number in range |
| ConnStack.RoutedConnection | cmd/mini-sb-agent/main.go:65-74 | a connection without a user is left unwrapped; otherwise the layers are, from the inside, one counter, the node's read and write limiters and the user's, a pair of nil limiters adding none; no limiter is shared between layers unless node and user limiter are the same |
| ConnStack.Write | counter/ratelimit.go:229-253 | for any underlying connection that may write short or fail: the stack delivers exactly the first n bytes in order, each counter grows by n, each enabled limiter is charged at least n and at most one chunk more |
| ConnStack.LimitedWrite | counter/ratelimit.go:229-253 | the chunking loop reports success only when everything was written |
| ConnStack.WriteChunk | counter/ratelimit.go:236-251 | one chunk: a closed limiter stops it with an error before anything is written, charged inside or waited for |
| Decimal.AtoiItoa | tiny-xboard/store.go:483-500 | parsing undoes printing for every 64-bit integer, and non-negative ones print as numeric users |
| Decimal.IsNumericUser | panelapi/sync.go:114-124 | the scan accepts exactly the non-empty strings of ASCII digits |
| Decimal.NumericIsNotCanonical | panelapi/client.go:116-125 | every id has a second numeric key, its decimal with a leading zero, which parses to the same id |
| Decimal.NumericMayNotParse | panelapi/sync.go:114-124 | every number beyond 64 bits prints as a numeric user that does not parse, so it is committed but not sent |
| Decimal.AtoiExactly | tiny-xboard/store.go:483-490 | digits parse, with or without a sign, exactly when the number fits 64 bits |
| Decimal.AtoiOfOthers | tiny-xboard/store.go:483-490 | anything but digits with at most one sign before them does not parse |
| Records.AccumulateKeepsReachable | tiny-xboard/store.go:838-857 | counters exist for known users only, ids are positive and equal the record's, and the user limit holds, after accumulating |
| Records.AddUserKeepsReachable | tiny-xboard/store.go:786-802 | the same after adding a user |
| Records.DeleteUserKeepsReachable | tiny-xboard/store.go:805-815 | the same after deleting a user |
| Records.ReplaceUsersKeepsReachable | tiny-xboard/store.go:753-783 | the same after replacing the user list and dropping the counters of users no longer listed |
| Records.UsersRoundTrip | tiny-xboard/store.go:674-695 | loading the saved list gives back the users, and what a reachable state saves passes validation |
| Records.ListIsUnique | tiny-xboard/store.go:674-695 | the saved list does not depend on map iteration order |
| Push.PushIgnoresOrder | tiny-xboard/api.go:114-150 | accepting the entries of a push in any order gives the same counters and the same count |
| Push.PushAddsUp | tiny-xboard/api.go:114-150 | each known user's counters grow by exactly the sum of its entries, the others not at all, and the count is that of entries of known users |
| Push.FirstPush | tiny-xboard/api.go:114-150 | a user without a counter gets one exactly if an entry of it is accepted, and then it holds the sum of those entries and nothing else |
| Push.ParseExactly | tiny-xboard/api.go:135-150 | a member of the compact form is an entry exactly when its pair decodes and its name is a number, with that id and pair; any other is skipped |
| Push.CompactEqualsArray | tiny-xboard/api.go:114-150 | the compact map form, in any iteration order, does what the array form does with the same entries |
| TrafficFiles.TrafficRoundTrip | tiny-xboard/store.go:483-512 | counters of positive ids saved to decimal keys and normalized on load come back unchanged |
| TrafficFiles.NormalizeTrafficFile | tiny-xboard/store.go:483-500 | whatever the file holds: every key that parses to a positive id is kept, nothing else is, and each counter is that of such a key with negative numbers clamped to zero |
| TrafficFiles.ValidateTrafficFile | tiny-xboard/store.go:627-632 | exactly a version above 1 is refused |
| TrafficFiles.FileFormOf | tiny-xboard/store.go:700-720 | the file has each counter under its printed id and nothing else |
| Store.ValidateUsers | tiny-xboard/store.go:590-608 | the loop accepts exactly the lists of at most 1000 users with distinct positive ids, a UUID or a password, and no negative speed limit |
| Store.ValidateUsersFile | tiny-xboard/store.go:590-608 | a document is accepted exactly when its version is at most 1 and its list is |
| Store.UsersById | tiny-xboard/store.go:376-386 | the map built from a list is that of the specification |
| Store.Store.Accumulate | tiny-xboard/store.go:838-857 | refuses negative amounts and unknown users and changes nothing; otherwise a first counter is exactly the amounts, an existing one grows by them, no other changes, and the dirty flag is set |
| Store.Store.AddUser | tiny-xboard/store.go:786-802 | refuses invalid users, taken ids and a full store, leaving memory and file alone, and otherwise adds exactly that user and writes the sorted list; the error is that of the write, and the user stays in memory |
| Store.Store.DeleteUser | tiny-xboard/store.go:805-815 | removes exactly that user and its counter, every other user and counter staying as it is, and writes the sorted list; or refuses when there is none |
| Store.Store.SetUsers | tiny-xboard/store.go:753-783 | replaces the users when the list is valid, keeps exactly the counters of users still listed and writes the sorted list; an invalid list changes nothing |
| Store.ReplacedByList | tiny-xboard/store.go:376-418 | after a replacement the users are exactly the listed ones, each as listed, and the counters exactly those of listed users that had one, each as it was |
| Store.Store.RefreshUsers | tiny-xboard/store.go:393-433 | a file that is gone, or not newer than the one last loaded, is not read; one that does not load changes nothing; otherwise the users are replaced, the counters of users gone dropped, the store marked dirty when any was, and a load from the backup is saved again, with the error of that save |
| Store.Store.SavedUsersComeBack | tiny-xboard/store.go:674-695 | once a save returned nil, a reader, in the running process or after a power loss, gets a valid list of exactly the users in memory |
| Store.Store.DropAbsent | tiny-xboard/store.go:504-512 | exactly the counters without a user go, and the others stay as they are |
| Store.Store.SnapshotUsers | tiny-xboard/store.go:674-690 | the list to be saved is the users in ascending id order |
| Store.Store.PushEntries | tiny-xboard/api.go:114-134 | the loop over the array form has the effect and the count of the fold over its entries |
| Store.Store.PushCompact | tiny-xboard/api.go:135-150 | the loop over the compact form has the effect and the count of the fold over some enumeration of the map |
| Disk.ReplaceSafe | tiny-xboard/persist.go:71-92 | every state of the renaming phase, successful or not, leaves at every durable directory state a document to recover |
| CrashSafety.WriteOkIsDurable | tiny-xboard/persist.go:46-92 | after a write that returned nil every power loss recovers exactly the new document |
| CrashSafety.WriteCrashSafe | tiny-xboard/persist.go:46-92 | for any I/O failures: every power loss during the write recovers an old candidate or the new document, if and only if the write neither restores a stale backup over the live file nor buries a good backup under a corrupt main file |
| CrashSafety.RunIsCrashSafe | tiny-xboard/persist.go:46-125 | over any run of completed, failed, killed and power-cut writes, from any state with something to recover: at every write each power cut brings back the last completed generation or one attempted since, never an older one and never an error, if and only if no write of the run does one of those two things |
| CrashSafety.CompletedWriteReadsBack | tiny-xboard/persist.go:97-125 | after a write that returned nil a reader gets exactly it, in the running process and after a power cut |
| CrashSafety.TmpIsGone | tiny-xboard/persist.go:52-64 | the temporary file is gone at the end of every write, also of a failed one unless removing it fails |
| SaveOutcome.SaveIsWrite | tiny-xboard/persist.go:46-92 | what a write leaves under path and path.bak in the running process, for any failures of its system calls and from any directory, is one of the outcomes the store machine uses, and nil is returned in the same cases |
| SaveOutcome.FourOutcomes | tiny-xboard/persist.go:71-92 | a write leaves the new document with the old one as backup, or everything as it was, or the backup in place of the main file, or no main file with the old one as backup; after nil always the first |
| CrashSafety.StateFile.AtomicWriteWithBackup | tiny-xboard/persist.go:46-92 | the disk passes through exactly the states of the specification's trace, and nil is returned exactly when every step that must succeed did |
| CrashSafety.StateFile.Stage | tiny-xboard/persist.go:47-70 | the temporary file is created, written, synced and closed, and removed again on a failure |
| CrashSafety.StateFile.Replace | tiny-xboard/persist.go:71-92 | main to backup, temporary to main, directory sync; a failed promotion moves the backup back |
| Recovery.LoaderRecoversExactly | tiny-xboard/store.go:357-387 | after a power loss the loader returns the recoverable document, and says whether from the backup, if the main path is there; otherwise it reports a first start while the backup holds an allowed document |
| Recovery.EmptyListIsNeverReached | tiny-xboard/store.go:332-355 | the branch for a missing file is never taken; loading succeeds if and only if one of the two files holds a valid list, and with both missing it is an error |
| Recovery.EveryReplacementHasAGap | tiny-xboard/persist.go:74-82 | every replacing write has a state in which a power loss leaves the main path missing, which the guarded loader takes for a first start, with the last good document in the backup unless the main file was corrupt |
| Recovery.GapExactly | tiny-xboard/persist.go:74-82 | while path is there to begin with: no power loss during a write leaves it missing if and only if the write does not get to the rename of path to path.bak |
| Recovery.BackupIsPreviousGeneration | tiny-xboard/persist.go:71-92 | after two completed writes the backup holds exactly the first |
| Recovery.RestoringCanLoseBoth | tiny-xboard/persist.go:71-92 | a save that starts from a corrupt main file and a good backup, for any data and failures, stays recoverable at every power loss if and only if it does not get as far as renaming the corrupt file over the backup |
| Startup.NodesComeBack | tiny-xboard/store.go:216-223 | after any power loss the saved nodes come back if and only if nodes.json is there and os.Stat succeeds on it; otherwise node.json decides, and with neither a default node with a new token |
| Startup.NodeComesBack | tiny-xboard/store.go:225-284 | in single-node mode the saved node comes back if and only if node.json is there, otherwise a default one is made up |
| Startup.NodesGap | tiny-xboard/store.go:218-223 | every replacing save of nodes.json has a state after which a power loss brings the server up on node.json or on defaults, with the nodes still in the backup |
| Startup.EndToEndRecovery | tiny-xboard/store.go:187-205 | after any power loss with both paths in place, start-up restores users of a candidate generation and counters of one, restricted to those users; with users.json caught in the gap it starts with no users and no counters |
| Startup.NewStore | tiny-xboard/store.go:187-205 | start-up succeeds if and only if the directory can be made, nodes and users load and the saves of what had to be made up or recovered succeed; nothing about traffic.json can fail it; the state is the one the recovery theorem is about |
| Startup.StartIsInit | tiny-xboard/store.go:187-205 | start-up leaves the state the concurrent theorems start from unless counters were recovered from the backup, some belong to known users, and saving them again neither promotes the new file nor restores the backup over the bad one; exactly then it does not |
| Startup.RecoveredCountersUnsaved | tiny-xboard/store.go:441-481 | in that case the counters are in memory only, with nothing in flight and the dirty flag clear |
| StoreMachine.NoLostFlush | tiny-xboard/store.go:700-733 | for any number of threads and any write failures, including those that restore the backup or leave no file: every counter not on disk has the flag set or a thread on its way to saving it, so when quiescent and clean every in-memory counter is on disk |
| StoreMachine.FlushReachesDisk | tiny-xboard/store.go:725-733 | whenever the flag is set and no save is under way a flush can run; uninterrupted it clears the flag and brings traffic.json to exactly the counters in memory, and if its write fails it is left to set the flag again |
| CounterLaw.CounterIsWhatWasAccumulated | tiny-xboard/store.go:753-857 | for any number of threads: the stored counter of every user is exactly the sum of what was accumulated for it since it was last removed from the users, or since the start beside what it had then |
| CounterLaw.StepUsers | tiny-xboard/store.go:753-815 | every step changes only the users it names: an added one as given, a deleted one gone with all others as they were, a new list exactly as named |
| StoreMachine.UsersAreDurable | tiny-xboard/store.go:674-695 | as long as no save failed and no refresh changed the users, since start-up or since the last save that succeeded with a list no refresh had replaced: users.json lists exactly the users in memory whenever nothing is in flight, by ascending id once it has been saved |
| StoreMachine.DurableSinceSave | tiny-xboard/store.go:674-695 | in every run, from any save that succeeds with a list no refresh has replaced and until the next failed save or changing refresh, the same holds, whatever failed before |
| StoreMachine.SavesNeverGoBack | tiny-xboard/store.go:638-695 | in every run the users on disk are a save of some past user set or the file found at start-up, and they never become those of an earlier set if and only if no failed write restores an older backup over the live file |
| StoreMachine.StaleRestoreGoesBack | tiny-xboard/persist.go:76-84 | from every state with an older backup, saving an added user with a failing stat and promote and a working restore takes users.json back to the backup, while the user stays in memory |
| StoreMachine.RunKeepsInv | tiny-xboard/store.go:638-733 | the locking, dirty-flag, file-version and reachability invariants hold in every reachable state |
| StoreMachine.RefreshLosesUser | tiny-xboard/store.go:393-433 | for every state, user and list: a user added and successfully saved while a refresh that read the users before is under way is dropped from memory by it |
| StoreMachine.RefreshRestoresRead | tiny-xboard/store.go:393-433 | whatever other threads do between read and update, a refresh leaves the users it read; it changes nothing if and only if the users are those then, so a change made in between is undone; it goes on to set the dirty flag exactly when it dropped a counter, and to save exactly when it read the backup |
| StoreMachine.ReadIsCurrent | tiny-xboard/store.go:393-412 | in an undisturbed run with no save under way users.json lists exactly the users in memory |
| StoreMachine.RefreshOfCurrentFile | tiny-xboard/store.go:393-433 | a refresh that reads users.json then brings back the users of the moment it read, and so changes nothing if and only if the users are the same again when it applies them |
| UserDiff.DiffEqualsRebuild | cmd/mini-sb-agent/user_manager.go:97-169 | from the table of the old users the diff leaves an inbound as a rebuild would, on both kinds of inbound and also with shared secrets, if and only if it does not delete a secret that is still held without adding it again |
| UserDiff.AppliedTableDescribes | cmd/mini-sb-agent/user_manager.go:75-77 | after such a diff the inbound has exactly the secrets of the users: under a UUID its VLESS user with the Vision flow, under a password the id of a user who has it and its name, or the password where it has none |
| UserDiff.TableDescribes | cmd/mini-sb-agent/user_manager.go:124-142 | the same of any table a rebuild can give |
| UserDiff.UniqueSecretsSuffice | cmd/mini-sb-agent/user_manager.go:97-169 | with secrets unique within the old list the diff always equals the rebuild, also when users swap secrets |
| UserDiff.RightAfter | cmd/mini-sb-agent/user_manager.go:97-169 | key by key: after a diff the key is right if and only if it was added, or deleted with nobody left to hold it, or left alone and right before |
| UserDiff.TableIsUnique | cmd/mini-sb-agent/user_manager.go:144-169 | with unique secrets there is only one table a rebuild can give |
| UserDiff.RetryConverges | cmd/mini-sb-agent/user_manager.go:144-173 | a pass that failed after any partial effect, followed by a successful one with the same list, ends where an error-free pass would have |
| UserDiff.RetryWithAnotherList | cmd/mini-sb-agent/user_manager.go:144-173 | after a failed pass a successful one with another list ends at that list's table, whatever the failed pass did, if and only if it drops no secret still held and touches every key the failed pass could harm |
| UserDiff.FailedAddStays | cmd/mini-sb-agent/user_manager.go:144-173 | a failed pass can leave the secret of a user only its list named, and every successful pass to a list without that secret keeps it |
| UserDiff.SharedSecretIsLost | cmd/mini-sb-agent/user_manager.go:103-114 | two users sharing a secret, on either kind of inbound: removing one deletes the other's entry |
| UserDiff.AliasesResolve | cmd/mini-sb-agent/user_manager.go:83-95 | the aliases are exactly the non-empty secrets and names of listed users with a positive id, and each resolves to the last user listed with it |
| Identity.AuthenticatedIsResolved | cmd/mini-sb-agent/user_manager.go:83-95 | over every error-free run of lists whose users share no UUID, password or name: whoever authenticates on an inbound is resolved to the one user of the last list with that secret, and on Hysteria2 that is the id of the entry |
| Identity.AliasIsOwn | cmd/mini-sb-agent/user_manager.go:87-94 | then every UUID, password and name leads to its user |
| UserDiff.UsersByIdKeys | cmd/mini-sb-agent/user_manager.go:83-89 | the map has exactly the positive ids of the list, each under its own id |
| InboundRuns.RightUnlessDisturbed | cmd/mini-sb-agent/user_manager.go:144-173 | over any run of calls, some failing half-way: a key is right unless some failed call could harm it or some successful one dropped it, and none has put it right since |
| InboundRuns.ErrorFreeRunIsExact | cmd/mini-sb-agent/user_manager.go:97-173 | over any error-free run a key is right if and only if no dropped secret is still waiting to be added again or given up |
| InboundRuns.ErrorFreeRunIsRebuild | cmd/mini-sb-agent/user_manager.go:97-173 | over any error-free run of lists with unique secrets the inbound is after every call what a rebuild would make it |
| InboundRuns.SuccessRepairs | cmd/mini-sb-agent/user_manager.go:144-173 | after any number of failed calls with any lists, a successful call that drops nothing and touches every key they could harm makes the table right |
| InboundRuns.StrandedStays | cmd/mini-sb-agent/user_manager.go:144-173 | a secret on the inbound that no applied user holds stays there over every run, failures included, as long as no list names it |
| LimiterTable.ReconciledInSync | cmd/mini-sb-agent/user_manager.go:103-142 | after the loops the map holds exactly the limited users, each open at its rate, if and only if no limiter belonged to an id neither the old users nor the list knows |
| LimiterTable.ClosedStaysClosed | cmd/mini-sb-agent/user_manager.go:176-195 | over any run of calls, failures included: a limiter that left the map is never reopened, re-rated or handed out again |
| LimiterTable.LimitedUserKeepsLimiters | cmd/mini-sb-agent/user_manager.go:176-188 | a user limited by every list keeps the same two limiter objects at the current rate |
| LimiterTable.ErrorFreeRunInSync | cmd/mini-sb-agent/user_manager.go:79-174 | after any error-free run the map holds exactly the limited users, each open at its rate |
| LimiterRates.ErrorFreeRunLimits | cmd/mini-sb-agent/user_manager.go:64-69 | and each of these two limiters runs at the user's Mbit/s: eight times its rate is the limit times a million, and its burst is 25000 bytes per Mbit or one chunk |
| LimiterRates.NodeAtItsLimit | cmd/mini-sb-agent/user_manager.go:48-53 | over every run, failures included, both limiters of the node run at the node's Mbit/s, or limit nothing where there is no such limit |
| LimiterRates.LimitedTrafficIsBounded | counter/ratelimit.go:90-200 | over every interleaving of the connections that share a limiter of m Mbit/s, in every window at most 125000 * m bytes a second fall due, and one burst |
| LimiterTable.FailureOrphansLimiter | cmd/mini-sb-agent/user_manager.go:144-173 | after a failed call that introduced a limited user, its limiter stays for as long as no later list names that user |
| LimiterTable.FailureUnlimitsUser | cmd/mini-sb-agent/user_manager.go:103-173 | a failed call whose list does not limit a user takes its limiters although the user stays applied with its limit, and it has none until a call succeeds or limits it |
| LimiterTable.MapHoldsExactly | cmd/mini-sb-agent/user_manager.go:79-174 | over any run, failures included: a user has limiters if and only if some list limited it, or it had them at the start, and no call since has known its id |
| LimiterTable.LoopsReconcile | cmd/mini-sb-agent/user_manager.go:103-142 | the removal loop and the update loop, in whatever order they visit the maps, reconcile the limiters with the list |
| LimiterTable.RunKeepsInv | cmd/mini-sb-agent/user_manager.go:25-40 | all limiter objects in the map and the node's are distinct, and a pair's two objects share no bucket, in every run |
| UserManagers.Inbound.Update | cmd/mini-sb-agent/user_manager.go:145-168 | deletions then additions on one inbound: the diff on success, some partial diff on failure |
| UserManagers.UserManager.CollectRemoved | cmd/mini-sb-agent/user_manager.go:103-123 | the first loop lists exactly the non-empty UUIDs and passwords of users gone or changed in UUID, password or name, and closes exactly the limiters of users gone |
| UserManagers.UserManager.CollectAdded | cmd/mini-sb-agent/user_manager.go:124-142 | the second loop lists an entry for exactly the users that are new or differ and have the secret: with the Vision flow, or with the user's id and its name or else its password; and it opens, re-rates or closes every listed user's limiter |
| UserManagers.UserManager.ApplyBox | cmd/mini-sb-agent/user_manager.go:79-174 | users and aliases change only on success; limiters are reconciled in either case; on success every inbound has the diff applied and each entry it brought in says who its user is, on failure each has a partial diff |
| UserManagers.UserManager.Resolve | cmd/mini-sb-agent/user_manager.go:197-207 | an alias resolves to the printed id, anything else to itself |
| UserManagers.UserManager.ActiveIds | cmd/mini-sb-agent/user_manager.go:209-217 | exactly the printed ids of the current users, so every key a current alias resolves to is active |
| UserManagers.UserManager.DirectionalLimiters | cmd/mini-sb-agent/user_manager.go:222-238 | a new connection reads by the node's and the user's receive limiters and writes by their send limiters; it has the user's exactly while an alias leads to a pair in the map, and then both are open |
| Panel.PushTraffic | panelapi/client.go:107-128 | per numeric user the sum over the matching inbounds, under the parsed id |
| Panel.MatchesExactly | panelapi/client.go:91-106 | each known node type, in any letter case, reports exactly its one inbound; another type exactly the inbounds whose tag has it as a part, letter case aside |
| Panel.PayloadIsExact | panelapi/client.go:107-128 | with canonical keys the payload has for each id exactly the bytes under that id's key over the matching inbounds |
| Panel.PayloadLosesNothing | panelapi/client.go:116-125 | for any keys: the payload carries all bytes of the sums if and only if every key parses and no two parse to the same id |
| Panel.SentIsMatchCount | panelapi/multi.go:36-46 | all panels together are sent each inbound's bytes as often as panels match it |
| Panel.SentEqualsCommitted | panelapi/sync.go:52-80 | with every inbound matched once, all panels together are sent exactly what the flush commits, per user |
| Panel.MatchedOnceIsNeeded | panelapi/client.go:97-106 | for traffic on one inbound, sent equals committed if and only if exactly one panel matches it |
| Panel.DefaultPanelsMatchOnce | cmd/mini-sb-agent/main.go:336-348 | the default pair of panels matches the agent's two inbounds once each and no other tag |
| Panel.FetchUsers | panelapi/multi.go:12-34 | fails if and only if some panel fails, and otherwise is the concatenation with repeated positive ids left out |
| Panel.ConcatInOrder | panelapi/multi.go:12-34 | the lists follow each other in the order of the panels |
| Panel.MergedKeepsOrder | panelapi/multi.go:22-32 | the merged list has, in the same order, exactly the users without a positive id or with one not met before |
| Panel.MergedIdsAreUnique | panelapi/multi.go:12-34 | the merged list covers every positive id any panel returned, each once |
| Panel.FirstRecordWins | panelapi/multi.go:22-32 | each id keeps its first record, which is the one the user manager then applies |
| Counters.TrafficCounter.GetCounter | counter/counter.go:27-34 | the same user gets the same storage until it is removed, and then a new empty one |
| Counters.TrafficCounter.SnapshotDelta | counter/counter.go:46-58 | exactly the users with more bytes counted than committed in some direction, each with the two differences |
| Counters.TrafficCounter.CommitSnapshot | counter/counter.go:62-70 | each user's committed counters grow by exactly its part of the snapshot |
| Counters.TrafficCounter.RemoveAbsent | counter/counter.go:72-83 | exactly the users go that are absent and have as much committed as counted in both directions |
| Hooks.Hook.Tc | cmd/mini-sb-agent/main.go:54-64 | one counter per inbound tag, the empty tag being "default" |
| Hooks.Hook.SnapshotDelta | cmd/mini-sb-agent/main.go:99-108 | exactly what is pending per inbound and user, without empty inbounds |
| Hooks.Hook.CommitSnapshot | cmd/mini-sb-agent/main.go:109-115 | every storage's committed counters grow by exactly its part of the snapshot, and no other storage changes |
| Hooks.Hook.RemoveAbsent | cmd/mini-sb-agent/main.go:116-121 | over all inbounds exactly the absent and settled storages go |
| Hooks.Hook.Flush | panelapi/sync.go:52-80 | pushes if and only if a numeric user has something pending; an accepted push commits everything pending of numeric users, anything else commits nothing |
| Hooks.CommitDelta | panelapi/sync.go:98-112 | the commit is the delta's numeric users, each with its bytes, without empty inbounds |
| SyncMachine.RunConserves | counter/counter.go:27-83 | in every reachable state, per inbound and user: counted = committed + pending + lost with 0 <= committed <= counted, only numeric users are committed, every storage has committed <= counted, and a storage about to be removed holds only what was counted since it was found empty |
| Removal.RemovalLosesOnlyLateBytes | counter/counter.go:72-83 | from the first check of a storage to its deletion, the bytes lost under its key are at most those counted under it in between, in each direction: everything older was committed |
| Removal.ActiveStays | counter/counter.go:72-83 | over every run a storage leaves the map only by the deletion of a user the syncer does not hold active |
| Removal.SnapshotsWithTrafficArePushed | panelapi/sync.go:56-66 | a snapshot is pushed, as it is, exactly when it has bytes of a numeric user |
| Losses.LostExactly | counter/counter.go:72-83 | in every reachable state something has been lost under a key if and only if some step so far counted bytes under it into a deleted storage, or deleted a storage with bytes counted since it was checked |
| Losses.NoRemovalNoLoss | counter/counter.go:27-83 | a run in which no storage is found settled and absent loses nothing |
| Losses.LateBytesAreLost | counter/counter.go:72-83 | from every state with a removal under way, for every absent user with nothing pending and any bytes: counted between the second check and the deletion they are lost, exactly they |
| Losses.LossIsReachable | counter/counter.go:72-83 | for every key and any bytes there is a run from the start that loses them |
| SyncMachine.StepConserves | panelapi/sync.go:37-80 | each single load, store, push and commit keeps that balance while connections keep counting |
| SyncMachine.Nest | cmd/mini-sb-agent/main.go:99-108 | the nested map given to the panels has exactly the snapshot's entries |
| Delivery.ExactlyOnce | panelapi/sync.go:52-80 | over every run in which each inbound is matched once and numeric keys are canonical: received = committed + bytes delivered by failed flushes + bytes in flight, so received >= committed, and when idle they are equal if and only if no failed flush had delivered any |
| Delivery.DeliveryLaw | panelapi/sync.go:52-80 | over every run with canonical numeric keys, however inbounds are matched: received = the sum over inbounds of committed bytes times the number of panels matching, plus bytes delivered by failed flushes, plus bytes in flight |
| Delivery.WiringIsNeeded | panelapi/multi.go:36-46 | idle and with nothing resent, among wirings that match every committed inbound, or none twice: received equals committed if and only if every inbound with committed bytes is matched exactly once |
| Delivery.OnlyFailuresResend | panelapi/multi.go:36-46 | a run without a failed flush delivers nothing twice |
| Delivery.DeliveredIsCommitted | panelapi/sync.go:75-80 | what all panels accepted in a flush is exactly what it then commits, per id, each inbound as often as it is matched |
| FlushRetry.NextPushCarriesFailedOne | panelapi/sync.go:52-80 | a failed flush commits nothing, and every push until the next commit carries at least what the failed one did, in both directions, whatever is counted or removed in between |
| Progress.FlushCanFinish | panelapi/sync.go:52-80 | from every state in which the syncer is idle there is a run of its own steps after which everything counted for numeric users is committed and the storages are otherwise as they were |
| Crediting.PushCredits | tiny-xboard/api.go:135-150 | an accepted payload, encoded with decimal names and iterated in any order, adds to each known user's counters exactly its bytes and nothing to unknown ones |
| Crediting.CountersFollow | tiny-xboard/api.go:135-150 | over every run, with the server's users changing: a user's counters grow by at most what was received under its id, and by exactly that if and only if the server knew it whenever bytes of it arrived |
| Crediting.CommittedAreCredited | panelapi/sync.go:52-80 | with every inbound matched once, idle and nothing resent: the server's counters have grown by exactly what the agent committed if and only if the server knew the user whenever bytes of it arrived |
| Crediting.FirstCommitsAreStored | tiny-xboard/store.go:838-857 | for a user the server had no counter for and knew at every arrival, the stored counter is then exactly what the agent committed |

## Left out

* `float64` tokens are `real`, and the clock is a monotone nanosecond counter; a sleep lasts
  exactly as long as it was asked to.
* `int64` overflow of byte counters and of `mbpsToBytes`: byte counts are unbounded integers.
* HTTP, URLs, status codes, timeouts, tickers and signals: a push is a step that is accepted,
  lost, or arrives without its reply; a fetch yields a list or fails.
* JSON: a document is decoded as written or not at all, and documents over the size limit of
  `LoadFile` are not distinguished from undecodable ones. So the model does not capture that a
  document of the wrong shape is decoded in part before the backup is decoded into the same
  destination.
* The inbound library: an inbound is a table of entries by secret whose `DelUsers` and `AddUsers`
  may fail after any part of their effect; the order of entries inside it is not modelled.
* Limiter objects in the user manager are handles into a sequence of buckets rather than heap
  objects: identity and aliasing are kept, the Go pointers are not.
* `SyncMachine` keeps a storage as a value under its key, and detached storages in a sequence; a
  connection may count into any of them, so which connection holds which storage is not tracked.
* `StoreMachine` lets a refresh read any list from users.json, which covers operators editing the
  file, but it does not track such edits as saves.
* `RateLimitedConn.Read`, `ReadBuffer`, `WriteBuffer` and the packet connections: same limiter
  calls around library buffers.
* `Client.FetchUsers` (filling in empty names) and `LocalUsers`, which copy fields. Of the node
  configuration only which file it comes from is modelled, not its fields or their validation.
* `os.Stat` failing on an existing path is modelled for nodes.json and inside the write protocol;
  for the other loaders it fails only when there is no file.
* What `os.Stat` and the read of one refresh see is not tied to one state of the file: the
  modification time is a parameter of `Store.RefreshUsers` and not part of `StoreMachine`.
* Reality keys, certificates and tokens; configuration rendering; diagnostics.
* Panel.Client.MatchesInbound: lower-cases ASCII letters only, where the source lower-cases all
  of Unicode.
* Store.Store.AddUser: and the other methods that save have the store to themselves; what other
  threads do between the locked section and the save is in `StoreMachine`.
* Crediting.CountersFollow: a user deleted on the server between two pushes loses its counters,
  which a run for that user excludes; the panels are taken to be nodes of one server.
* UserManagers.UserManager.ApplyBox: the per-user build switch is fixed to enabled.
