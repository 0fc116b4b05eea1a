# Verified models of go-provision

This project models the parts of go-provision whose guarantees span several functions and
proves them for every input, every run or every reachable state. Each component follows the
form of its source: pure look-ups are functions, loops and handlers are methods on classes with
invariants, and code whose threads or goroutines interleave is a state machine over its atomic
steps, with every interleaving allowed.

| component | source | files |
|---|---|---|
| publish/subscribe | `pubsub/` | Collection, Updaters, Endpoints, Session, Protocol, Replication, Progress, Publication, Wire |
| proxy auto-configuration pool | `zedpac/` | ItemQueue, ContextPool, ThreadPool, PoolGuarantees, Callbacks, Histories, JobHistory, CallbackHistory |
| A/B base OS update | `cmd/baseosmgr/`, `zboot/` | Zboot, Storage, Images, ImageRules, OsUpdate, OsEvents, UpdateRules, BaseOsMgr, BaseOsRuns |
| device port configurations | `devicenetwork/` | PortConfig, Compression, PortConfigList, Dhcp, DeviceNetwork, NetworkRules, NetworkRuns |
| line reader and numbers | `netclone/parse.go` | LineReader, Fields, Numbers |

`dafny verify dfyconfig.toml` checks everything.

## What is proved

**Publish/subscribe.** Publishers, the shared notification list with its one-slot channels, the
goroutine that serves each connection, the socket and the subscriber are one state machine; a
store and its notification are separate steps, and the list is visited one entry at a time. In
every run no change is lost, what is pending leads a peer to the server's view, a session starts
with one atomic snapshot, and a drained peer agrees with the publication, also after reconnects.
What the publication holds is what the last call on each key wrote, so that is what a drained peer
has. Progress is proved as well: every step that finishes something lowers a rank, some such step
is possible until the connection has settled, and so it converges; a newcomer ends with exactly
what was written last. The invariant is carried by a session-level invariant over what is pending,
independent of how that is spread over the server, the socket and the reader.

**Thread pool.** The linked queue refines a sequence; the counters, the contexts and the order
of the jobs are right in every run; jobs are stranded exactly when no thread is alive and none is
created. The flag that the main loop reads without the lock is split into single reads and writes,
and exactly one wakeup is issued or owed whenever callbacks wait. Histories that are read off the
steps alone show that every job and every callback that was handed in is carried out once: each
thread in the order in which it took them, and callbacks altogether in the order of the queue as
long as no thread drains while another still holds some.

**Base OS update.** `OsUpdate.TurnOf` says exactly what an update of one status does to the
partitions, to what is published and to the disk, and the handlers are proved to do that; what
that means for a version that runs, that failed, that comes too early or that is installed is said
without it in UpdateRules and ImageRules. For every event `OsEvents.Handled` says what it does to
the whole manager. Over every run of events, each handled as it should be to its end or cut short
by a loss of power between any two writes of the partition table, every table there ever was is
safe to boot if and only if no handled deletion gave up the fallback of a version under test; every
image write obeys the installation rules, and no version that failed is written again unless what
is published is out of date; the published partition status is true; and every download reference
count is the number of entries that hold a reference.

**Device network.** Over every run of updates, deletions and timers: every event changes the list
as it should and leads to the tests it should, each of the entry that the cyclic search from the
one before finds; an entry that passes is the one in use; the stamps in the list stay apart, every
list is in order if and only if every late result of a retest fitted in where it was written, a
verification waits no more often than it may, and exactly the DHCP clients run that the ports last
applied ask for, if no configuration names an interface twice and no interface comes or goes. What
compression keeps and what it makes of the index is exact, and so is the cyclic search.

**netclone.** The line reader refines splitting at newlines, field splitting returns the maximal
runs, and printed numbers are read back.

## Where the code does not do what one would expect

The code is modelled as it is. Each finding has an exact condition or an input that shows it.

- `compressDPCL` says that it adjusts the index, but compares the lowered index with original
  positions. The index denotes the entry that was in use if and only if `Compression.IndexSafe`
  holds (`IndexSurvives`, and `Context.FollowCurrent` for an update of the list). With four failed
  entries ahead of it the index leaves a list that is in order (`IndexCanLeaveTheList`). Up to two
  are always fine (`FewDropsAreSafe`).
- Compression is documented to leave at most two entries from the controller. It leaves more if and
  only if two behind the first one have not failed, or are taken for the one in use
  (`MoreThanTwoExactly`); three that were never tested all stay (`ThreeCanStay`).
- `removePortConfig` ignores the version: `RemovesTheRightOne` gives the exact condition,
  `RemovesTheWrongVersion` an input.
- A test result that is written back after its entry was re-stamped can break the order of the
  list: `WrittenBackSorted` gives the exact condition, `Context.Run` the one for a whole run, and
  `NetworkRuns.LateRun` is a run. Such a result is written if and only if a retest ends without
  waiting while the entry under test is listed by its content only
  (`Context.VerifyDevicePortConfig`).
- An update with an unchanged priority forgets the test results of the entry in favour of its own
  (`SameStampForgets`); only a new priority keeps them (`RestampedKeepsHistory`).
- A configuration that names an interface twice can start a DHCP client on top of another: exactly
  if two of its ports collide (`Dhcp.Collides` in `Clients.UpdateDhcpClient`).
- No DHCP client is told when an interface appears or vanishes: the clients that run are still
  those asked for exactly if no applied port is concerned (`Clients.ChangeHost`).
- `getNextTestableDPCIndex` goes back to 0 when only its last probe hits.
- Deleting the sole entry that is in use ends in a run-time error
  (`DoUpdatePortConfigList`, exactly when the outcome is `Panic`).
- `updatersRemove` leaves as many empty entries in the list as the list had elements. They reach
  no channel, so this is harmless (`RemovalKeepsOthers`), but the list grows.
- Deleting a base OS configuration marks the other partition unused even while the running
  version is under test, which takes away the only fallback: exactly in the states that
  `LosesFallback` describes (`RemovalExactly`, `Manager.Handle`). `FallbackRun` is such a run.
- The state of a list of images is no minimum: a later image can overwrite what an earlier one
  lacks (`ReachesExactly`). A base OS image that the verifier has not delivered is written if and
  only if an installation is reached with one beyond the configuration or ahead of an image that is
  installed already (`UnverifiedExactly`). `UnverifiedRun` is a run in which every configuration is
  accepted: the image is downloaded, and then the configuration loses its images.
- The published version of the other partition is out of date after an installation if and only if
  it leaves an image behind and the last one it writes brings another version (`StaleExactly`).
  `StaleRun` is such a run: a configuration with two images is refused, but a report of the
  downloader moves its status on.
- `checkInstalledVersion` never reports a mismatch, because its return is commented out; the
  branch that handles one is not reachable for an assigned partition.
- `doBaseOsUninstall` looks for the downloader's report under the checksum, not the safename.
- Two images with one checksum are taken for one by the downloader if and only if their names differ
  in slashes and blanks only (`SafenamesCollideExactly`).
- The status of a deleted certificate object stays published, only its references are given up.
- `MaybeRemoveVerifierConfigSha256` gives a reference back to any entry with the checksum, which
  need not be the one it was taken from; the count of an entry without references wraps around
  (`ReleaseUndoesAsking`).
- `threadpool_schedule` leaves the job in the queue also when it reports a failure, and reports none
  if no thread may exist (`FailureReported`).

## Model

| member | source | states |
|---|---|---|
| `Collection.ApplyAllConcat` | pubsub/pubsub.go:1092-1152 | applying two batches of messages one after the other is applying them together |
| `Collection.MessagesMoveKeys` | pubsub/pubsub.go:666-691 | the messages for a list of keys move the receiver to the view on those keys and on no other |
| `Collection.DiffCatchesUp` | pubsub/pubsub.go:403-441 | a receiver that has caught up with one view catches up with the next by applying any diff of the two, whatever it held at first |
| `Updaters.List.Remove` | pubsub/pubsub.go:88-104 | all entries of the channel go, with the zero padding of the new list; reports exactly whether there was one |
| `Updaters.List.Notify` | pubsub/pubsub.go:108-124 | the channels with a token are those that had one and those that match the name |
| `Updaters.RemovalKeepsOthers` | pubsub/pubsub.go:88-104 | for every other connection and every name, a notification reaches it after a removal if and only if it did before |
| `Updaters.AdditionReaches` | pubsub/pubsub.go:81-86 | a channel that is added is reached by notifications of its name, and nothing else changes about who is reached |
| `Updaters.RemovalUndoesAddition` | pubsub/pubsub.go:81-104 | removing a channel that was added reaches exactly the connections that were reached before |
| `Endpoints.Server.LookupSlave` | pubsub/pubsub.go:443-451 | finds what the peer was last sent under a key, and nothing else |
| `Endpoints.Server.DetermineDiffs` | pubsub/pubsub.go:403-441 | the local view becomes the snapshot and the keys are exactly the differences, each once, deletions first |
| `Endpoints.Server.Serialize` | pubsub/pubsub.go:666-691 | writes one update or delete per key, in order |
| `Endpoints.Subscription.HandleModify` | pubsub/pubsub.go:1154-1182 | the item is stored and no other changes |
| `Endpoints.Subscription.HandleDelete` | pubsub/pubsub.go:1184-1205 | the item is gone and no other changes |
| `Endpoints.Subscription.ProcessChange` | pubsub/pubsub.go:1092-1152 | is the specification `Apply` on the collection, and sets the two flags for good |
| `Session.QueueDiff` | pubsub/pubsub.go:379-388 | queueing the messages for a later snapshot keeps the session invariant |
| `Session.QueueFirst` | pubsub/pubsub.go:343-358 | queueing the first snapshot with "complete" behind it establishes what "complete" promises |
| `Session.Dequeue` | pubsub/pubsub.go:1092-1152 | processing the next message keeps the session invariant |
| `Session.Truncate` | pubsub/pubsub.go:346-358 | a failed write loses what was not written and nothing that was |
| `Session.SendKeeps` | pubsub/pubsub.go:666-691 | writing a message changes nothing about what is pending |
| `Session.StepKeeps` | pubsub/pubsub.go:306-400 | every step of a session, whatever it sees of the publication, keeps the session invariant |
| `Session.AtComplete` | pubsub/pubsub.go:726-731 | a peer about to process "complete" holds the first snapshot over what it began with |
| `Protocol.PublisherKeeps` | pubsub/pubsub.go:509-534 | a publisher's step that forgets no duty loses no update |
| `Protocol.CommitKeeps` | pubsub/pubsub.go:509-534 | the change of a call, whatever it is and apart from its notification, keeps the global invariant: who is behind then has a notification coming |
| `Protocol.TakeLockKeeps` | pubsub/pubsub.go:108-113 | at the start of a notification every registered connection that is behind is still ahead in the list |
| `Protocol.NotifyNextKeeps` | pubsub/pubsub.go:113-123 | a channel whose slot is full may be skipped, and one that is passed holds a token |
| `Protocol.OfSessionKeeps` | pubsub/pubsub.go:336-400 | every step of a connection, with registration, removal and consumption of the token, keeps the global invariant |
| `Protocol.ReconnectKeeps` | pubsub/pubsub.go:952-990 | a subscriber that takes its collection to a new connection keeps the global invariant |
| `Protocol.StepKeeps` | pubsub/pubsub.go:306-400 | every step of every party keeps the global invariant |
| `Protocol.InvOverRuns` | pubsub/pubsub.go:306-400 | the global invariant holds in every state of every run |
| `Replication.NoLostUpdate` | pubsub/pubsub.go:336-399 | in every run, a connection behind its publication is registered and has a token, or some publisher has yet to give it one |
| `Replication.RemovalFindsItsChannel` | pubsub/pubsub.go:88-104 | in every run, the removal of a connection's channel finds it, so its fatal error is not reached |
| `Replication.PendingLeadsToView` | pubsub/pubsub.go:666-691 | in every run, applying all that is pending yields the server's view, over what the peer began with |
| `Replication.DrainedAgrees` | pubsub/pubsub.go:924-948 | nothing pending and no token due means that the peer agrees with the publication |
| `Replication.Replicates` | pubsub/pubsub.go:306-400 | in every run, a drained peer has every published item, every extra key is one it held at its connection and that no snapshot of the session contained, and it knows of a restart |
| `Replication.FirstIsPast` | pubsub/pubsub.go:341-344 | the first snapshot of a session is the whole collection at one moment of that session |
| `Replication.CompleteMeansOneSnapshot` | pubsub/pubsub.go:343-358 | in every run, a fresh peer that processes "complete" holds exactly the collection of one earlier moment |
| `Progress.FinishingLowers` | pubsub/pubsub.go:306-400 | every step that finishes something lowers a lexicographic rank |
| `Progress.DiffExists` | pubsub/pubsub.go:403-441 | any two collections have a diff, so a snapshot is always possible |
| `Progress.PublisherCanMove` | pubsub/pubsub.go:108-124 | while a call is under way some publisher can take a step: the lock of the list is never held for good |
| `Progress.FinishingPossible` | pubsub/pubsub.go:306-400 | until a connection has settled, a publisher or the connection can take a finishing step |
| `Progress.Converges` | pubsub/pubsub.go:306-400 | from every state of every run a connection that is not given up settles by finishing steps alone, in agreement |
| `Publication.SkippedExactly` | pubsub/pubsub.go:509-534 | a call is skipped if and only if it would leave the items and the flag as they are |
| `Publication.CommitPublishes` | pubsub/pubsub.go:509-534 | publishing puts the value under its key and touches no other, unpublishing takes the key away and touches no other, a signal sets the flag and touches no item; all else stays |
| `Publication.OnlyCommitsPublish` | pubsub/pubsub.go:306-400 | no other step of any party changes an item or the flag |
| `Publication.CheckedIsBegun` | pubsub/pubsub.go:509-534 | in every run, what a thread is about to change is what it was last called for |
| `Publication.HoldsLastWritten` | pubsub/pubsub.go:509-617 | in every run and at every moment the publication holds under each key what the last call on that key wrote, or what it began with |
| `Publication.HoldsLastFlag` | pubsub/pubsub.go:619-664 | in every run the flag is what the last call made it |
| `Publication.DrainedHasWritten` | pubsub/pubsub.go:306-400 | in every run, a drained peer has under every published key what was last written there, exactly that if it began with nothing, and knows of a restart |
| `Publication.ConvergesToWritten` | pubsub/pubsub.go:306-400 | every run can be continued by finishing steps alone until a connection has settled and its peer has what was last written |
| `Publication.NewcomerHasWritten` | pubsub/pubsub.go:306-400 | whenever a new subscriber connects, finishing steps alone bring it to hold exactly what was last written under every key |
| `Wire.Base64RoundTrip` | pubsub/pubsub.go:693-717 | base64, section 4 of RFC 4648, is read back for every byte string and contains no space |
| `Wire.SplitAtFirstSpace` | pubsub/pubsub.go:997-1001 | a word without a space ends at the next space |
| `Wire.MessageRoundTrip` | pubsub/pubsub.go:924-1087 | every message is what comes out of two rounds of splitting and the decoding, for every key and value; the greeting is skipped |
| `ItemQueue.Queue.Enqueue` | zedpac/threadpool.c:308-317 | the list with its first and last pointers refines appending |
| `ItemQueue.Queue.Dequeue` | zedpac/threadpool.c:199-212 | refines taking the first of a sequence, or nothing if and only if it is empty |
| `ItemQueue.Queue.Detach` | zedpac/threadpool.c:378-387 | hands over the whole linked list and leaves a valid empty queue |
| `ItemQueue.RunAll` | zedpac/threadpool.c:389-399 | walks a detached list and calls every closure once, in order |
| `ItemQueue.RunMix` | zedpac/threadpool.c:199-400 | after any mix of the three, what was taken and what is queued is what was put in, in order |
| `ContextPool.PopContext` | zedpac/pac.c:257-275 | takes the context of the first full slot, or fails if and only if there is none |
| `ContextPool.PushContext` | zedpac/pac.c:277-294 | fills the first free slot, or fails if and only if there is none |
| `ContextPool.StockUpdate` | zedpac/pac.c:257-294 | how one slot changes the number of contexts in the pool |
| `ContextPool.SearchFails` | zedpac/pac.c:257-294 | the two searches fail if and only if the pool is empty, or full |
| `ThreadPool.ScheduleKeeps` | zedpac/threadpool.c:319-346 | scheduling a job keeps counters, order and contexts |
| `ThreadPool.EnterKeeps` | zedpac/threadpool.c:222-254 | taking a job, waiting or dying at the top of a worker's loop keeps them |
| `ThreadPool.WakeUpKeeps` | zedpac/threadpool.c:243-265 | so does the end of the wait, for whatever reason it ends |
| `ThreadPool.TakeContextKeeps` | zedpac/pac.c:296-302 | a worker finds a context, and has it alone |
| `ThreadPool.BringBackKeeps` | zedpac/pac.c:302-312 | a worker finds a free slot for the context it brings back |
| `ThreadPool.StepKeeps` | zedpac/threadpool.c:214-346 | every step keeps the invariant of the pool |
| `ThreadPool.InvOverRuns` | zedpac/threadpool.c:214-346 | it holds in every state of every run |
| `PoolGuarantees.CountersBounded` | zedpac/threadpool.c:214-286 | in every run the counters are the numbers of live and of waiting workers, and idle <= threads <= maxthreads |
| `PoolGuarantees.ContextsConserved` | zedpac/pac.c:390-404 | in every run the contexts in the pool and with workers add up to one per possible thread, and neither assertion is reached |
| `PoolGuarantees.ContextsExclusive` | zedpac/pac.c:296-312 | in every run the context a worker evaluates with is not in the pool and no other worker has it |
| `PoolGuarantees.FirstInFirstOut` | zedpac/threadpool.c:319-346 | in every run the jobs taken and the jobs waiting are the jobs scheduled, in order |
| `PoolGuarantees.DeathOnlyWhenIdle` | zedpac/threadpool.c:225-265 | a worker dies only when nothing is scheduled |
| `PoolGuarantees.SchedulingStrands` | zedpac/threadpool.c:319-346 | a job is stranded by its scheduling if and only if no thread is alive and none is created |
| `PoolGuarantees.FailureReported` | zedpac/threadpool.c:319-346 | a failure is reported if and only if no thread is alive and creating the one that may exist fails; the job is queued and stranded then; it is stranded without a report if and only if none may exist |
| `PoolGuarantees.WorkersStrandNothing` | zedpac/threadpool.c:214-265 | no other step strands a job |
| `PoolGuarantees.NoStrandedWork` | zedpac/threadpool.c:214-346 | in every run in which creating a thread succeeds when none is alive, a waiting job means a live worker |
| `PoolGuarantees.WorkerReachesQueue` | zedpac/threadpool.c:214-265 | any live worker gets to the oldest job by its own steps |
| `PoolGuarantees.QueueCanBeDrained` | zedpac/threadpool.c:214-265 | from every state with a live worker all that was scheduled can be taken without a further thread |
| `JobHistory.TakesWhatWasScheduled` | zedpac/threadpool.c:199-346 | in every run the jobs taken out of the queue, with those in it, are those the calls asked for, in that order |
| `JobHistory.DoesWhatItTook` | zedpac/pac.c:296-312 | in every run each worker does the jobs it took, once each and in order; at most the last is still in its hand |
| `JobHistory.EverythingIsDone` | zedpac/threadpool.c:199-346 | when the queue is empty and no worker has a job in hand, the jobs done are those that were scheduled, each as often |
| `Callbacks.OwingMoves` | zedpac/threadpool.c:348-371 | who owes a wakeup changes only through the call that moves |
| `Callbacks.KnowsKept` | zedpac/threadpool.c:358-366 | what a call has seen of the flag and the queue stays true while it holds the lock |
| `Callbacks.StepKeeps` | zedpac/threadpool.c:348-400 | every single read and write keeps the invariant of flag, lock, wakeups and queue |
| `Callbacks.InvOverRuns` | zedpac/threadpool.c:348-400 | it holds in every state of every run |
| `Callbacks.ClearFlagMeansEmpty` | zedpac/threadpool.c:124-125 | in every state of every run, also inside the critical sections, a clear flag means an empty queue |
| `Callbacks.ExactlyOneWakeup` | zedpac/threadpool.c:348-387 | in every run, while callbacks are queued, exactly one wakeup has been issued or is owed since the last drain |
| `Callbacks.DrainedInOrder` | zedpac/threadpool.c:373-400 | in every run callbacks leave the queue once each and in order; that they are called is said below |
| `CallbackHistory.QueuesWhatItWasHanded` | zedpac/threadpool.c:348-371 | in every run each thread puts into the queue what it was handed, in order |
| `CallbackHistory.TakesWhatWasQueued` | zedpac/threadpool.c:373-387 | in every run what leaves the queue, with what is in it, is what was put in, in order |
| `CallbackHistory.CallsWhatItTook` | zedpac/threadpool.c:373-400 | in every run each thread calls what it took out of the queue, in order, and still holds the rest |
| `CallbackHistory.CalledOnceEach` | zedpac/threadpool.c:373-400 | in every run, however drains overlap, a closure is called by a thread as often as the thread took it, less those it still holds |
| `CallbackHistory.EverythingIsCalled` | zedpac/threadpool.c:348-400 | when every call has returned and the queue is empty, the closures called are those handed over, each as often |
| `CallbackHistory.CalledInOrder` | zedpac/threadpool.c:373-400 | in every run without a drain while another thread holds closures, what was called, what is held and what is queued is what was put into the queue, in order |
| `Zboot.BootKeepsSafe` | zboot/zboot.go:378-412 | the boot loader takes a safe table to a safe one, and a version under test always has a fallback |
| `Zboot.SafeCanBoot` | zboot/zboot.go:378-412 | a device with a safe table can boot |
| `Zboot.UnusedIsSafeExactly` | zboot/zboot.go:334-337 | marking the other partition unused is safe if and only if the running one is active |
| `Zboot.UpdatingIsSafeExactly` | zboot/zboot.go:329-332 | so is marking it for an update |
| `Zboot.SafeHistory` | zboot/zboot.go:216-228 | where every table runs something bootable, all are safe if and only if each has an active partition |
| `Zboot.Device.SetPartitionState` | zboot/zboot.go:216-228 | changes one state and records the table, which stays safe if and only if the write leaves the running partition bootable and some partition active |
| `Zboot.Device.MarkCurrentPartitionStateActive` | zboot/zboot.go:380-412 | the final table in each case, and the one table in between |
| `Zboot.Device.Rewind` | zboot/zboot.go:349-412 | if every table was safe, every table that a loss of power leaves is safe and the device can boot, with anything in the partition that its last table does not run; active and bootable tables likewise |
| `Zboot.Device.WriteToPartition` | zboot/zboot.go:349-376 | refused if and only if the target is the running partition or has no device; fatal if and only if the copy fails, which leaves something else there; the running version is untouched |
| `Storage.SameRefsConserved` | cmd/baseosmgr/handlebaseos.go:762-768 | publishing a status with the same references keeps every count true |
| `Storage.NoRefsConserved` | cmd/baseosmgr/handlebaseos.go:770-780 | a status without references may come and go |
| `Storage.TakeRef` | cmd/baseosmgr/handledownload.go:268-288 | one more reference and one more in the count keep every count true |
| `Storage.RefIsCounted` | cmd/baseosmgr/handledownload.go:148-167 | an entry that holds a reference has a count of at least one, so the unsigned decrement does not wrap |
| `Storage.DropRef` | cmd/baseosmgr/handlebaseos.go:642-657 | one reference less and one less in the count keep every count true |
| `Storage.ZeroCounts` | cmd/baseosmgr/handledownload.go:107-133 | counts of zero may come and go |
| `Storage.CountFollows` | cmd/baseosmgr/handledownload.go:268-288 | a count that goes up exactly where an entry takes a reference keeps every count true |
| `Images.ReachesExactly` | cmd/baseosmgr/handledownload.go:197-361 | the state a list of images comes to reaches a level if and only if every image short of it has a later one that overwrites it |
| `Images.SummaryFails` | cmd/baseosmgr/handledownload.go:197-361 | a failure, a missing datastore, a wait for certificates or a change is reported if and only if some image has one |
| `Images.UnchangedSameRefs` | cmd/baseosmgr/handledownload.go:260-290 | where nothing is reported as changed no reference was taken |
| `Images.GoesAheadExactly` | cmd/baseosmgr/handleverifier.go:212-281 | verification lets an installation go ahead if and only if no report fails and every image without a good report has an installed one behind it |
| `Images.UnprovenExactly` | cmd/baseosmgr/handleverifier.go:212-281 | an image that the verifier has not delivered is then up for installation if and only if one lies beyond the configuration or ahead of an installed one |
| `Images.WriteInstalls` | cmd/baseosmgr/handledownload.go:385-488 | every write is of an image that is ready, has a file and a place |
| `Images.InstallWrites` | cmd/baseosmgr/handledownload.go:385-488 | every such image is written |
| `Images.UnverifiedWriteExactly` | cmd/baseosmgr/handledownload.go:411-488 | an undelivered image is written if and only if one is installed that the verifier does not report delivered |
| `Images.RenewsExactly` | cmd/baseosmgr/handledownload.go:385-488 | an installation changes the version if and only if the last image it writes brings another one |
| `ImageRules.FetchedShowsReply` | cmd/baseosmgr/handledownload.go:267-347 | an image with a source shows what the downloader says of it and holds a reference; it asks for verification exactly when it is downloaded and its certificates are there |
| `ImageRules.NoSourceStays` | cmd/baseosmgr/handledownload.go:267-285 | an image without a datastore says so and is otherwise as it was |
| `ImageRules.DeliveredNeedsNoDownload` | cmd/baseosmgr/handledownload.go:230-266 | an image that the verifier has delivered is delivered, with a reference to the verifier and no new one to the downloader |
| `ImageRules.FetchFailsExactly` | cmd/baseosmgr/handledownload.go:197-361 | the look at the downloads fails, waits for certificates or misses a datastore if and only if some image does, said of the reports themselves |
| `ImageRules.FailureHoldsBack` | cmd/baseosmgr/handlebaseos.go:309-362 | an error of the downloader or a missing datastore makes the status a failed one, and nothing of the partitions moves |
| `ImageRules.MissingCertificatesHoldBack` | cmd/baseosmgr/handlebaseos.go:309-362 | missing certificates hold the status back without an error |
| `ImageRules.SingleImagePasses` | cmd/baseosmgr/handlebaseos.go:309-362 | a configuration with one image passes if and only if the image is installed, or has arrived with its certificates and the verifier has delivered it |
| `ImageRules.SafenamesCollideExactly` | types/types.go:36-46 | a key contains no slash of the name; two images with one checksum have one key if and only if their names differ in slashes and blanks only |
| `OsUpdate.FreshIsExact` | cmd/baseosmgr/handlebaseos.go:979-995 | a published status that is true and whose other version is up to date is exactly what the partitions are |
| `OsUpdate.TurnMoves` | cmd/baseosmgr/handlebaseos.go:139-201 | an update changes the partitions if and only if it gets to the installation, and then as an overwrite of the other one does |
| `OsUpdate.TurnHeldBack` | cmd/baseosmgr/handlebaseos.go:309-362 | a status that does not pass is only looked at |
| `OsUpdate.TurnKeeps` | cmd/baseosmgr/handlebaseos.go:121-307 | every update keeps the tables safe and what is published true, leaves the running version alone and writes only what may be written |
| `OsUpdate.OverwriteIsGood` | cmd/baseosmgr/handlebaseos.go:213-307 | every write of an overwrite goes to a partition that was no fallback and is marked, while the running one is active |
| `OsUpdate.OverwriteKeepsView` | cmd/baseosmgr/handlebaseos.go:261-306 | an overwrite leaves what runs running, the table safe and what is published true |
| `OsUpdate.StaleExactly` | cmd/baseosmgr/handlebaseos.go:267-306 | the published version is out of date after an overwrite if and only if some image is neither installed nor written and the last one written brings another version than the partition had |
| `OsUpdate.UnverifiedExactly` | cmd/baseosmgr/handlebaseos.go:121-307 | an update writes an undelivered image if and only if it gets to the installation with one that can be written, beyond the configuration or ahead of an installed one |
| `UpdateRules.ActivatedExactly` | cmd/baseosmgr/handlebaseos.go:70-119 | where what is published is true, a status is activated if and only if it is assigned to the partition that runs, and that is active |
| `UpdateRules.RunningIsDone` | cmd/baseosmgr/handlebaseos.go:139-201 | the version that runs is marked installed where it runs, with all its images, and the partitions stay |
| `UpdateRules.MismatchFails` | cmd/baseosmgr/handlebaseos.go:320-336 | images that do not belong to the configuration any more are an error and move nothing |
| `UpdateRules.FailedIsRefused` | cmd/baseosmgr/handlebaseos.go:375-445 | where what is published is true and up to date, a version that was tried in the other partition and not confirmed is not installed again: nothing is written and the status is a failed one |
| `UpdateRules.TooEarlyIsRefused` | cmd/baseosmgr/handlebaseos.go:375-445 | while a version is under test, or the other partition is the fallback, the status waits for that and nothing is written; it is an error exactly if the other partition holds another version |
| `UpdateRules.InstallsExactly` | cmd/baseosmgr/handlebaseos.go:139-307 | the partitions change if and only if another version is to be activated, its images match and pass, nothing is under test, and the other partition is no fallback and does not hold the version as a failed one |
| `UpdateRules.InstalledAsksForReboot` | cmd/baseosmgr/handlebaseos.go:261-306 | once every image is written the status is installed and asks for a reboot, the partition is marked for it and its version is published; with an image left behind no reboot is asked for |
| `UpdateRules.ImageIsAskedFor` | cmd/baseosmgr/handledownload.go:267-290 | an image with a source has a reference against the downloader after the update |
| `UpdateRules.MissingStoreIsAwaited` | cmd/baseosmgr/baseosmgr.go:485-529 | a status that lacks a datastore is one that the arrival of that datastore moves on |
| `UpdateRules.RemovalFrees` | cmd/baseosmgr/handlebaseos.go:578-599 | removing a status marks the other partition unused if and only if that holds its version, and else changes nothing |
| `BaseOsMgr.Manager.PublishZbootPartitionStatus` | cmd/baseosmgr/handlebaseos.go:979-995 | what is published of the partition is true afterwards, with its version; what is published of the other one is as true as it was |
| `BaseOsMgr.Manager.CreateDownloaderConfig` | cmd/baseosmgr/handledownload.go:41-87 | one more reference, from none if there was no entry |
| `BaseOsMgr.Manager.RemoveDownloaderConfig` | cmd/baseosmgr/handledownload.go:148-167 | one reference less; from zero it would wrap around |
| `BaseOsMgr.Manager.LookupVerificationStatusAny` | cmd/baseosmgr/handleverifier.go:197-210 | the report for the safename if there is one, else some report with the checksum, and none if and only if there is neither; with the name it is under |
| `OsEvents.ReleaseUndoesAsking` | cmd/baseosmgr/handleverifier.go:52-158 | asking for a reference and giving it back undo each other on one entry; giving back raises the count if and only if there was none |
| `BaseOsMgr.Manager.MaybeRemoveVerifierConfigSha256` | cmd/baseosmgr/handleverifier.go:136-158 | some entry with the checksum loses a reference, and nothing happens if and only if there is none |
| `BaseOsMgr.Manager.CheckDownload` | cmd/baseosmgr/handledownload.go:197-358 | the image afterwards, its effect on the whole and its reference in every case; the count goes up exactly if it takes one |
| `BaseOsMgr.Manager.CheckStorageDownloadStatus` | cmd/baseosmgr/handledownload.go:189-361 | every image, the state, the errors and the change of the whole are as the reports say, and all counts are true for the entries as they are then |
| `BaseOsMgr.Manager.CheckStorageVerifierStatus` | cmd/baseosmgr/handleverifier.go:212-281 | every image is as its report says, references are kept, and it ends delivered without a failure if and only if the verification lets the installation go ahead |
| `BaseOsMgr.Manager.InstallImage` | cmd/baseosmgr/handledownload.go:411-488 | writes the image if and only if it is ready, its file is there and it has a place; what the write is, and when it is fatal |
| `BaseOsMgr.Manager.InstallDownloadedObjects` | cmd/baseosmgr/handledownload.go:385-406 | exactly the images that can be installed are, with their writes and the version that is left; reports exactly whether all are |
| `BaseOsMgr.Manager.PrepareOther` | cmd/baseosmgr/handlebaseos.go:261-265 | the other partition is marked and published before anything is written |
| `BaseOsMgr.Manager.WriteOther` | cmd/baseosmgr/handlebaseos.go:267-306 | the images, the writes and the version as installed; version and status are published if and only if all are there |
| `BaseOsMgr.Manager.DoBaseOsActivate` | cmd/baseosmgr/handlebaseos.go:213-307 | what becomes of status, tables, writes and publications in every case, the refusals and the request for a reboot included |
| `BaseOsMgr.Manager.BaseOsGetActivationStatus` | cmd/baseosmgr/handlebaseos.go:70-119 | activated if and only if the version runs and is more than a test, and what else that changes |
| `BaseOsMgr.Manager.ValidateAndAssignPartition` | cmd/baseosmgr/handlebaseos.go:375-445 | said of what is published: goes on if and only if the other partition does not hold the version as a failed one, nothing is under test and the other partition is no fallback; too early if and only if one of the last two is the reason; assigns the other partition and no other |
| `BaseOsMgr.Manager.ImagesMatch` | cmd/baseosmgr/handlebaseos.go:320-336 | the images of a status still belong to the configuration if and only if names and checksums agree |
| `BaseOsMgr.Manager.DoBaseOsInstall` | cmd/baseosmgr/handlebaseos.go:309-362 | refused, unmatched, waiting or passed exactly as the partitions and the reports say, for any number of images; the counts are true |
| `BaseOsMgr.Manager.DoBaseOsStatusUpdate` | cmd/baseosmgr/handlebaseos.go:139-201 | is `TurnOf` on status, tables, writes and publications; references it takes are counted and reported as a change |
| `BaseOsMgr.Manager.BaseOsHandleStatusUpdate` | cmd/baseosmgr/handlebaseos.go:121-137 | is a turn, keeps the whole invariant and touches no other status |
| `BaseOsMgr.Manager.DropReferences` | cmd/baseosmgr/handlebaseos.go:640-665 | all references are gone, all counts are true and none has wrapped |
| `BaseOsMgr.Manager.GiveUpOther` | cmd/baseosmgr/handlebaseos.go:578-599 | marks the other partition exactly if it holds the removed version; the fallback is lost exactly in the states described |
| `OsEvents.RemovalExactly` | cmd/baseosmgr/handlebaseos.go:578-599 | a removal leaves no active partition if and only if it gives up the fallback of a version under test |
| `BaseOsMgr.Manager.DoBaseOsUninstall` | cmd/baseosmgr/handlebaseos.go:566-678 | what the partitions become; no references remain and the counts are true; the status may go if and only if the downloader has no report under a checksum |
| `BaseOsMgr.Manager.RemoveBaseOsStatus` | cmd/baseosmgr/handlebaseos.go:517-556 | what the partitions become, exactly when the fallback is lost and exactly when the status stays; keeps the whole invariant |
| `BaseOsMgr.Manager.PublishZbootPartitionStatusAll` | cmd/baseosmgr/handlebaseos.go:970-977 | what is published of both partitions is what they are |
| `BaseOsMgr.Manager.UpdateAndPublishBaseOsStatusAll` | cmd/baseosmgr/handlebaseos.go:913-924 | renews every status and changes nothing else about it |
| `BaseOsMgr.Manager.MaybeRetryInstall` | cmd/baseosmgr/handlebaseos.go:926-950 | every status that came too early, and only those, is moved on by a turn of its configuration; one that runs keeps its references; keeps the whole invariant |
| `BaseOsMgr.Manager.DoPartitionStateTransition` | cmd/baseosmgr/handlebaseos.go:870-911 | a running version under test becomes active and the other partition unused, all statuses are renewed and what came too early is retried, exactly as stated; keeps the whole invariant |
| `BaseOsMgr.Manager.HandleBaseOsTestComplete` | cmd/baseosmgr/handlebaseos.go:837-865 | so it does when the test is reported complete; taking the flag back changes the flag and nothing of the partitions |
| `BaseOsMgr.Manager.HandleBaseOsCreate2` | cmd/baseosmgr/baseosmgr.go:250-269 | a new or renewed configuration is refused if and only if it is not supported, and else is a turn; keeps the whole invariant |
| `BaseOsMgr.Manager.HandleBaseOsModify` | cmd/baseosmgr/baseosmgr.go:272-312 | a changed one confirms the running version, is refused or is a turn, exactly as stated, although it publishes the status as it was before the test flag was handled |
| `BaseOsMgr.Manager.HandleBaseOsConfigModify` | cmd/baseosmgr/baseosmgr.go:187-248 | the whole manager afterwards: the configuration is kept, the running version is confirmed exactly when that is asked for, and the status is refused or moved on by a turn; whether or not there was one |
| `BaseOsMgr.Manager.HandleBaseOsConfigDelete` | cmd/baseosmgr/baseosmgr.go:203-215 | the whole manager afterwards: what becomes of the status and of the partitions, and that nothing else changes; exactly when the fallback is lost |
| `BaseOsMgr.Manager.CheckAndRecreateBaseOs` | cmd/baseosmgr/baseosmgr.go:485-529 | a new datastore moves on every status that waits for it, each by a turn, and no other; keeps the whole invariant |
| `BaseOsMgr.Manager.BaseOsHandleStatusUpdateSafename` | cmd/baseosmgr/handlebaseos.go:29-67 | a report is a turn of some configuration with the image; nothing happens if some such configuration has no status or there is none |
| `BaseOsMgr.Manager.DoCertObjInstall` | cmd/baseosmgr/handlecerts.go:76-154 | counts of certificates are true, and those of base OS images untouched |
| `BaseOsMgr.Manager.CertObjHandleStatusUpdate` | cmd/baseosmgr/handlecerts.go:62-103 | keeps the whole invariant, also through the base OS update it may set off |
| `BaseOsMgr.Manager.HandleCertObjConfigModify` | cmd/baseosmgr/baseosmgr.go:331-403 | a new or changed certificate object keeps the whole invariant |
| `BaseOsMgr.Manager.HandleCertObjConfigDelete` | cmd/baseosmgr/handlecerts.go:192-257 | all its references are given up and counted; its status stays |
| `BaseOsMgr.Manager.UpdateDownloaderStatus` | cmd/baseosmgr/handledownload.go:89-145 | the report is kept, and is a turn of some configuration with the image, or of none exactly if none has a status to move; an entry is taken away only if nothing refers to it; keeps the whole invariant |
| `BaseOsMgr.Manager.UpdateVerifierStatus` | cmd/baseosmgr/handleverifier.go:86-134 | a pending report does nothing, one that only concerns the count is answered exactly as the handshake says, and any other is a turn of some configuration with the image, if each has a status; keeps the whole invariant, what runs and the fallback |
| `BaseOsMgr.Manager.Reboot` | zboot/zboot.go:121-139 | whatever the boot loader picks, the manager starts with true statuses and counts |
| `BaseOsMgr.Manager.Handle` | cmd/baseosmgr/baseosmgr.go:187-480 | what each kind of event does to the whole manager, configurations, statuses, partitions and counts; keeps the whole invariant; an active partition is lost if and only if the event is a deletion that gives up the fallback of a version under test |
| `BaseOsMgr.Manager.HandleCut` | zboot/zboot.go:349-412 | a loss of power or a failing copy, after any number of the tables a handler writes and with anything in the partition written to, leads to a manager with the whole invariant |
| `BaseOsMgr.Manager.Run` | cmd/baseosmgr/baseosmgr.go:82-176 | over every run, with losses of power inside handlers: every event that is handled does to the whole manager what it should, and without such losses each goes on from where the one before ended; all tables ever are safe, and the device can boot, if and only if no handled deletion gave up such a fallback, so if deletions only happen while the running partition is active; every write is good, counts are true, and unless an installation left an image behind no failed version is written again and what is published of the partitions is exact |
| `BaseOsRuns.UnverifiedRun` | cmd/baseosmgr/handlebaseos.go:309-362 | a run in which an image is written that the verifier never saw, although every configuration was accepted |
| `BaseOsRuns.StaleRun` | cmd/baseosmgr/handlebaseos.go:267-306 | a run after which the published version of the other partition is out of date |
| `BaseOsRuns.FallbackRun` | cmd/baseosmgr/handlebaseos.go:578-599 | a run after which no partition is active |
| `Compression.KeptExactly` | devicenetwork/dnc.go:194-234 | an entry stays if and only if it is not droppable or is taken for the entry in use |
| `Compression.Comparison` | devicenetwork/dnc.go:217-229 | how the comparison with the lowered index goes, in terms of the original list |
| `Compression.Compress` | devicenetwork/dnc.go:194-234 | the result is the subsequence of the positions that stay, and the index is lowered as counted |
| `Compression.IndexSurvives` | devicenetwork/dnc.go:194-234 | the index denotes the entry that was in use if and only if a condition on the original list holds |
| `Compression.FewDropsAreSafe` | devicenetwork/dnc.go:194-234 | it does for an entry that is not droppable with up to two droppable ones ahead |
| `Compression.SignSurvives` | devicenetwork/dnc.go:194-234 | -1 stays -1, and a non-negative index stays non-negative |
| `Compression.FirstStays` | devicenetwork/dnc.go:204-212 | the first entry always stays |
| `PortConfigList.FirstMatch` | devicenetwork/dnc.go:601-625 | the first entry that matches, with none ahead of it |
| `PortConfigList.InsertedInOrder` | devicenetwork/dnc.go:763-781 | insertion keeps the order of the priorities |
| `PortConfigList.InsertedContents` | devicenetwork/dnc.go:763-781 | insertion adds the entry and loses none |
| `PortConfigList.InsertedUnique` | devicenetwork/dnc.go:763-781 | inserting a new stamp keeps the stamps apart |
| `PortConfigList.RemovedKeeps` | devicenetwork/dnc.go:784-802 | removal keeps the order and the stamps, adds nothing and takes at most one |
| `PortConfigList.RemovesTheRightOne` | devicenetwork/dnc.go:784-802 | removal takes out the entry it is given if and only if no entry ahead has its key and priority |
| `PortConfigList.RemovesTheWrongVersion` | devicenetwork/dnc.go:784-802 | a list for which it takes out another |
| `PortConfigList.ChangedSorted` | devicenetwork/dnc.go:673-760 | every modification and deletion keeps the order |
| `PortConfigList.ChangedUnique` | devicenetwork/dnc.go:673-760 | every modification and deletion keeps the stamps apart |
| `PortConfigList.ChangedEmpty` | devicenetwork/dnc.go:673-741 | a list becomes empty if and only if its sole entry is deleted |
| `PortConfigList.RestampedKeepsHistory` | devicenetwork/dnc.go:744-760 | a new priority takes over the test results |
| `PortConfigList.SameStampForgets` | devicenetwork/dnc.go:744-750 | an unchanged priority leaves the newcomer with its own test results as the only entry under its stamp, and every other entry as it was |
| `PortConfigList.WrittenBackUnique` | devicenetwork/dnc.go:356-401 | writing a test result keeps the stamps apart |
| `PortConfigList.WrittenBackSorted` | devicenetwork/dnc.go:356-401 | it keeps the order if and only if the pending priority fits in where the entry is; a listed stamp always fits |
| `PortConfigList.CompressedKeeps` | devicenetwork/dnc.go:182-234 | compression keeps the order, the stamps and the first entry |
| `PortConfigList.IndexCanLeaveTheList` | devicenetwork/dnc.go:194-234 | a list in order, with its stamps apart and its ports all different, for which the index ends up outside the compressed list |
| `NetworkRules.MoreThanTwoExactly` | devicenetwork/dnc.go:178-234 | more than two entries from the controller stay if and only if two behind the first have not failed since they last worked, or are taken for the one in use |
| `NetworkRules.ThreeCanStay` | devicenetwork/dnc.go:178-234 | a list in order, with its stamps apart, of which three stay |
| `NetworkRules.LookupExactly` | devicenetwork/dnc.go:601-625 | the entry that is looked up is the first with the stamp, or where no entry has it the first with the content; none if and only if no entry has either |
| `NetworkRules.IgnoredExactly` | devicenetwork/dnc.go:673-706 | an update is ignored if and only if it withdraws what is unknown, or its content is listed and its ports are those of the entry that is tested next |
| `NetworkRules.ArrivalIsListed` | devicenetwork/dnc.go:673-760 | after an update its stamp and its ports are in the list |
| `NetworkRules.WithdrawalTakesOne` | devicenetwork/dnc.go:673-693 | a withdrawal takes one entry out, with the key and priority of the one that stands for it, and none if and only if it is unknown |
| `DeviceNetwork.ProbesCyclic` | devicenetwork/dnc.go:445-471 | stepping by one modulo the length visits the entries in cyclic order |
| `DeviceNetwork.GetNextTestableIndex` | devicenetwork/dnc.go:445-471 | in range; the first testable entry in cyclic order among all but the last probe, else 0 |
| `NetworkRules.SearchFindsTestable` | devicenetwork/dnc.go:445-471 | what is found is testable, unless it is the first entry, and no entry passed on the way is |
| `NetworkRules.FailedNeedsAMinute` | types/zedroutertypes.go:217-228 | an entry that failed since it last worked is testable if and only if more than 60 whole seconds have passed |
| `DeviceNetwork.AdjustedDenotes` | devicenetwork/dnc.go:716-740 | the index of the entry in use is -1 or denotes an entry with its stamp or content, or a first entry that works where there is none |
| `NetworkRules.AdjustedExactly` | devicenetwork/dnc.go:716-740 | the index stays with an entry that did not move or that works, is lost if it moved and does not work, and goes to a first entry that works where the entry is gone, else to none |
| `DeviceNetwork.FindFirst` | devicenetwork/dnc.go:601-625 | the first match by stamp or by content, or -1 |
| `DeviceNetwork.Context.LookupPortConfig` | devicenetwork/dnc.go:601-625 | the entry with the stamp, else the first with the content, else -1 |
| `DeviceNetwork.Context.InsertPortConfig` | devicenetwork/dnc.go:763-781 | the loop refines insertion ahead of the first lower priority |
| `DeviceNetwork.Context.RemovePortConfig` | devicenetwork/dnc.go:784-802 | the loop refines removal of the first with the same key and priority |
| `DeviceNetwork.Context.UpdatePortConfig` | devicenetwork/dnc.go:744-760 | in place, or removed and inserted with its test results |
| `DeviceNetwork.Context.FollowCurrent` | devicenetwork/dnc.go:716-740 | -1 stays -1; any other index denotes the entry in use and denotes it in the compressed list if and only if the condition of `IndexSafe` holds |
| `DeviceNetwork.Context.DoUpdatePortConfigList` | devicenetwork/dnc.go:673-741 | the list in every case, what entry the index denotes, exactly when nothing changes and exactly when it fails; order, stamps and names are kept |
| `DeviceNetwork.Context.SetupVerify` | devicenetwork/dnc.go:144-159 | starts over with the entry, which is in the list under its stamp, and no retries used |
| `DeviceNetwork.Context.ApplyPorts` | devicenetwork/dnc.go:266-270 | the DHCP clients follow the pending entry and match the ports applied |
| `DeviceNetwork.Context.VerifyPending` | devicenetwork/dnc.go:238-317 | the recorded times for each result, success exactly on a reachable network, a wait exactly while retries are left or the port is held, no address without ports, and the ports that are applied |
| `DeviceNetwork.Context.WriteBack` | devicenetwork/dnc.go:356-401 | the list afterwards, exactly when it fails, exactly when the result counts as late and exactly when a late one does not fit in |
| `DeviceNetwork.Context.VerifyDevicePortConfig` | devicenetwork/dnc.go:319-440 | which entries are tested, in which order and with which result: each is the one before again if a retry is left, entry 0 if that was never tested, else the one the cyclic search finds; an entry that passes is the one in use; keeps stamps, clients and the bound on retries; writes a late result if and only if the first test ends while its entry is listed by content only, and breaks the order if and only if that does not fit in |
| `NetworkRules.TestedInPlace` | devicenetwork/dnc.go:356-401 | the result of a test of a listed entry goes to that entry and to no other |
| `NetworkRules.PassedIsInUse` | devicenetwork/dnc.go:386-401 | an entry that passed is the one in use after compression if and only if compression can follow it |
| `DeviceNetwork.Context.RestartVerify` | devicenetwork/dnc.go:161-177 | starts with the entry that the search from entry 0 finds and goes on as above; never writes a late result, and does nothing while a verification is under way |
| `DeviceNetwork.Context.HandleDPCModify` | devicenetwork/dnc.go:487-514 | the list and the index are those of the update, and then verification starts over as above, except if nothing changed while the device has an address and an entry in use; then nothing happens |
| `DeviceNetwork.Context.HandleDPCDelete` | devicenetwork/dnc.go:516-536 | the list and the index are those of the deletion, and then verification starts over as above, except if nothing changed; then nothing happens |
| `DeviceNetwork.Context.Handle` | cmd/nim/nim.go:407-450 | what every event does to the list and which tests it leads to; keeps all of the above; a late result, and one that does not fit in, is written if and only if a retest does so |
| `DeviceNetwork.Context.Run` | devicenetwork/dnc.go:487-536 | over every run of updates, deletions and timers: each event changes the list and leads to tests as above, from where the one before ended; stamps stay apart; every list is in order if and only if every late result fitted in, so without late results and without retests; a verification waits at most the allowed number of times; and exactly the DHCP clients run that the ports last applied ask for, if no configuration names an interface twice and no interface comes or goes |
| `NetworkRuns.LateRun` | devicenetwork/dnc.go:356-401 | a run after which the list is out of order, with entries that have ports |
| `Dhcp.LookupOnIfname` | devicenetwork/devicenetwork.go:331-338 | the first port with the name, none if and only if there is none; the only one where names are unique |
| `Dhcp.Clients.Activate` | devicenetwork/dhcpcd.go:63-178 | starts a client exactly for a port that can have one; notes a start on top of a running client |
| `Dhcp.Clients.Inactivate` | devicenetwork/dhcpcd.go:180-210 | stops the client of a port that has one |
| `Dhcp.Clients.UpdateDhcpClient` | devicenetwork/dhcpcd.go:26-61 | for every pair of configurations, a client is started on top of another if and only if two new ports collide; where each interface is named once, from the clients of the old one to exactly those of the new one |
| `NetworkRules.RunsExactly` | devicenetwork/dhcpcd.go:63-178 | where names are unique, a port has its client if and only if it asks for DHCP or has a readable static address, and its interface exists and is not `wwan0` |
| `Dhcp.Clients.ChangeHost` | devicenetwork/dhcpcd.go:63-80 | when interfaces appear or vanish the clients still match the ports if and only if no port is concerned |
| `Dhcp.OneMorePort` | devicenetwork/dhcpcd.go:31-48 | what one more port of the new configuration changes about what is asked for and about collisions |
| `LineReader.LinesRebuild` | netclone/parse.go:31-53 | the lines contain no newline and rebuild the text |
| `LineReader.File.Compact` | netclone/parse.go:36-42 | the overlapping move keeps the data behind the line |
| `LineReader.File.GetLineFromData` | netclone/parse.go:31-53 | the first line of all that is ahead, if the data at hand show it; nothing else is lost |
| `LineReader.File.Fill` | netclone/parse.go:59-68 | moves bytes from the file to the buffer and loses none |
| `LineReader.File.ReadLine` | netclone/parse.go:55-71 | the next line if and only if there is one that fits the buffer |
| `LineReader.FittingAll` | netclone/parse.go:55-71 | no line is left out if and only if each is shorter than the buffer |
| `LineReader.File.ReadAll` | netclone/parse.go:55-71 | repeated reading gives the lines ahead of the first that does not fit |
| `LineReader.ReadFile` | netclone/parse.go:55-79 | gives all lines of the file if and only if each is shorter than the buffer |
| `Fields.SpansExact` | netclone/parse.go:108-126 | the spans are exactly the maximal runs without separators, each once and in order |
| `Fields.CountAnyByte` | netclone/parse.go:97-105 | the number of separators |
| `Fields.SplitAtBytes` | netclone/parse.go:108-126 | the fields are what the spans contain, and the preallocated array has room for them |
| `Numbers.Dtoi` | netclone/parse.go:135-147 | the loop is the specification `ParseFrom` in base 10, with its limit |
| `Numbers.Xtoi` | netclone/parse.go:151-174 | the loop is the specification `ParseFrom` in base 16, with its limit |
| `Numbers.Uitoa` | netclone/parse.go:197-212 | prints the numeral of every 64-bit number within its twenty bytes |
| `Numbers.AppendHex` | netclone/parse.go:217-228 | appends the numeral of every 32-bit number, without leading zeros |
| `Numbers.ReadsNumeral` | netclone/parse.go:135-174 | reading a numeral below the limit arrives behind it with its value, whatever follows |
| `Numbers.RefusesNumeral` | netclone/parse.go:135-174 | reading any other numeral fails with the fixed value |
| `Numbers.PrintedIsParsed` | netclone/parse.go:135-228 | a printed number is read back, to its end, if and only if it is below the limit |

## Left out

- Sockets, files, checkpoints on disk, fsnotify, netlink, HTTP, TLS and the external commands: a
  socket is a reliable FIFO that may stop at any moment, a file is a byte sequence, and what
  programs such as the boot loader, dhcpcd and the network test do is an explicit environment
  step or a parameter. JSON is the identity.
- Wire.MessageRoundTrip: topics have no space, as their names come from Go types; the limit of
  65536 bytes per message is not modelled.
- Replication.NoLostUpdate: says nothing about whether a restart is announced after everything
  that was published before it; the code does not promise that order.
- Callbacks.ExactlyOneWakeup: a wakeup function is configured, as it is in `pac_init`.
- PoolGuarantees.NoStrandedWork: failing allocations return before the queue is touched and are
  not steps; waiting in `threadpool_die` and `threadpool_destroy` are not modelled.
- BaseOsMgr.Manager.Run: the manager restarts only with the device. A fatal error is noted, the
  handler it happens in goes on to its end, and no other event is handled before a reboot.
- BaseOsMgr.Manager.InstallImage: which files are there, which partitions have a device and which
  version an image contains may change at any time, but only between two events. A copy that fails
  ends the process, so it is an event that is cut short (`HandleCut`).
- BaseOsMgr.Manager.DropVerifierRefs: does not say that the counts against the verifier are the
  numbers of references held, because the decrement picks any entry with the checksum.
- Sizes, error texts and copies of a partition's state and device in a base OS status.
- DeviceNetwork.Context.VerifyDevicePortConfig: by design it goes on for as long as tests fail; the
  model stops when the given observations are used up. Times only come from these observations.
- DeviceNetwork.Context.Run: sanitizing of configurations, publishing of the device network status
  and assignable adapters are left out; deleting the sole entry in use ends the run.
- Dhcp.Clients.UpdateDhcpClient: starting and releasing a client succeed; the waits for a client
  that still exists are shown not to be entered, where names are unique, and are not modelled.
- LineReader.File.ReadLine: a read that fails other than by the end of the file is not modelled.
- Handlers that users of a subscription register, and other publications of the process beyond
  their entries in the notification list.
- `xtoi2`, `itoa` and the string helpers of netclone, and the preallocation of `getFields`: they
  would only add easy members.
- The downloader's accounting of space, agents other than the base OS manager, metrics, timers,
  logging and the remaining packages.
