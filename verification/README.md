# A model of the document persistence engine

The collaborative Markdown backend stores Yjs updates as numbered rows, compacts them into
snapshots, rebuilds documents from both, and surrounds this with small concurrent
machinery: a Redis store with expiry times, a snapshot lock, cached lists under version
counters, a Kafka consumer that deduplicates events, a worker pool, and cached session
versions. This project models that engine in Dafny and proves what its parts keep in every
run.

Each protocol is a labelled transition system: a `State`, a `Step` and a predicate `Next`,
with one step for each statement that other sessions can get in between. `Runs` defines
finite runs and the two induction principles. The main theorems speak about all runs.
Beside them stand classes whose methods do what the Go methods do, in the same order and
with the same branches; their contracts say which step of the protocol a call is, or give
the whole new state. Where the Go code runs several statements without a transaction, the
methods of the document classes take what other sessions do in between as a parameter.

| file | contents |
|---|---|
| `Yjs.dfy` | payloads as finite sets of operations, merging, replaying |
| `DocumentLog.dfy`, `Compaction.dfy` | one document's update log with any number of snapshot transactions; its shape, what compaction may delete, when a snapshot loses updates |
| `Hydration.dfy` | the two reads that rebuild a document, the row limit, the snapshot trigger, the backlog |
| `DocumentRepository.dfy`, `DocumentService.dfy` | the tables and their statements; hydration, background snapshots, list reads |
| `TimedStore.dfy`, `RedisCache.dfy` | keys with expiry and the cache client |
| `SnapshotLock.dfy`, `Cooldown.dfy`, `ListCache.dfy`, `Session.dfy` | the four protocols built on that store |
| `SnapshotSpacing.dfy` | exactly when background snapshots come too close |
| `SessionService.dfy` | the request check, logout and password change |
| `Membership.dfy`, `CollaboratorService.dfy` | who owns and shares a document; which counters announce a change |
| `EventPipeline.dfy`, `EventDelivery.dfy`, `EventRetry.dfy`, `EventConsumer.dfy` | events from partition logs to the document history |
| `SnapshotEvents.dfy` | what snapshots that come as events cover |
| `WorkerPool.dfy`, `Paging.dfy` | the background tasks; paged lists |

## What the theorems show

- Nothing committed is lost by compaction, in any interleaving and without any lock, as long
  as a snapshot's bytes hold the history up to the sequence number its transaction reads. For
  payloads that share no operation a snapshot keeps the history whole if and only if they do
  (`Compaction.SnapshotLosslessIff`, for any bytes). The background path does not ensure it:
  it fetches the bytes first and reads the number afterwards. From a server that is ahead of
  the database the bytes may still suffice; if they are just the database's history at the
  fetch, updates are lost exactly when some are committed in between
  (`Compaction.BackgroundSnapshotLossless`, with a concrete run in `Compaction.LostUpdateRun`).
- With exact snapshots, and payloads that each bring an operation of their own, a rebuilt
  document is whole exactly when no newer snapshot was committed between the two reads and
  at most 500 updates follow the snapshot (`Hydration.HydrationWholeIff`).
- A second worker can get inside the critical section beside the holder of the snapshot lock
  exactly when the holder is still there 30 seconds after it entered
  (`SnapshotLock.OverlapIff`); its release then removes somebody else's lock. Snapshots of the
  background path stay a threshold apart exactly as long as that does not happen
  (`SnapshotLock.SnapshotsSpaced`, `SnapshotSpacing.CrowdedIff`); safety of the log does not
  depend on the lock at all.
- If each time the backlog reaches the threshold a snapshot lands within fewer than a
  threshold of further updates, the backlog never exceeds threshold plus that slack
  (`Hydration.BacklogBounded`).
- An event takes effect at most once. A delivered update event whose insert was not refused
  for another reason than being a duplicate has exactly one entry in the history if and only
  if no error or crash fell between recording its id and the entry
  (`EventDelivery.DeliveredOnceIff`). One that failed after its id was recorded is never
  retried (`EventPipeline.LostForever`). One whose insert failed can still be made up for, as
  long as it can be attempted: exactly until the committed offset and every worker of its
  partition are past it (`EventRetry.RetryIff`, `EventRetry.RetryMakesEntryIff`).
- A snapshot that comes as an event covers what was applied before it if and only if no
  later update of its partition was applied earlier (`SnapshotEvents.CoversIff`): so in order,
  but not after overlapping or repeated deliveries.
- After a logout or a password change an old token can still pass exactly when its version is
  cached or carried by a request between its database read and its cache write
  (`Session.CanStillPassIff`). A logout clears the cached copy, a password change does not:
  for up to 15 minutes more the *new* token is the one that is refused.
- A read of a cached list can come to show data older than a given write exactly when an old
  page of the version it takes is alive or a read of that page is about to store an old
  answer (`ListCache.ShowsOldIff`, in any state and with any delays). So every read that
  begins after an announced write is fresh, across counter expiries too, unless the counter
  is back at its last value while pages of that value live (`ListCache.StaleAfterClimbBack`).

## Where the documentation and the code differ

The model follows the code.

- README.md:638 says a failed message stays unconsumed for retry. The worker goes on with the
  next message, whose commit passes the failed one (internal/kafka/consumer.go:128-133). Before
  that commit the message may come again, but if its id was recorded it is refused as a
  duplicate (internal/event/service.go:56-59); only an insert that itself failed is retried.
- README.md:709 says version counters do not expire. They do after seven days without an
  increment (redis/redis.go:105-108).
- README.md:599 says a snapshot contains the full state at its sequence number. The number is
  read when the snapshot is written (internal/document/repository.go:222-227), later than
  the bytes are fetched (internal/document/service.go:287).
- README.md:579 and README.md:583 say that a password change invalidates old tokens. The
  cached version stays, as only logout clears it (internal/user/service.go:99-105,
  internal/user/service.go:134-135).
- README.md:589-592 gives users without a role no access. Only the role `viewer` is turned away
  when an update is stored (internal/document/service.go:215-217).
- README.md:754-755 says that a skipped invalidation happens with the next update, so that
  everybody sees an update eventually. A skipped update is announced exactly when somebody
  tries again at or after the expiry (`Cooldown.SkippedIsAnnouncedIff`); without a next update
  nothing bumps the counters.
- redis/redis.go:105 carries a comment that the counter stays forever, above the line that
  makes it expire.

## Model

| member | source | states |
|---|---|---|
| Yjs.ReplayIsMerge | README.md:15 | applying payloads one after the other gives the snapshot united with everything they carry |
| Yjs.ReplayIsIdempotent | README.md:15 | replaying the same payloads in another order, with repetitions or once more yields the same document |
| DocumentLog.MaxSeq | internal/document/repository.go:276-281 | the greatest stored snapshot seq, 0 when there is none |
| DocumentLog.LogShapeStep | internal/document/repository.go:184-261 | every statement of every session keeps the stored seqs exactly lastSnapshotSeq+1..update_seq, each row the payload committed under its seq, and inserted snapshots alone on their seq |
| DocumentLog.CommitKeepsRowShape | internal/document/repository.go:242-256 | a commit, even out of seq order, leaves exactly the rows above the greater of its seq and the last snapshot seq |
| DocumentLog.DoomedStep | internal/document/repository.go:252-256 | the rows a snapshot's DELETE saw are still all rows at or below its seq when it commits |
| DocumentLog.ReservedStep | internal/db/migrate.go:30-31 | the unique index on snapshots is never hit twice: uncommitted snapshots hold different seqs that no stored snapshot has |
| Compaction.LogShapeAlways | internal/document/repository.go:184-261 | the log has its shape in every reachable state, with racing snapshotters and no lock |
| Compaction.AppendNeverConflicts | internal/document/repository.go:200-207 | the next seq is always free, so the unique index on updates never aborts an append |
| Compaction.LaterAlways | internal/document/repository.go:184-261 | along a run the history only grows, stored snapshots stay, neither seq goes back until the document is deleted, and deletion is final |
| Compaction.NoUpdateLost | internal/document/repository.go:184-261 | with covering bytes, newest snapshot plus stored updates above it hold every payload ever committed, in every interleaving |
| Compaction.NothingInvented | internal/document/repository.go:184-261 | with exact bytes they hold exactly that |
| Compaction.CoveredStep | internal/document/repository.go:217-261 | every step, including commits out of order, keeps every stored and every pending snapshot covering the history up to its seq |
| Compaction.TxKeepsItsSeq | internal/document/repository.go:219-250 | a snapshot transaction commits with the seq and bytes it began with, whatever is committed meanwhile |
| Compaction.SnapshotLosslessIff | internal/document/repository.go:219-256 | whatever the bytes, the newest snapshot a transaction commits keeps the history whole if and only if later updates bring again what they lack; for payloads that share no operation, if and only if they hold the history up to the seq the transaction read |
| Compaction.LabelMustMatchBytes | internal/document/repository.go:242-256 | when every payload brings an operation of its own, a newest snapshot whose bytes end at some seq keeps the history whole if and only if that seq is its label |
| Compaction.BackgroundSnapshotLossless | internal/document/service.go:287-291 | if the bytes are the database's history at the fetch, reading the seq later loses updates if and only if some were committed between the two (every payload bringing an operation of its own) |
| Compaction.LostUpdateRun | internal/document/service.go:287-295 | a concrete run in the server's own order of statements that deletes a committed update no snapshot holds |
| Hydration.FirstRowsAnswer | internal/document/repository.go:283-288 | the answer is ascending, above the given seq, at most the limit, of stored rows, and skips none |
| Hydration.FirstRowsOfRange | internal/document/repository.go:283-288 | from rows without gaps the answer is the first min(500, count) of them without a gap |
| Hydration.ResponseShapeAlways | internal/document/service.go:326-350 | whatever commits between the two reads, snapshot and seq are the newest of the first read, and the updates are an ascending run without gaps of at most 500, in order and content those committed after the newest snapshot of the second read |
| Hydration.HydrationCovers | internal/document/service.go:326-350 | with no snapshot between the reads and a backlog of at most 500 the client rebuilds everything committed |
| Hydration.HydrationWholeIff | internal/document/service.go:326-350 | with exact snapshots and payloads that each bring an operation of their own, the rebuilt document equals the whole history if and only if the last snapshot seq is the same at both reads and the backlog is at most 500 |
| Hydration.TriggerWrapsIff | internal/document/service.go:298-313 | the unsigned difference is the true one if and only if the document was not deleted, after having a snapshot, before the second read |
| Hydration.TriggerStaysOn | internal/document/service.go:298-313 | once it asks for a snapshot, the trigger asks until a newer one is stored |
| Hydration.BacklogBounded | internal/document/service.go:257-262 | if a snapshot that begins when an update brings the backlog to the threshold, or later, commits within fewer than a threshold of further updates, the backlog never exceeds threshold plus that slack |
| Hydration.PromptHydrationCovers | internal/document/repository.go:283-288 | with threshold plus slack of at most 500 the row limit never truncates an uninterrupted hydration |
| DocumentRepository.Repository.constructor | internal/document/repository.go:38-40 | an empty database in which every document's log is new |
| DocumentRepository.Repository.Create | internal/document/repository.go:43-55 | a new live document under an unused id; no other log changes |
| DocumentRepository.Repository.CreateUpdate | internal/document/repository.go:184-215 | succeeds exactly for an existing document, as one append of the protocol; otherwise nothing changes |
| DocumentRepository.Repository.BeginSnapshot | internal/document/repository.go:219-227 | the transaction remembers update_seq as it is now |
| DocumentRepository.Repository.CheckSnapshot | internal/document/repository.go:229-240 | ends the transaction exactly when a snapshot with its seq is committed |
| DocumentRepository.Repository.InsertSnapshot | internal/document/repository.go:242-250 | succeeds exactly when the document exists and neither a stored nor an uncommitted snapshot has the seq, however far the log has moved on |
| DocumentRepository.Repository.PurgeUpdates | internal/document/repository.go:252-256 | the rows at or below the seq are marked, invisible to others |
| DocumentRepository.Repository.Commit | internal/document/repository.go:217-261 | snapshot row and deletions become visible in one step, and the database stays valid |
| DocumentRepository.Repository.CreateSnapshot | internal/document/repository.go:217-261 | whatever other sessions do in between, a written snapshot stands under the seq read first with no update at or below it left, and a failure means that the document is gone or another transaction's snapshot has or reserves the seq; if the others only store updates and nothing has or reserves the seq, it is written, and exactly their updates are stored above it in order; alone, the whole new database is determined |
| DocumentRepository.Repository.DeleteDocument | internal/document/repository.go:364-370 | removes the document with its rows and no other, waiting while a snapshot of it is uncommitted |
| DocumentRepository.Repository.CurrentSeq | internal/document/repository.go:263-268 | update_seq, and 0 for a missing document |
| DocumentRepository.Repository.LastSnapshotSeq | internal/document/repository.go:276-281 | the greatest snapshot seq or 0 |
| DocumentRepository.Repository.LastSnapshot | internal/document/repository.go:270-274 | the bytes stored under the greatest seq, and nothing exactly when there is no snapshot |
| DocumentRepository.Repository.UpdatesFromSnapshot | internal/document/repository.go:283-288 | the first 500 rows above the seq |
| DocumentRepository.Repository.ServeAll | internal/document/repository.go:184-261 | any number of statements of other sessions keeps the database valid, moves every log only forward and leaves foreign transactions alone |
| DocumentRepository.AllowedIsServed | internal/document/repository.go:184-261 | every statement that the protocol allows another session is made by some request, so the pauses leave out no interference |
| DocumentRepository.UpdatesAreStored | internal/document/repository.go:252-256 | updates committed during a snapshot transaction survive it, in order, and no others |
| DocumentRepository.CommittedIsCompacted | internal/document/repository.go:242-256 | after a commit no update at or below the snapshot's seq is stored |
| DocumentRepository.CommitIsExact | internal/document/repository.go:242-256 | a commit adds one snapshot row, removes exactly the updates at or below its seq and its own transaction, and changes nothing else |
| DocumentService.ToDocumentUpdateDTOs | internal/document/service.go:352-363 | same updates, same order, same content |
| DocumentService.ResponseHolds | internal/document/service.go:326-350 | a response holds the newest snapshot of the first read under its seq, and number by number the first 500 updates behind the newest snapshot of the second read |
| DocumentService.Service.GetDocumentState | internal/document/service.go:326-350 | with anything in between the two reads, the response is the one the hydration theorems are about, and it opens to everything committed when no snapshot intervened and the backlog fits |
| DocumentService.Service.ShouldSnapshot | internal/document/service.go:298-313 | true exactly when the updates since the last snapshot reach the threshold; after a deletion between the reads, when 2^64 minus the old snapshot seq does |
| DocumentService.Service.SnapshotIfNeeded | internal/document/service.go:278-291 | in every interleaving it ends as not needed exactly when the second read minus the first is below the threshold (or, after a deletion, the wrapped difference), and then changes nothing; alone, a backlog below the threshold changes nothing, and one at the threshold with an answer leaves exactly these bytes as the newest snapshot at update_seq and no update beside it |
| DocumentService.Service.HandleBackgroundSnapshot | internal/document/service.go:268-292 | busy exactly when the lock is live, and then nothing changes, not even the lock; otherwise it ends as its critical section does, the lock is free on every way out and no other key has changed |
| DocumentService.DueIsWritten | internal/document/service.go:278-291 | a snapshot that is due never finds one at its seq, and is written unless another transaction holds that seq |
| DocumentService.StandsAfter | internal/document/repository.go:242-256 | after an undisturbed snapshot it is the newest, at the current seq, and no update is left |
| DocumentService.NoLongerDue | internal/document/service.go:298-313 | right after a written snapshot no further one is due, unless the threshold is 0 |
| DocumentService.SnapshotKeepsDocument | internal/document/service.go:268-295 | a client that opens the document before an exact background snapshot, with at most 500 updates, and one that opens it afterwards see the same, the latter from the snapshot alone |
| DocumentService.SnapshotKeepsCovered | internal/document/service.go:287-291 | a snapshot with bytes that hold the history keeps all of it recoverable |
| DocumentService.Service.Submit | internal/document/service.go:95-112 | one submission to the worker pool: kept under its task number exactly when the pool has room |
| DocumentService.Service.SubmitFollowUps | internal/document/service.go:224-262 | in every interleaving one invalidation, and one snapshot exactly when the two reads of the trigger ask for it; with nobody in between and room in the pool, a new number holds the snapshot if and only if the backlog has reached the threshold, exactly one holds the invalidation, and no old number changes |
| DocumentService.Service.CreateDocumentUpdate | internal/document/service.go:209-265 | turns away viewers only and then changes nothing; stores exactly for existing documents; a stored payload is the next of the history; with room in the pool a new number holds the invalidation, and with nobody in between one holds a snapshot if and only if the backlog has reached the threshold |
| DocumentService.Service.InvalidateThrottled | internal/document/service.go:225-255 | within the minute after a round nothing changes; otherwise exactly the collaborators' lists are bumped, each once, and the minute starts |
| DocumentService.Service.GetUserDocuments | internal/document/service.go:122-145 | under the owned counter as it is before the call: the live page of that version as it is, or the database's answer, kept for 24 hours under that version |
| DocumentService.Service.GetSharedDocuments | internal/document/service.go:147-171 | the same under the shared counter with shared pages |
| DocumentService.ReadAfterIncrement | internal/document/service.go:122-171 | the read after an increment, with no live page of the new value, shows what the database answers, whatever older pages are alive |
| DocumentService.ReadRepeats | internal/document/service.go:142-168 | without an increment a second read of the same page within 24 hours repeats the first and stores nothing |
| DocumentService.ListReadIsRun | internal/document/service.go:122-171 | each call is a run of the list cache's protocol, Begin and Hit or Begin, Miss, Query and Save, so the theorems of ListCache hold of it |
| TimedStore.BumpCounts | redis/redis.go:101-109 | increment followed by expiry adds one to an integer counter and touches no other counter |
| TimedStore.ReadBackIff | redis/redis.go:40-83 | a stored value is read back if and only if its time is not over, as long as nobody else touches the key |
| RedisCache.Cache.Set | redis/redis.go:40-51 | the value is live until its time is over; nothing happens without a client |
| RedisCache.Cache.SetNX | redis/redis.go:54-61 | wins exactly when the key is not live, and always without a client |
| RedisCache.Cache.Get | redis/redis.go:64-83 | finds a value if and only if there is a client and a lookup of the key gives that value as JSON |
| RedisCache.Cache.Invalidate | redis/redis.go:85-90 | the key is gone, whoever set it, and no other key changes |
| RedisCache.Cache.GetVersion | redis/redis.go:92-98 | the counter, 0 when missing, expired or not a number |
| RedisCache.Cache.IncrementVersion | redis/redis.go:101-109 | the counter is one higher and lives another seven days; other counters keep their values and no other key changes |
| Cooldown.RoundsApart | internal/document/service.go:229-235 | two rounds of invalidations of a document begin at least 60 seconds apart |
| Cooldown.RoundsInWindow | internal/document/service.go:229-235 | at most W/60 + 1 rounds begin in any window of W seconds |
| Cooldown.SkippedIsAnnouncedIff | internal/document/service.go:229-253 | after a lost cooldown a later round starts if and only if somebody tries again at or after its expiry |
| SnapshotLock.MutualExclusion | internal/document/service.go:268-292 | with critical sections under 30 seconds at most one worker is inside, and its lock is still there |
| SnapshotLock.OverlapIff | internal/document/service.go:268-276 | from every state with one holder, another worker can get inside beside it, within runs up to a deadline, if and only if the deadline is 30 seconds or more after the holder entered |
| SnapshotLock.OverrunRun | internal/document/service.go:276 | once two workers are inside, the first one's release deletes the second one's lock: a concrete run |
| SnapshotLock.SpacingStep | internal/document/service.go:268-313 | lock, re-check under it and log shape together keep stored snapshots a threshold apart |
| SnapshotLock.SnapshotsSpaced | internal/document/service.go:268-313 | in every such run, with snapshots from the background path only, consecutive ones are at least a threshold apart, so their number times the threshold is at most update_seq |
| SnapshotLock.CountSpaced | internal/document/service.go:312 | seqs a gap apart are at most max/gap many |
| SnapshotSpacing.CrowdedIff | internal/document/service.go:268-313 | from every spaced state with a worker that has its bytes and another one outside, a run up to a deadline can store two snapshots less than a threshold apart if and only if the deadline is 30 seconds or more after the first took the lock |
| SnapshotSpacing.StoreSnapshot | internal/document/repository.go:217-261 | a ready worker's five statements store its bytes under update_seq and take the updates with them |
| SnapshotLock.NoUpdateLost | internal/document/service.go:268-295 | overrunning, overlapping and crashing critical sections lose nothing, given covering bytes |
| ListCache.CoreStep | internal/document/service.go:122-171 | a page under a version is never older than the database state at which the counter reached that version |
| ListCache.FreshWhileCounterLasts | internal/document/service.go:122-171 | a read that begins after an increment returned never shows data from before the announced write, however late pages are stored |
| ListCache.OldPagesAreLast | redis/redis.go:105-108 | after an expiry only pages under the last value of the life just ended can be alive |
| ListCache.ShowsOldIff | internal/document/service.go:122-171 | from any state, a read that begins now can come to show data older than write n if and only if a live page under its version is older or a read of that page is about to store an older answer; delays and expiries neither help nor are needed |
| ListCache.NothingOldStep | internal/document/service.go:122-171 | no step, by whomever, brings an old source for a page back once there is none |
| ListCache.ClearHasNoOldSource | redis/redis.go:105-108 | in timely runs there is none older than the newest announced write, unless the counter is back at its previous life's last value while pages of it may live |
| ListCache.FreshAcrossExpiry | redis/redis.go:105-108 | the same freshness across expiries, for reads that do not take that last value while its pages may live |
| ListCache.StaleAfterClimbBack | redis/redis.go:105-108 | a concrete run in which a read that takes that value shows data from before an announced write |
| ListCache.ServedIsRecent | internal/document/service.go:142-168 | no page is served whose read began more than 24 hours plus the read-to-store delay ago, in every run that keeps to that delay |
| Session.InvStep | internal/middleware/auth.go:56-71 | every cached or carried version was the database's within the delay and 15 minutes |
| Session.AcceptedWasRecent | internal/middleware/auth.go:56-78 | a request passes only if the database holds its version or held it within 15 minutes plus the delay before |
| Session.OutdatedStaysRejected | internal/middleware/auth.go:73-78 | after that time an outdated version is refused for good, in every race |
| Session.CanStillPassIff | internal/middleware/auth.go:56-78 | in any state an outdated version can still pass if and only if a live copy of it is cached or a request carries it between database read and cache write |
| Session.LogoutEffectiveIff | internal/user/service.go:128-136 | after a logout cleared the cache an old version can still pass if and only if a request carries it between database read and cache write |
| Session.PasswordChangeEffectiveIff | internal/user/service.go:99-105 | right after a password change the old version can still pass if and only if it was cached or in flight |
| Session.StaleCopyPasses | internal/middleware/auth.go:61-71 | such a request makes the old version pass again |
| SessionService.Service.Authorize | internal/middleware/auth.go:56-78 | compares with the cached version if there is one and with the database's otherwise, leaves the expected version as it is, and lets through only versions recently held |
| SessionService.Service.UpdateTokenVersion | internal/user/repository.go:86-90 | one more for an existing user, nothing otherwise |
| SessionService.Service.Logout | internal/user/service.go:128-136 | from now on exactly the new version passes |
| SessionService.Service.ChangePassword | internal/user/service.go:85-105 | with a cached copy the old version still passes and the new one does not; without it only the new one does |
| Membership.OwnerUnique | internal/document/service.go:407-603 | with checks and writes interleaved at will, a live document has exactly one owner, its user_id |
| Membership.InvStep | internal/document/repository.go:316-370 | every step keeps that, and keeps admitted requests away from the owner's row |
| Membership.WriteKeepsOwner | internal/document/repository.go:322-370 | a late write of an admitted request keeps the one owner, even after the document or the role changed |
| Membership.ValidationNeeded | internal/document/service.go:407-434 | without the validation of the requested role one addition makes a second owner |
| Membership.FootprintIsExact | internal/document/service.go:92-112 | the loop names the owned counter of exactly the user whose own list shows the document and the shared counter of exactly those whose shared list does |
| Membership.InvalidateLists | internal/document/service.go:100-110 | each named counter rises by exactly one, every other key stays as it is |
| CollaboratorService.Service.GetUserRole | internal/document/repository.go:171-182 | the stored role; owner if and only if the user is the document's user_id, and nothing for a missing document |
| CollaboratorService.Service.ListDocumentCollaborators | internal/document/repository.go:297-314 | every collaborator once with the stored role, nobody else |
| CollaboratorService.Service.CreateUserDocument | internal/document/service.go:68-77 | the creator is the one owner, and exactly the creator's counter announces it |
| CollaboratorService.Service.RenameDocument | internal/document/service.go:79-115 | only for the document's user_id; exactly the lists that show the document are bumped, or none if the pool drops the task |
| CollaboratorService.Service.AddCollaborator | internal/document/service.go:407-454 | who is refused and why; a counter rises exactly when its list has changed; one owner is kept unless the role says owner |
| CollaboratorService.Service.ChangeCollaboratorRole | internal/document/service.go:456-518 | the same for a change of role |
| CollaboratorService.Service.RemoveCollaborator | internal/document/service.go:520-557 | the same for a removal |
| CollaboratorService.Service.DeleteDocument | internal/document/service.go:559-603 | owner only; the document with all its rows goes, and exactly the lists that showed it are bumped, or none if the pool drops the task |
| CollaboratorService.RowChangeAnnounced | internal/document/service.go:441-443 | bumping the target's shared counter announces every list a changed row changes, and no other |
| CollaboratorService.DeleteAnnounced | internal/document/service.go:571-594 | bumping the counters of the collaborators listed before the deletion announces every list it changes, and no other |
| CollaboratorService.MissedByDeletionIff | internal/document/service.go:571-572 | with changes between listing and deletion, the owner's list is always announced, and a shared list changes without an announcement if and only if its user was added in between |
| EventPipeline.AttemptedInOrder | internal/kafka/consumer.go:85-138 | per assignment messages are attempted in offset order with none dropped, and no committed offset passes a message nobody attempted |
| EventPipeline.AtMostOnceEffect | internal/event/service.go:27-88 | over all redeliveries, crashes and overlapping assignments an event makes at most one entry; its effect completed, once, if and only if it was recorded and is neither lost nor in a worker's hands |
| EventDelivery.PassedIsSettled | internal/kafka/consumer.go:121-138 | no committed offset and no worker passes a message unless it is unreadable, its id is recorded, or its insert failed for another reason than being a duplicate |
| EventDelivery.DeliveredOnceIff | internal/event/service.go:49-88 | an update event that was passed without such a refusal has its id recorded, and exactly one history entry if and only if no error or crash fell between recording and effect and no worker is between the two |
| EventDelivery.CleanDeliveryIsExactlyOnce | internal/event/service.go:49-88 | in every run where effects succeed, inserts fail only as duplicates and no worker stops between recording and effect, a passed update event has exactly one entry once no worker holds it |
| EventRetry.RetryIff | internal/kafka/consumer.go:121-138 | at any point of any run a message can be attempted, again or for the first time, if and only if the committed offset has not passed it or some worker of its partition has yet to get to it |
| EventRetry.NeverAgain | internal/kafka/consumer.go:133 | once committed offset and workers are past it, no step ever takes it again |
| EventRetry.RetryMakesEntryIff | internal/event/service.go:27-38 | an update event that can be attempted and is neither finished nor in a worker's hands can still make its entry if and only if it was not lost after recording |
| SnapshotEvents.CoversIff | internal/event/service.go:73-82 | the bytes of a snapshot event cover the applied updates of its partition if and only if none of them comes after it there |
| SnapshotEvents.InOrderCovers | internal/event/service.go:73-82 | a worker that handles its messages in order, after all earlier ones, begins every event snapshot with covering bytes |
| EventDelivery.EntriesMatchAlways | internal/event/service.go:61-72 | an event delivered only as updates has as many entries as completed effects |
| EventPipeline.LostForever | internal/event/service.go:56-82 | an event that failed after its id was recorded never takes effect |
| EventPipeline.FailureIsSkipped | internal/kafka/consumer.go:126-133 | from any state in which the next message waits behind a failed one, its success commits past the failure |
| EventPipeline.OnceStep | internal/event/repository.go:18-24 | the unique event id keeps every recorded event in exactly one place |
| EventConsumer.RecordedIff | internal/event/service.go:27-38 | an id is recorded exactly when it was, or a message of the batch carries it and its insert is not refused for another reason |
| EventConsumer.AppendedIff | internal/event/service.go:49-88 | a batch adds one entry for an event if the first message that records its id completes the effect, and none otherwise |
| EventConsumer.RedeliveryChangesNothing | internal/event/service.go:56-59 | delivering a recorded batch again makes no entry, no retry and no commit |
| EventConsumer.FrontierIs | internal/kafka/consumer.go:125-137 | the committed offset is the one behind the last message that was the first of a new id, of any type, whose insert and effect succeeded and whose commit the broker took |
| EventConsumer.FrontierStays | internal/kafka/consumer.go:128-131 | without any such message the committed offset stays where it was |
| EventConsumer.Consumer.Assigned | internal/kafka/consumer.go:51-53 | reading starts at the committed offset or at the beginning, before any worker is started |
| EventConsumer.Consumer.Revoked | internal/kafka/consumer.go:55-67 | a revoked partition's worker still handles and commits all that is in its channel, as the messages one by one make it, and is gone |
| EventConsumer.Consumer.Ended | internal/kafka/consumer.go:121-138 | a worker that ends with an empty channel loses nothing |
| EventConsumer.Consumer.Crashed | internal/event/service.go:56-68 | a crash takes channel and message; an id recorded without its effect is lost |
| EventConsumer.Consumer.Send | internal/kafka/consumer.go:98-103 | the next message joins the end of the channel |
| EventConsumer.Consumer.Poll | internal/kafka/consumer.go:85-106 | the first message starts the worker, a full channel makes the loop wait; nothing is dropped or reordered between poll and worker |
| EventConsumer.Consumer.CanProcess | internal/event/service.go:27-38 | true exactly when the id is new and its insert succeeds, and then it is recorded |
| EventConsumer.Consumer.Perform | internal/event/service.go:61-87 | an update adds one entry, other events none |
| EventConsumer.Consumer.GiveUp | internal/event/service.go:63-72 | the entry is not made and the id stays recorded |
| EventConsumer.Consumer.ProcessDocumentEvent | internal/event/service.go:49-88 | true exactly for a readable event, of whatever type, with a new id whose insert and effect succeed; the id is recorded even when the effect then fails |
| EventConsumer.Consumer.CommitMessage | internal/kafka/consumer.go:133-136 | the offset behind the message is committed, or nothing when the broker fails |
| EventConsumer.Consumer.StartPartitionWorker | internal/kafka/consumer.go:121-138 | a closed channel is drained in order, and database and committed offset are what the messages one by one make them |
| WorkerPool.Conservation | internal/worker/worker.go:20-61 | every submitted task is exactly one of dropped, waiting, running and finished, starts once and in order, with at most 1000 waiting |
| WorkerPool.ClosedAcceptsNothing | internal/worker/worker.go:45-48 | from the moment it begins to close a pool accepts nothing and drops every task submitted |
| WorkerPool.DrainTerminates | internal/worker/worker.go:34-42 | however workers are scheduled, a pool without new submissions comes to rest within a bound |
| WorkerPool.DrainedIff | internal/worker/worker.go:56-61 | at rest every accepted task has finished if and only if there is a worker or nothing waits |
| WorkerPool.TaskPool.constructor | internal/worker/worker.go:20-32 | an open pool without tasks |
| WorkerPool.TaskPool.Submit | internal/worker/worker.go:44-54 | accepted unless closing or full, dropped otherwise |
| WorkerPool.TaskPool.WorkerStep | internal/worker/worker.go:34-42 | a worker finishes its task or takes the oldest waiting one |
| WorkerPool.TaskPool.Shutdown | internal/worker/worker.go:57-61 | terminates with every accepted task finished, if there is a worker, and accepts nothing more |
| Paging.GetPaginationParams | internal/utils/utils.go:9-17 | the request's own page and size whenever they are in range, page 1 and size 10 otherwise, and never a page below 1 or a size outside 1 to 100 |
| Paging.ListDocuments | internal/document/repository.go:99-120 | the page at the computed offset, unless that is negative, and the least number of pages that holds all rows |
| Paging.OffsetExactIff | internal/document/repository.go:104 | the 64-bit offset is the true product if and only if the page number is within (2^63-1)/size + 1 |
| Paging.OffsetWraps | internal/document/repository.go:146 | page 2^58+1 of size 64 shows page 1 again; the largest page number gives the offset -20 |
| Paging.PagesTile | internal/document/repository.go:99-120 | the pages put together are the list, and later pages are empty while the offset does not wrap |
| Paging.ShowsSomethingIff | internal/document/repository.go:104-108 | a page, within the last one or beyond it, shows something if and only if its product leaves less than the length of the list in 64 bits |
| Paging.OnOnePage | internal/document/repository.go:141-162 | each position of the list is on exactly one page, at its place |

## Left out

- HTTP and gRPC handlers, routing, logging, configuration and generated code have no state of their own; the role validation of the handlers (internal/document/handler.go:247, internal/document/handler.go:281) appears as a hypothesis of `Membership.OwnerUnique`.
- The sync server, the Kafka producer and notifications are network calls; the sync server's answer is a parameter of the snapshot.
- SQL, GORM and PostgreSQL are maps with unique keys, foreign keys and read-committed visibility at commit. Rows of one document are grouped under its id instead of standing in flat tables. An update transaction is one step, because the row lock on the document serialises it; a seq taken by an aborted transaction does not exist.
- Yjs encoding, JSON, base64, JWT and bcrypt: payloads are sets of operations, a message is readable or not, a password matches or not.
- Failing reads of the database and failing Redis commands: reads succeed, as do commands when there is a client; failures appear only where a property is about them (event inserts, effects, commits, sync server answers, cache lookups of the session check). The counter that reads 0 after a Redis error is therefore not covered by the freshness theorems.
- Key formats are constructors, so that different formats are different keys; times are whole milliseconds.
- The list cache and the session cache are modelled with a client; without one every list read and every check goes to the database, as the contracts of `RedisCache.Cache` say.
- ListCache.FreshAcrossExpiry: assumes that the counter does not expire between an increment and the expiry command that follows it, and that an announcing request does not stop between the two; `ListCache.ShowsOldIff` decides the other runs.
- User registration, profile changes, user search and document versions: easy or unused. Profile changes do not invalidate shared lists (internal/user/service.go:81).
- A submission that races with the closing of the pool's queue, and a send on a closed partition channel: both panic in Go and are excluded.
- The worker goroutine reads its channel from the map again (internal/kafka/consumer.go:95); it is bound to the channel created for it. Topics other than document events count as unreadable messages.
- The order of list queries is taken to be total: `updated_at` has no tie-breaker. What GORM and PostgreSQL do with a negative offset is a parameter of `Paging.ListDocuments`.
- `DocumentService.Service` keeps background tasks by number; that a worker runs the task behind a number is not modelled.
- `CollaboratorService.Service` runs one operation at a time; interleaved checks and writes are the subject of `Membership`. The background invalidation of rename and delete runs within the operation, unless the pool drops it.
- CollaboratorService.Service.DeleteDocument: nobody else writes between listing and deletion; `CollaboratorService.MissedByDeletionIff` says what such a write does.
- SnapshotLock.SnapshotsSpaced: no snapshot comes from outside the background path. The HTTP route (internal/document/handler.go:196-214), the gRPC call (internal/grpc/server.go:126-131) and snapshot events (internal/event/service.go:73-82) store one without lock or trigger, and so at any distance.
- SnapshotEvents.InOrderCovers: payloads of other partitions and of other paths are not part of the document's history there.
- Deactivating a user saves a whole row read before (internal/user/repository.go:76-84) and could undo an increment of the token version; no route calls it, and `Session` has no such step.
- CollaboratorService.Service.ListDocumentCollaborators: the order by `added_at` is not stated, as the counters do not depend on it.
- DocumentRepository.Repository.Create: the owner's collaborator row belongs to another table, that of `CollaboratorService.Service.CreateUserDocument`.
- DocumentRepository.Repository.InsertSnapshot: an insert that would wait for an uncommitted twin is refused; a wait that ends is a later insert, so it belongs to the pause before.
- DocumentRepository.Repository.CreateSnapshot: likewise, the second pause includes the wait; if the twin is still uncommitted at its end, the outcome is a failure instead of more waiting.
- DocumentRepository.Repository.DeleteDocument: returns when it cannot run yet instead of waiting.
- DocumentService.Service.HandleBackgroundSnapshot: no time passes and nobody else uses the cache during the call; expiry and competing workers are the subject of `SnapshotLock`.
- DocumentService.Service.CreateDocumentUpdate: the role is an argument, read from the collaborator table before.
- DocumentService.Service.InvalidateThrottled: the collaborators are an argument instead of a read after the cooldown is won.
- DocumentService.Service.GetUserDocuments: the database's answer is an argument and the page is stored at once; late storing is the subject of `ListCache`.
- DocumentService.Service.GetSharedDocuments: likewise.
- DocumentService.Service.Submit: the pool's room is what it is at the call; workers do not take tasks meanwhile.
- SessionService.Service.Authorize: one check at a time and the token already parsed; races are the subject of `Session`.
- EventConsumer.Consumer.Perform: the history entry stands for the whole document update behind it, whose own contract is `DocumentService.Service.CreateDocumentUpdate`.
- EventConsumer.Consumer.Revoked: the drain is one call, during which no other worker acts and after which the partition may be assigned again; overlaps of draining and new workers are the subject of `EventPipeline`, where a revoked assignment is one that polls no more.
