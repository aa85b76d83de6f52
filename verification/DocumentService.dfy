/** The document service: hydration, the snapshot trigger, the background snapshot under
    its lock, throttled invalidation and the cached list reads. What other sessions do
    between two statements is a parameter. */
module DocumentService {
  import opened Runs
  import opened Wrappers
  import opened Yjs
  import opened DocumentLog
  import opened Compaction
  import opened Hydration
  import opened DocumentRepository
  import opened TimedStore
  import opened RedisCache
  import ListCache
  import Membership
  import WorkerPool

  datatype UpdateDto = UpdateDto(number: nat, binary: Ops)

  datatype StateResponse = StateResponse(snapshot: Ops, snapshotSeq: nat, updates: seq<UpdateDto>)

  datatype Document = Document(id: nat, title: string, updatedAt: nat)

  datatype Listing = Listing(data: seq<Document>, total: nat, page: int, size: int, totalPage: int)

  /** A background task: the closure handed to the worker pool. */
  datatype Job = InvalidateOnce(doc: Doc) | BackgroundSnapshot(doc: Doc)

  datatype Answer = Forbidden | NotStored | Stored

  datatype Ending = Busy | NotNeeded | FetchFailed | Snapshotted(outcome: Outcome)

  // ---------- hydration ----------

  /** Same updates, same order. */
  ghost predicate Carries(dtos: seq<UpdateDto>, rows: seq<Row>)
  {
    && |dtos| == |rows|
    && forall i :: 0 <= i < |rows| ==> dtos[i].number == rows[i].number && dtos[i].binary == rows[i].content
  }

  method ToDocumentUpdateDTOs(updates: seq<Row>) returns (dtos: seq<UpdateDto>)
    ensures Carries(dtos, updates)
    ensures |dtos| == |updates|
    ensures forall i :: 0 <= i < |dtos| ==> dtos[i] == UpdateDto(updates[i].number, updates[i].content)
  {
    dtos := [];
    for i := 0 to |updates|
      invariant Carries(dtos, updates[..i])
    {
      dtos := dtos + [UpdateDto(updates[i].number, updates[i].content)];
    }
  }

  function Binaries(dtos: seq<UpdateDto>): seq<Ops> { seq(|dtos|, i requires 0 <= i < |dtos| => dtos[i].binary) }

  /** The document a client builds from the response. */
  function Opened(response: StateResponse): Ops { Replay(response.snapshot, Binaries(response.updates)) }

  ghost predicate Represents(response: StateResponse, state: Hydration.State)
  {
    && response.snapshot == state.snapshot && response.snapshotSeq == state.snapshotSeq
    && Carries(response.updates, state.updates)
  }

  lemma OpenedIsRebuilt(response: StateResponse, state: Hydration.State)
    requires Represents(response, state)
    ensures Opened(response) == Rebuilt(state)
  {
    assert Binaries(response.updates) == Contents(state.updates);
  }

  /** What a response that represents two reads of the log holds, number by number: the
      newest snapshot of the first read, and the first 500 updates behind the newest
      snapshot of the second. */
  lemma {:induction false} ResponseHolds(response: StateResponse, s: Log, t: Log)
    requires LogShape(s) && LogShape(t) && Later(s, t) && Represents(response, Response(s, t))
    ensures if s.snapshots == map[] then response.snapshot == {} && response.snapshotSeq == 0
            else IsGreatest(s.snapshots.Keys, response.snapshotSeq)
                 && response.snapshot == s.snapshots[response.snapshotSeq]
    ensures !t.life.Live? ==> response.updates == []
    ensures t.life.Live? ==>
              var last := DocumentLog.LastSnapshotSeq(t);
              && last <= |t.history| && |response.updates| == Min(500, |t.history| - last)
              && forall m :: 0 <= m < |response.updates| ==>
                   response.updates[m] == UpdateDto(last + 1 + m, t.history[last + m])
  {
    ShapeOfResponse(s, t);
    var rows := Response(s, t).updates;
    forall m | 0 <= m < |rows| ensures response.updates[m] == UpdateDto(rows[m].number, rows[m].content) {
    }
  }

  /** No snapshot committed between the two reads and the backlog fits the limit. */
  ghost predicate SeesAll(first: Log, second: Log)
  {
    && second.life.Live? && Backlog(second) <= LIMIT
    && DocumentLog.LastSnapshotSeq(first) == DocumentLog.LastSnapshotSeq(second)
  }

  // ---------- what a background snapshot does to a document nobody else touches ----------

  /** The trigger with its first read in `db` and its second in `db'`. */
  predicate DueAcross(db: Db, db': Db, d: Doc, threshold: nat)
  {
    ShouldSnapshot(DocumentLog.LastSnapshotSeq(View(db, d)), DocumentLog.CurrentSeq(View(db', d)), threshold)
  }

  predicate Due(db: Db, d: Doc, threshold: nat) { DueAcross(db, db, d, threshold) }

  ghost predicate NoneReserved(db: Db, d: Doc)
  {
    forall t :: t in Of(db.transactions, d) ==> !Reserves(Of(db.transactions, d)[t])
  }

  /** A snapshot that is due never finds one already there; it is written unless another
      transaction holds the same seq. */
  lemma {:induction false} DueIsWritten(db: Db, d: Doc, threshold: nat)
    requires ValidDb(db) && d in db.updateSeq && db.updateSeq[d] < TWO_TO_64
    requires threshold > 0 && Due(db, d, threshold)
    ensures !Undisturbed(db, d).AlreadyThere?
    ensures NoneReserved(db, d) ==> Undisturbed(db, d) == Written(db.updateSeq[d])
  {
    LogShapeOf(db, d);
    assert DocumentLog.LastSnapshotSeq(View(db, d)) < db.updateSeq[d];
  }

  /** Compaction keeps the meaning: with bytes that hold the history, a client that opens
      the document before and one that opens it after see the same, now from the
      snapshot alone. */
  lemma {:induction false} SnapshotKeepsDocument(db: Db, d: Doc, bytes: Ops, db': Db)
    requires ValidDb(db) && ValidDb(db') && d in db.updateSeq
    requires Rewritten(db, db', d, db.updateSeq[d], bytes)
    requires Exact(View(db, d)) && bytes == Merge(View(db, d).history)
    ensures Backlog(View(db, d)) <= LIMIT ==> Rebuilt(Response(View(db, d), View(db, d))) == bytes
    ensures Response(View(db', d), View(db', d)) == Hydration.State(bytes, db.updateSeq[d], [])
  {
    var s, s' := View(db, d), View(db', d);
    RebuiltParts(s, s);
    AllParts(s.history, DocumentLog.LastSnapshotSeq(s));
    if Backlog(s) <= LIMIT {
      assert s.history[DocumentLog.LastSnapshotSeq(s)..EndOf(s)] == s.history[DocumentLog.LastSnapshotSeq(s)..];
    }
    NewestAfter(db, d, bytes, db');
    assert Above(s'.updates, db.updateSeq[d]) == {};
  }

  lemma {:induction false} NewestAfter(db: Db, d: Doc, bytes: Ops, db': Db)
    requires ValidDb(db) && d in db.updateSeq && Rewritten(db, db', d, db.updateSeq[d], bytes)
    ensures DocumentLog.LastSnapshotSeq(View(db', d)) == db.updateSeq[d] == DocumentLog.CurrentSeq(View(db', d))
    ensures NewestSnapshot(View(db', d)) == bytes
  {
    LogShapeOf(db, d);
    var s, s' := View(db, d), View(db', d);
    assert s'.snapshots.Keys == s.snapshots.Keys + {db.updateSeq[d]};
    MaxOfInsert(s.snapshots.Keys, db.updateSeq[d]);
  }

  /** A written snapshot turns the trigger off. */
  lemma {:induction false} NoLongerDue(db: Db, d: Doc, bytes: Ops, db': Db, threshold: nat)
    requires ValidDb(db) && d in db.updateSeq && Rewritten(db, db', d, db.updateSeq[d], bytes)
    ensures Due(db', d, threshold) <==> threshold == 0
  {
    NewestAfter(db, d, bytes, db');
  }

  /** The newest snapshot is `bytes`, at the current seq, and no update is left beside it. */
  ghost predicate SnapshotStands(db: Db, d: Doc, at: nat, bytes: Ops)
  {
    && d in db.updateSeq && db.updateSeq[d] == at
    && DocumentLog.LastSnapshotSeq(View(db, d)) == at
    && at in Of(db.snapshots, d) && Of(db.snapshots, d)[at] == bytes
    && Of(db.updates, d) == map[]
  }

  lemma {:induction false} StandsAfter(db: Db, d: Doc, bytes: Ops, db': Db)
    requires ValidDb(db) && d in db.updateSeq && Rewritten(db, db', d, db.updateSeq[d], bytes)
    ensures SnapshotStands(db', d, db.updateSeq[d], bytes)
  {
    NewestAfter(db, d, bytes, db');
    assert View(db', d).life.Live? && View(db', d).updates == map[];
  }

  /** A snapshot whose bytes hold the history keeps all of it recoverable. */
  lemma {:induction false} SnapshotKeepsCovered(db: Db, d: Doc, bytes: Ops, db': Db)
    requires ValidDb(db') && d in db.updateSeq && Rewritten(db, db', d, db.updateSeq[d], bytes)
    requires Covered(View(db, d)) && Merge(View(db, d).history) <= bytes
    ensures Covered(View(db', d))
  {
    var s, s' := View(db, d), View(db', d);
    assert s.history[..|s.history|] == s.history;
    forall n | n in s'.snapshots ensures Upto(s'.history, n) <= s'.snapshots[n] {
      assert n == db.updateSeq[d] || n in s.snapshots;
    }
  }

  class Service {
    const repository: Repository
    const cache: Cache<Listing>
    const pool: WorkerPool.TaskPool
    const threshold: nat
    var jobs: map<WorkerPool.Task, Job>

    constructor (repository: Repository, cache: Cache<Listing>, pool: WorkerPool.TaskPool, threshold: nat)
      ensures this.repository == repository && this.cache == cache && this.pool == pool
      ensures this.threshold == threshold && jobs == map[]
    {
      this.repository, this.cache, this.pool, this.threshold := repository, cache, pool, threshold;
      jobs := map[];
    }

    method GetDocumentState(doc: Doc, between: seq<Request>) returns (response: StateResponse)
      requires repository.Valid()
      modifies repository
      ensures repository.Valid() && AllLater(old(repository.State()), repository.State())
      ensures var s, t := View(old(repository.State()), doc), View(repository.State(), doc);
              && Represents(response, Response(s, t)) && ResponseShape(Response(s, t), t)
              && (Covered(t) && SeesAll(s, t) ==> Merge(t.history) <= Opened(response))
    {
      ghost var s := View(repository.State(), doc);
      LogShapeOf(repository.State(), doc);
      var newest := repository.LastSnapshot(doc);
      var snapshotSeq, snapshot := 0, {};
      if newest.Some? {
        snapshotSeq, snapshot := newest.value.0, newest.value.1;
      }
      repository.ServeAll(between);
      ghost var t := View(repository.State(), doc);
      LogShapeOf(repository.State(), doc);
      var rows := repository.UpdatesFromSnapshot(doc, snapshotSeq);
      var updates := ToDocumentUpdateDTOs(rows);
      response := StateResponse(snapshot, snapshotSeq, updates);
      ShapeOfResponse(s, t);
      OpenedIsRebuilt(response, Response(s, t));
      if Covered(t) && SeesAll(s, t) {
        ResponseCovers(s, t);
      }
    }

    /** The subtraction is unsigned: it wraps, and the trigger fires, when a document that
        had a snapshot disappears between the reads. */
    method ShouldSnapshot(doc: Doc, between: seq<Request>) returns (needed: bool)
      requires repository.Valid()
      modifies repository
      ensures repository.Valid() && AllLater(old(repository.State()), repository.State())
      ensures forall tx :: LeaveAlone(between, doc, tx) ==> Kept(old(repository.State()), repository.State(), doc, tx)
      ensures between == [] ==> repository.State() == old(repository.State())
      ensures needed <==> DueAcross(old(repository.State()), repository.State(), doc, threshold)
      ensures var last, current := DocumentLog.LastSnapshotSeq(View(old(repository.State()), doc)),
                                   DocumentLog.CurrentSeq(View(repository.State(), doc));
              current < TWO_TO_64 && last < TWO_TO_64 ==>
                (needed <==> if View(repository.State(), doc).life.Deleted? && last > 0
                             then TWO_TO_64 - last >= threshold
                             else current - last >= threshold)
    {
      LogShapeOf(repository.State(), doc);
      var last := repository.LastSnapshotSeq(doc);
      repository.ServeAll(between);
      LogShapeOf(repository.State(), doc);
      var current := repository.CurrentSeq(doc);
      needed := Minus(current, last) >= threshold;
    }

    /** The critical section: check again, ask the sync server, run the transaction. Others
        get in between the two reads of the check, while the bytes are fetched and until
        the transaction begins, and between its statements. */
    method SnapshotIfNeeded(doc: Doc, tx: TxId, answer: Option<Ops>, between: seq<Request>, fetching: seq<Request>,
                            pauses: seq<seq<Request>>)
      returns (ending: Ending, ghost second: Db)
      requires repository.Valid() && tx !in Of(repository.transactions, doc) && |pauses| == 4
      requires LeaveAlone(between, doc, tx) && LeaveAlone(fetching, doc, tx)
      requires forall i :: 0 <= i < 4 ==> LeaveAlone(pauses[i], doc, tx)
      modifies repository
      ensures repository.Valid() && AllLater(old(repository.State()), repository.State()) && !ending.Busy?
      ensures ending.Snapshotted? ==> answer.Some?
      ensures ending.FetchFailed? ==> answer.None?
      ensures ending.Snapshotted? && ending.outcome.Written? ==>
                Compacted(repository.State(), doc, ending.outcome.at, answer.value)
      ensures AllLater(old(repository.State()), second) && AllLater(second, repository.State())
      ensures between == [] ==> second == old(repository.State())
      ensures var last, current := DocumentLog.LastSnapshotSeq(View(old(repository.State()), doc)),
                                   DocumentLog.CurrentSeq(View(second, doc));
              last < TWO_TO_64 && current < TWO_TO_64 ==>
                (ending.NotNeeded? <==> if View(second, doc).life.Deleted? && last > 0 then TWO_TO_64 - last < threshold
                                        else current - last < threshold)
      ensures ending.NotNeeded? ==> repository.State() == second
      ensures var before := View(old(repository.State()), doc);
              between == [] && fetching == [] && pauses == [[], [], [], []]
              && before.life.Live? && before.updateSeq < TWO_TO_64 ==>
                && (Backlog(before) < threshold ==>
                      ending.NotNeeded? && repository.State() == old(repository.State()))
                && (Backlog(before) >= threshold && answer.None? ==>
                      ending.FetchFailed? && repository.State() == old(repository.State()))
                && (Backlog(before) >= threshold > 0 && answer.Some?
                    && (forall t :: t in before.txs ==> !Reserves(before.txs[t])) ==>
                      && ending == Snapshotted(Written(before.updateSeq))
                      && SnapshotStands(repository.State(), doc, before.updateSeq, answer.value))
    {
      ghost var s0 := repository.State();
      LogShapeOf(s0, doc);
      var needed := ShouldSnapshot(doc, between);
      second := repository.State();
      SameIsLater(second);
      if !needed {
        return NotNeeded, second;
      }
      repository.ServeAll(fetching);
      ghost var s2 := repository.State();
      LaterChains(s0, second, s2);
      if answer.None? {
        return FetchFailed, second;
      }
      var outcome := repository.CreateSnapshot(doc, tx, answer.value, pauses);
      LaterChains(s0, s2, repository.State());
      LaterChains(second, s2, repository.State());
      if between == [] && fetching == [] && pauses == [[], [], [], []] && threshold > 0 && doc in s0.updateSeq
         && s0.updateSeq[doc] < TWO_TO_64 && NoneReserved(s0, doc) {
        DueIsWritten(s0, doc, threshold);
        StandsAfter(s0, doc, answer.value, repository.State());
      }
      ending := Snapshotted(outcome);
    }

    /** The loser of the lock touches nothing; the winner frees it on every way out. */
    method HandleBackgroundSnapshot(doc: Doc, tx: TxId, answer: Option<Ops>, between: seq<Request>,
                                    fetching: seq<Request>, pauses: seq<seq<Request>>)
      returns (ending: Ending, ghost second: Db)
      requires repository.Valid() && tx !in Of(repository.transactions, doc) && |pauses| == 4
      requires LeaveAlone(between, doc, tx) && LeaveAlone(fetching, doc, tx)
      requires forall i :: 0 <= i < 4 ==> LeaveAlone(pauses[i], doc, tx)
      modifies repository, cache`entries
      ensures repository.Valid() && AllLater(old(repository.State()), repository.State())
      ensures ending.Busy? <==> cache.hasClient && old(cache.Live(SnapshotLock(doc)))
      ensures ending.Busy? ==> repository.State() == old(repository.State()) && cache.View() == old(cache.View())
      ensures !ending.Busy? ==>
                cache.View() == if cache.hasClient then old(cache.View()).Drop(SnapshotLock(doc)) else old(cache.View())
      ensures ending.Snapshotted? ==> answer.Some?
      ensures ending.FetchFailed? ==> answer.None?
      ensures ending.Snapshotted? && ending.outcome.Written? ==>
                Compacted(repository.State(), doc, ending.outcome.at, answer.value)
      ensures AllLater(old(repository.State()), second) && AllLater(second, repository.State())
      ensures between == [] ==> second == old(repository.State())
      ensures var last, current := DocumentLog.LastSnapshotSeq(View(old(repository.State()), doc)),
                                   DocumentLog.CurrentSeq(View(second, doc));
              !ending.Busy? && last < TWO_TO_64 && current < TWO_TO_64 ==>
                (ending.NotNeeded? <==> if View(second, doc).life.Deleted? && last > 0 then TWO_TO_64 - last < threshold
                                        else current - last < threshold)
      ensures ending.NotNeeded? ==> repository.State() == second
      ensures var before := View(old(repository.State()), doc);
              between == [] && fetching == [] && pauses == [[], [], [], []] && !ending.Busy?
              && before.life.Live? && before.updateSeq < TWO_TO_64 ==>
                && (Backlog(before) < threshold ==>
                      ending.NotNeeded? && repository.State() == old(repository.State()))
                && (Backlog(before) >= threshold && answer.None? ==>
                      ending.FetchFailed? && repository.State() == old(repository.State()))
                && (Backlog(before) >= threshold > 0 && answer.Some?
                    && (forall t :: t in before.txs ==> !Reserves(before.txs[t])) ==>
                      && ending == Snapshotted(Written(before.updateSeq))
                      && SnapshotStands(repository.State(), doc, before.updateSeq, answer.value))
    {
      second := repository.State();
      SameIsLater(second);
      var locked := cache.SetNX(SnapshotLock(doc), LOCK_TTL);
      if !locked {
        return Busy, second;
      }
      ending, second := SnapshotIfNeeded(doc, tx, answer, between, fetching, pauses);
      cache.Invalidate(SnapshotLock(doc));
    }

    /** Jobs stand under numbers the pool has given out. */
    ghost predicate Numbered()
      reads this, pool
    {
      forall n :: n in jobs ==> n < pool.next
    }

    /** How many more tasks the pool takes. */
    function Room(): int
      reads pool
    {
      if pool.isClosing then 0 else WorkerPool.CAPACITY - |pool.taskQueue|
    }

    /** A task with a number from `from` on does this job. */
    ghost predicate HasNew(job: Job, from: WorkerPool.Task)
      reads this
    {
      exists n :: from <= n && n in jobs && jobs[n] == job
    }

    /** A task the pool drops is forgotten; any other waits under its number. */
    method Submit(job: Job)
      requires pool.Valid() && Numbered()
      modifies this`jobs, pool
      ensures Numbered()
      ensures pool.Valid() && WorkerPool.Next(old(pool.View()), WorkerPool.Submit, pool.View())
      ensures pool.next == old(pool.next) + 1
      ensures Room() == old(Room()) - (if old(Room()) > 0 then 1 else 0)
      ensures jobs == if old(Room()) > 0 then old(jobs)[old(pool.next) := job] else old(jobs)
    {
      if !pool.isClosing && |pool.taskQueue| < WorkerPool.CAPACITY {
        jobs := jobs[pool.next := job];
      }
      pool.Submit();
    }

    /** One invalidation is submitted, and one snapshot exactly when it is due. */
    method SubmitFollowUps(doc: Doc, between: seq<Request>)
      requires repository.Valid() && pool.Valid() && Numbered()
      modifies this`jobs, repository, pool
      ensures Numbered()
      ensures repository.Valid() && pool.Valid() && AllLater(old(repository.State()), repository.State())
      ensures between == [] ==> repository.State() == old(repository.State())
      ensures FollowUps(old(jobs), old(pool.next), old(Room()), doc,
                        DueAcross(old(repository.State()), repository.State(), doc, threshold), jobs, pool.next)
      ensures forall n :: n < old(pool.next) ==>
                (n in jobs <==> n in old(jobs)) && (n in jobs ==> jobs[n] == old(jobs)[n])
      ensures old(Room()) > 0 ==> forall n: WorkerPool.Task :: old(pool.next) <= n ==>
                (n in jobs && jobs[n] == InvalidateOnce(doc) <==> n == old(pool.next))
      ensures old(Room()) > 1 && between == [] && View(repository.State(), doc).life.Live?
              && View(repository.State(), doc).updateSeq < TWO_TO_64 ==>
                HasNew(BackgroundSnapshot(doc), old(pool.next)) ==
                (Backlog(View(repository.State(), doc)) >= threshold)
    {
      LogShapeOf(repository.State(), doc);
      Submit(InvalidateOnce(doc));
      var due := ShouldSnapshot(doc, between);
      ghost var n := pool.next;
      if due {
        Submit(BackgroundSnapshot(doc));
        assert old(Room()) > 1 ==> n in jobs && jobs[n] == BackgroundSnapshot(doc);
      }
    }

    /** Only viewers are turned away, so a user without any role gets through. */
    method CreateDocumentUpdate(doc: Doc, role: Option<Membership.Role>, content: Ops, between: seq<Request>)
      returns (answer: Answer)
      requires repository.Valid() && pool.Valid() && Numbered()
      modifies this`jobs, repository, pool
      ensures Numbered()
      ensures repository.Valid() && pool.Valid() && AllLater(old(repository.State()), repository.State())
      ensures answer.Forbidden? <==> role == Some(Membership.Viewer)
      ensures answer.Stored? <==> role != Some(Membership.Viewer) && doc in old(repository.updateSeq)
      ensures !answer.Stored? ==>
                repository.State() == old(repository.State()) && pool.View() == old(pool.View()) && jobs == old(jobs)
      ensures answer.Stored? ==>
                View(old(repository.State()), doc).history + [content] <= View(repository.State(), doc).history
      ensures answer.Stored? && between == [] ==>
                Moves(old(repository.State()), doc, Append(content), repository.State())
      ensures answer.Stored? ==>
                FollowUps(old(jobs), old(pool.next), old(Room()), doc,
                          DueAcross(old(repository.State()), repository.State(), doc, threshold), jobs, pool.next)
      ensures answer.Stored? ==> forall n :: n < old(pool.next) ==>
                (n in jobs <==> n in old(jobs)) && (n in jobs ==> jobs[n] == old(jobs)[n])
      ensures answer.Stored? && old(Room()) > 0 ==> forall n: WorkerPool.Task :: old(pool.next) <= n ==>
                (n in jobs && jobs[n] == InvalidateOnce(doc) <==> n == old(pool.next))
      ensures answer.Stored? && old(Room()) > 1 && between == [] && View(repository.State(), doc).life.Live?
              && View(repository.State(), doc).updateSeq < TWO_TO_64 ==>
                HasNew(BackgroundSnapshot(doc), old(pool.next)) ==
                (Backlog(View(repository.State(), doc)) >= threshold)
    {
      ghost var s0 := repository.State();
      SameIsLater(s0);
      if role == Some(Membership.Viewer) {
        return Forbidden;
      }
      var ok := repository.CreateUpdate(doc, content);
      if !ok {
        return NotStored;
      }
      ghost var s1 := repository.State();
      MoveIsLater(s0, doc, Append(content), s1);
      assert DocumentLog.LastSnapshotSeq(View(s1, doc)) == DocumentLog.LastSnapshotSeq(View(s0, doc));
      SubmitFollowUps(doc, between);
      LaterChains(s0, s1, repository.State());
      assert Later(View(s1, doc), View(repository.State(), doc));
      answer := Stored;
    }

    /** At most one round of increments a minute for each document: the winner of the
        cooldown bumps exactly the lists of the collaborators, everybody else nothing. */
    method InvalidateThrottled(doc: Doc, listed: seq<Membership.Collaborator>)
      requires forall i, j :: 0 <= i < j < |listed| ==> listed[i].user != listed[j].user
      requires Membership.CountersOnly(cache.View())
      modifies cache`entries
      ensures Membership.CountersOnly(cache.View())
      ensures !cache.hasClient || old(cache.Live(InvalidationCooldown(doc))) ==> cache.View() == old(cache.View())
      ensures cache.hasClient && !old(cache.Live(InvalidationCooldown(doc))) ==>
                forall k :: cache.View().Counter(k) ==
                              old(cache.View()).Counter(k) + (if Membership.Bumps(listed, k) then 1 else 0)
      ensures cache.hasClient ==>
                InvalidationCooldown(doc) in cache.entries
                && (!old(cache.Live(InvalidationCooldown(doc))) ==>
                      cache.entries[InvalidationCooldown(doc)].expiry == Some(cache.now + 60 * SECOND))
    {
      var isNew := cache.SetNX(InvalidationCooldown(doc), COOLDOWN);
      if isNew {
        label won:
        Membership.InvalidateLists(cache, listed);
        assert !Membership.Bumps(listed, InvalidationCooldown(doc));
        assert Membership.SameEntry(old@won(cache.View()), cache.View(), InvalidationCooldown(doc));
      }
    }

    // ---------- versioned list reads ----------

    method GetUserDocuments(user: nat, page: int, size: int, answer: Listing) returns (listing: Listing)
      modifies cache`entries
      ensures var k := OwnedPage(user, old(cache.View()).Counter(OwnedVersion(user)), page, size);
              ListedThrough(cache.hasClient, old(cache.View()), cache.View(), k, listing, answer)
    {
      var version := cache.GetVersion(OwnedVersion(user));
      var found := cache.Get(OwnedPage(user, version, page, size));
      if found.Some? {
        return found.value;
      }
      listing := answer;
      cache.Set(OwnedPage(user, version, page, size), answer, PAGE_TTL);
    }

    method GetSharedDocuments(user: nat, page: int, size: int, answer: Listing) returns (listing: Listing)
      modifies cache`entries
      ensures var k := SharedPage(user, old(cache.View()).Counter(SharedVersion(user)), page, size);
              ListedThrough(cache.hasClient, old(cache.View()), cache.View(), k, listing, answer)
    {
      var version := cache.GetVersion(SharedVersion(user));
      var found := cache.Get(SharedPage(user, version, page, size));
      if found.Some? {
        return found.value;
      }
      listing := answer;
      cache.Set(SharedPage(user, version, page, size), answer, PAGE_TTL);
    }
  }

  /** One task number for the invalidation and, if due, one for the snapshot; what is
      behind them is kept as far as the pool has room. */
  predicate FollowUps(jobs: map<WorkerPool.Task, Job>, next: nat, room: int, doc: Doc, due: bool,
                      jobs': map<WorkerPool.Task, Job>, next': nat)
  {
    var first := if room > 0 then jobs[next := InvalidateOnce(doc)] else jobs;
    && next' == next + (if due then 2 else 1)
    && jobs' == if due && room > 1 then first[next + 1 := BackgroundSnapshot(doc)] else first
  }

  /** A live page `k` is served as it is; otherwise the database's answer is served and kept
      for a day under `k`. */
  ghost predicate ListedThrough(hasClient: bool, before: Store<Listing>, after: Store<Listing>, k: Key,
                                listing: Listing, answer: Listing)
  {
    if !hasClient then listing == answer && after == before
    else if before.Live(k) && before.entries[k].value.Json? then
      listing == before.entries[k].value.data && after == before
    else listing == answer && after == before.Put(k, Json(answer), PAGE_TTL)
  }

  // ---------- what two list reads have to do with each other ----------

  function PageUnder(shared: bool, user: nat, version: int, page: int, size: int): Key
  {
    if shared then SharedPage(user, version, page, size) else OwnedPage(user, version, page, size)
  }

  function CounterOf(shared: bool, user: nat): Key { if shared then SharedVersion(user) else OwnedVersion(user) }

  /** The counter is incremented, and no page of its new value is alive: the next read shows
      what the database answers, whatever older pages there are. */
  lemma {:induction false} ReadAfterIncrement(
      before: Store<Listing>, after: Store<Listing>, shared: bool, user: nat, page: int, size: int,
      listing: Listing, answer: Listing)
    requires var counter := CounterOf(shared, user);
             && (before.Live(counter) ==> before.entries[counter].value.Number?)
             && !before.Live(PageUnder(shared, user, before.Counter(counter) + 1, page, size))
             && var bumped := before.Incr(counter).Expire(counter, VERSION_TTL);
                ListedThrough(true, bumped, after, PageUnder(shared, user, bumped.Counter(counter), page, size),
                              listing, answer)
    ensures listing == answer
  {
    BumpCounts(before, CounterOf(shared, user), VERSION_TTL);
  }

  /** Without an increment, and within 24 hours of a read of the database, a second read of
      the page repeats the first one, whatever the database would answer by then. */
  lemma {:induction false} ReadRepeats(
      s0: Store<Listing>, s1: Store<Listing>, s2: Store<Listing>, s3: Store<Listing>, shared: bool, user: nat,
      page: int, size: int, first: Listing, second: Listing, answer: Listing)
    requires var k := PageUnder(shared, user, s0.Counter(CounterOf(shared, user)), page, size);
             && s2.Counter(CounterOf(shared, user)) == s0.Counter(CounterOf(shared, user))
             && ListedThrough(true, s0, s1, k, first, first) && ListedThrough(true, s2, s3, k, second, answer)
             && k in s2.entries && s2.entries[k] == s1.entries[k]
             && (if s0.Live(k) && s0.entries[k].value.Json? then s2.Live(k) else s2.now < s0.now + 24 * HOUR)
    ensures second == first && s3 == s2
  {
  }

  // ---------- a list read is a run of the list cache's protocol ----------

  /** The same keys with the same expiries and counters; pages stand for stamps. */
  ghost predicate Mirrors(s: Store<Listing>, t: Store<ListCache.Stamp>)
  {
    && s.now == t.now && s.entries.Keys == t.entries.Keys
    && forall k :: k in s.entries ==> SameButData(s.entries[k], t.entries[k])
  }

  predicate SameButData(e: Entry<Listing>, f: Entry<ListCache.Stamp>)
  {
    && e.expiry == f.expiry && (e.value.Json? <==> f.value.Json?) && (e.value.Number? <==> f.value.Number?)
    && (e.value.Number? ==> f.value.n == e.value.n)
  }

  lemma {:induction false} MirrorsAgree(s: Store<Listing>, t: Store<ListCache.Stamp>, k: Key)
    requires Mirrors(s, t)
    ensures s.Live(k) <==> t.Live(k)
    ensures s.Counter(k) == t.Counter(k)
  {
    assert k in s.entries <==> k in t.entries;
    if k in s.entries {
      assert SameButData(s.entries[k], t.entries[k]);
    }
  }

  /** A read that finds its page begins and hits; any other one begins, misses, queries and
      saves. What holds in every run of `ListCache` so holds of the two methods. */
  lemma {:induction false} ListReadIsRun(
      c: ListCache.System, r: nat, page: int, size: int, before: Store<Listing>, after: Store<Listing>,
      listing: Listing, answer: Listing)
    returns (states: seq<ListCache.System>, steps: seq<ListCache.Step>)
    requires Mirrors(before, c.store) && r !in c.readers
    requires var k := PageUnder(c.shared, c.user, before.Counter(CounterOf(c.shared, c.user)), page, size);
             && (before.Live(k) ==> before.entries[k].value.Json?)
             && ListedThrough(true, before, after, k, listing, answer)
    ensures IsRun(ListCache.Next, states, steps) && states[0] == c
    ensures Mirrors(after, states[|steps|].store) && states[|steps|].readers == c.readers
    ensures var k := PageUnder(c.shared, c.user, before.Counter(CounterOf(c.shared, c.user)), page, size);
            if before.Live(k) then steps == [ListCache.Begin(r, page, size), ListCache.Hit(r)]
            else steps == [ListCache.Begin(r, page, size), ListCache.Miss(r), ListCache.Query(r), ListCache.Save(r)]
  {
    var counter := CounterOf(c.shared, c.user);
    MirrorsAgree(before, c.store, counter);
    var k := PageUnder(c.shared, c.user, before.Counter(counter), page, size);
    MirrorsAgree(before, c.store, k);
    assert counter == ListCache.VersionKey(c) && k == ListCache.PageKey(c, ListCache.Version(c), page, size);
    var c1 := ListCache.Began(c, r, page, size);
    assert ListCache.Next(c, ListCache.Begin(r, page, size), c1);
    assert c1.readers - {r} == c.readers;
    if before.Live(k) {
      assert SameButData(before.entries[k], c.store.entries[k]);
      assert ListCache.Next(c1, ListCache.Hit(r), c);
      states, steps := [c, c1, c], [ListCache.Begin(r, page, size), ListCache.Hit(r)];
    } else {
      states, steps := MissedRead(c, c1, r, k, page, size);
      assert after == before.Put(k, Json(answer), PAGE_TTL);
    }
  }

  lemma {:induction false} MissedRead(
      c: ListCache.System, c1: ListCache.System, r: nat, k: Key, page: int, size: int)
    returns (states: seq<ListCache.System>, steps: seq<ListCache.Step>)
    requires r !in c.readers && c1 == ListCache.Began(c, r, page, size)
    requires k == ListCache.PageKey(c, ListCache.Version(c), page, size) && !c.store.Live(k)
    ensures IsRun(ListCache.Next, states, steps) && states[0] == c
    ensures steps == [ListCache.Begin(r, page, size), ListCache.Miss(r), ListCache.Query(r), ListCache.Save(r)]
    ensures var stamp := ListCache.Stamp(ListCache.Version(c), c.epoch, c.store.now, c.dbState);
            states[4] == c.(store := c.store.Put(k, Json(stamp), PAGE_TTL))
  {
    var reader := c1.readers[r];
    var c2 := c1.(readers := c1.readers[r := reader.(phase := ListCache.Missed)]);
    var c3 := c1.(readers := c1.readers[r := reader.(phase := ListCache.Storing(c.dbState))]);
    var stamp := ListCache.Stamp(ListCache.Version(c), c.epoch, c.store.now, c.dbState);
    var c4 := c.(store := c.store.Put(k, Json(stamp), PAGE_TTL));
    assert ListCache.Next(c, ListCache.Begin(r, page, size), c1);
    assert ListCache.Next(c1, ListCache.Miss(r), c2);
    assert ListCache.Next(c2, ListCache.Query(r), c3);
    assert c3.readers - {r} == c.readers && ListCache.SavedKey(c3, r) == k;
    assert ListCache.Next(c3, ListCache.Save(r), c4);
    states := [c, c1, c2, c3, c4];
    steps := [ListCache.Begin(r, page, size), ListCache.Miss(r), ListCache.Query(r), ListCache.Save(r)];
  }
}
