/** Background snapshots of one document: workers compete for a lock with a 30-second
    expiry, check the trigger again under it, ask the sync server for the bytes and run
    the snapshot transaction, while other sessions append updates and time passes. */
module SnapshotLock {
  import opened Runs
  import opened Yjs
  import Log = DocumentLog
  import opened Hydration
  import opened TimedStore
  import opened Wrappers
  import Compaction

  type WorkerId = nat

  datatype Phase =
    | Locked
    | SawLast(last: nat)
    | Needed
    | Fetched(bytes: Ops)
    | InTx
    | Leaving

  datatype Worker = Worker(since: nat, phase: Phase)

  /** `workers` are those inside the critical section, entered at `since`. */
  datatype System = System(threshold: nat, lock: Key, store: Store<()>, log: Log.Log, workers: map<WorkerId, Worker>)

  datatype Step =
    | Acquire(w: WorkerId)
    | ReadLast(w: WorkerId)
    | ReadCurrent(w: WorkerId)
    | Fetch(w: WorkerId, answer: Option<Ops>)
    | Begin(w: WorkerId)
    | Transact(w: WorkerId, l: Log.Step)
    | Release(w: WorkerId)
    | Crash(w: WorkerId)
    | Outside(l: Log.Step)
    | Advance(time: nat)

  function Go(s: System, w: WorkerId, phase: Phase): System
    requires w in s.workers
  {
    s.(workers := s.workers[w := s.workers[w].(phase := phase)])
  }

  ghost predicate In(s: System, w: WorkerId, l: Step)
  {
    w in s.workers &&
    match l
    case ReadLast(_) => s.workers[w].phase.Locked?
    case ReadCurrent(_) => s.workers[w].phase.SawLast?
    case Fetch(_, _) => s.workers[w].phase.Needed?
    case Begin(_) => s.workers[w].phase.Fetched?
    case Transact(_, _) => s.workers[w].phase.InTx? && w in s.log.txs
    case Release(_) => s.workers[w].phase.Leaving?
    case _ => true
  }

  ghost predicate Next(s: System, l: Step, s': System)
  {
    match l
    case Acquire(w) =>
      // a loser leaves the lock alone and gives up
      && w !in s.workers
      && s' == if s.store.Live(s.lock) then s
               else s.(store := s.store.PutIfAbsent(s.lock, Flag, LOCK_TTL),
                       workers := s.workers[w := Worker(s.store.now, Locked)])
    case ReadLast(w) =>
      In(s, w, l) && s' == Go(s, w, SawLast(Log.LastSnapshotSeq(s.log)))
    case ReadCurrent(w) =>
      && In(s, w, l)
      && s' == Go(s, w, if ShouldSnapshot(s.workers[w].phase.last, Log.CurrentSeq(s.log), s.threshold) then Needed
                        else Leaving)
    case Fetch(w, answer) =>
      In(s, w, l) && s' == Go(s, w, if answer.Some? then Fetched(answer.value) else Leaving)
    case Begin(w) =>
      && In(s, w, l) && w !in s.log.txs
      && Log.Next(s.log, Log.BeginSnapshot(w, s.workers[w].phase.bytes), s'.log)
      && s' == Go(s, w, InTx).(log := s'.log)
    case Transact(w, t) =>
      && In(s, w, l)
      && (t == Log.CheckSnapshot(w) || t == Log.InsertSnapshot(w) || t == Log.PurgeUpdates(w)
          || t == Log.CommitSnapshot(w) || t == Log.AbortSnapshot(w))
      && Log.Next(s.log, t, s'.log)
      && s' == Go(s, w, if w in s'.log.txs then InTx else Leaving).(log := s'.log)
    case Release(w) =>
      // deletes the key whoever holds it by now
      In(s, w, l) && s' == s.(store := s.store.Drop(s.lock), workers := s.workers - {w})
    case Crash(w) =>
      // the transaction rolls back and the lock stays until it expires
      In(s, w, l) && s' == s.(log := s.log.(txs := s.log.txs - {w}), workers := s.workers - {w})
    case Outside(t) =>
      && (t.Create? || t.Append? || t.Delete?)
      && Log.Next(s.log, t, s'.log) && s' == s.(log := s'.log)
    case Advance(time) =>
      s.store.now <= time && s' == s.(store := s.store.Advance(time))
  }

  ghost predicate Start(s: System) { s.workers == map[] && s.log == Log.NEW }

  // ---------- mutual exclusion ----------

  /** Every critical section ends within the lock's 30 seconds. */
  ghost predicate BriefNext(s: System, l: Step, s': System)
  {
    Next(s, l, s') && (l.Advance? ==> forall w :: w in s.workers ==> l.time < s.workers[w].since + LOCK_TTL)
  }

  /** Whoever is inside holds the lock entry it set itself, and is alone. */
  ghost predicate Exclusive(s: System)
  {
    && (forall w :: w in s.workers ==>
          && s.store.now < s.workers[w].since + LOCK_TTL
          && s.lock in s.store.entries
          && s.store.entries[s.lock].expiry == Some(s.workers[w].since + LOCK_TTL))
    && (forall v, w :: v in s.workers && w in s.workers ==> v == w)
  }

  lemma {:induction false} ExclusiveStep(s: System, l: Step, s': System)
    requires Exclusive(s) && BriefNext(s, l, s')
    ensures Exclusive(s')
  {
    if l.Acquire? && !s.store.Live(s.lock) {
      assert forall w :: w in s.workers ==> s.store.Live(s.lock);
    }
  }

  /** In every run with brief critical sections at most one worker is inside, and the
      lock it took is still there: no loser and no earlier holder deleted it. */
  lemma {:induction false} MutualExclusion(states: seq<System>, steps: seq<Step>, i: nat, v: WorkerId, w: WorkerId)
    requires IsRun(BriefNext, states, steps) && Start(states[0]) && i < |states|
    requires v in states[i].workers && w in states[i].workers
    ensures v == w && states[i].store.Live(states[i].lock)
  {
    forall s, l, s' | Exclusive(s) && BriefNext(s, l, s') ensures Exclusive(s') {
      ExclusiveStep(s, l, s');
    }
    InvariantHolds(BriefNext, Exclusive, states, steps);
  }

  /** Within runs that do not go beyond `deadline`, `v` can enter while `w` stays inside. */
  ghost predicate CanOverlap(s: System, w: WorkerId, v: WorkerId, deadline: nat)
  {
    exists states: seq<System>, steps: seq<Step> ::
      IsRun(Next, states, steps) && states[0] == s && Overlaps(states, steps, w, v, deadline)
  }

  ghost predicate Overlaps(states: seq<System>, steps: seq<Step>, w: WorkerId, v: WorkerId, deadline: nat)
    requires |states| == |steps| + 1
  {
    && (forall i :: 0 <= i < |states| ==> w in states[i].workers && states[i].store.now <= deadline)
    && v in states[|steps|].workers
  }

  /** While `w` stays inside and its 30 seconds are not over, it stays alone. */
  ghost predicate StillAlone(s: System, w: WorkerId, since: nat)
  {
    Exclusive(s) && w in s.workers && s.workers[w].since == since
  }

  lemma {:induction false} StillAloneStep(s: System, l: Step, s': System, w: WorkerId, since: nat)
    requires StillAlone(s, w, since) && Next(s, l, s') && w in s'.workers && s'.store.now < since + LOCK_TTL
    ensures StillAlone(s', w, since)
  {
    assert forall u :: u in s.workers ==> u == w;
    assert BriefNext(s, l, s');
    ExclusiveStep(s, l, s');
  }

  lemma {:induction false} NoOverlapInTime(
      states: seq<System>, steps: seq<Step>, w: WorkerId, v: WorkerId, deadline: nat)
    requires IsRun(Next, states, steps) && Exclusive(states[0]) && w in states[0].workers && v != w
    requires deadline < states[0].workers[w].since + LOCK_TTL
    ensures !Overlaps(states, steps, w, v, deadline)
  {
    if Overlaps(states, steps, w, v, deadline) {
      var since := states[0].workers[w].since;
      for i := 0 to |steps|
        invariant StillAlone(states[i], w, since)
      {
        assert Next(states[i], steps[i], states[i + 1]);
        StillAloneStep(states[i], steps[i], states[i + 1], w, since);
      }
      assert false;
    }
  }

  lemma {:induction false} OverlapAtExpiry(s: System, w: WorkerId, v: WorkerId, deadline: nat)
    requires Exclusive(s) && w in s.workers && v !in s.workers && s.workers[w].since + LOCK_TTL <= deadline
    ensures CanOverlap(s, w, v, deadline)
  {
    var expiry := s.workers[w].since + LOCK_TTL;
    var s1 := s.(store := s.store.Advance(expiry));
    assert !s1.store.Live(s.lock);
    var s2 := s1.(store := s1.store.PutIfAbsent(s.lock, Flag, LOCK_TTL),
                  workers := s1.workers[v := Worker(expiry, Locked)]);
    var states, steps := [s, s1, s2], [Step.Advance(expiry), Acquire(v)];
    assert Next(s, steps[0], s1) && Next(s1, steps[1], s2);
    assert IsRun(Next, states, steps) && Overlaps(states, steps, w, v, deadline);
  }

  /** From every state with one holder: another worker can get inside beside it if and only
      if the holder is still there 30 seconds after it entered. */
  lemma {:induction false} OverlapIff(s: System, w: WorkerId, v: WorkerId, deadline: nat)
    requires Exclusive(s) && w in s.workers && v !in s.workers
    ensures CanOverlap(s, w, v, deadline) <==> s.workers[w].since + 30 * SECOND <= deadline
  {
    if s.workers[w].since + LOCK_TTL <= deadline {
      OverlapAtExpiry(s, w, v, deadline);
    } else if CanOverlap(s, w, v, deadline) {
      var states: seq<System>, steps: seq<Step> :|
        IsRun(Next, states, steps) && states[0] == s && Overlaps(states, steps, w, v, deadline);
      NoOverlapInTime(states, steps, w, v, deadline);
      assert false;
    }
  }

  /** Past the expiry a second worker enters, and the first one's release then removes
      the second one's lock. */
  lemma {:induction false} OverrunRun(store: Store<()>, lock: Key)
    requires !store.Live(lock)
    ensures var s0 := System(1, lock, store, Log.NEW, map[]);
            var s1 := s0.(store := store.PutIfAbsent(lock, Flag, LOCK_TTL),
                          workers := map[0 := Worker(store.now, Locked)]);
            var s2 := s1.(workers := map[0 := Worker(store.now, SawLast(0))]);
            var s3 := s1.(workers := map[0 := Worker(store.now, Leaving)]);
            var s4 := s3.(store := s3.store.Advance(store.now + LOCK_TTL));
            var s5 := s4.(store := s4.store.PutIfAbsent(lock, Flag, LOCK_TTL),
                          workers := s4.workers[1 := Worker(store.now + LOCK_TTL, Locked)]);
            var s6 := s5.(store := s5.store.Drop(lock), workers := s5.workers - {0});
            && IsRun(Next, [s0, s1, s2, s3, s4, s5, s6],
                     [Acquire(0), ReadLast(0), ReadCurrent(0), Step.Advance(store.now + LOCK_TTL), Acquire(1),
                      Release(0)])
            && 0 in s5.workers && 1 in s5.workers && s5.store.Live(lock)
            && 1 in s6.workers && !s6.store.Live(lock)
  {
    assert Log.LastSnapshotSeq(Log.NEW) == 0;
  }

  // ---------- spacing ----------

  ghost predicate Spaced(seqs: set<nat>, gap: nat)
  {
    && (forall a :: a in seqs ==> gap <= a)
    && (forall a, b :: a in seqs && b in seqs && a < b ==> a + gap <= b)
  }

  /** The log has grown by a threshold since the last snapshot. */
  ghost predicate Due(s: System) { s.log.updateSeq >= Log.LastSnapshotSeq(s.log) + s.threshold }

  ghost predicate WorkerKnows(s: System, w: WorkerId)
    requires w in s.workers
  {
    match s.workers[w].phase
    case SawLast(last) => last == Log.LastSnapshotSeq(s.log)
    case Needed => Due(s)
    case Fetched(_) => Due(s)
    case InTx => w in s.log.txs ==> s.log.txs[w].at >= Log.LastSnapshotSeq(s.log) + s.threshold
    case _ => true
  }

  ghost predicate SpacingInv(s: System)
  {
    && Exclusive(s)
    && Log.LogShape(s.log)
    && (forall t :: t in s.log.txs ==> t in s.workers && s.workers[t].phase.InTx?)
    && (!s.log.life.Deleted? ==> Spaced(s.log.snapshots.Keys, s.threshold))
    && (!s.log.life.Deleted? ==> forall w :: w in s.workers ==> WorkerKnows(s, w))
  }

  lemma {:induction false} SpacingStep(s: System, l: Step, s': System)
    requires SpacingInv(s) && BriefNext(s, l, s')
    ensures SpacingInv(s')
  {
    ExclusiveStep(s, l, s');
    match l
    case Begin(w) => Log.LogShapeStep(s.log, Log.BeginSnapshot(w, s.workers[w].phase.bytes), s'.log);
    case Transact(w, t) => TransactKeepsSpacing(s, w, t, s');
    case Outside(t) => OutsideKeepsSpacing(s, t, s');
    case Crash(w) => CrashKeepsShape(s.log, w);
    case _ =>
  }

  lemma {:induction false} CrashKeepsShape(log: Log.Log, w: WorkerId)
    requires Log.LogShape(log)
    ensures Log.LogShape(log.(txs := log.txs - {w}))
  {
    if w in log.txs {
      Log.LogShapeStep(log, Log.AbortSnapshot(w), log.(txs := log.txs - {w}));
    } else {
      assert log.txs - {w} == log.txs;
    }
  }

  lemma {:induction false} TransactKeepsSpacing(s: System, w: WorkerId, t: Log.Step, s': System)
    requires SpacingInv(s) && BriefNext(s, Transact(w, t), s')
    ensures SpacingInv(s')
  {
    ExclusiveStep(s, Transact(w, t), s');
    if t.CommitSnapshot? {
      CommitKeepsSpacing(s, w, s');
    } else {
      Log.LogShapeStep(s.log, t, s'.log);
      assert s'.log.snapshots == s.log.snapshots;
    }
  }

  lemma {:induction false} CommitKeepsSpacing(s: System, w: WorkerId, s': System)
    requires SpacingInv(s) && BriefNext(s, Transact(w, Log.CommitSnapshot(w)), s') && Exclusive(s')
    ensures SpacingInv(s')
  {
    Log.LogShapeStep(s.log, Log.CommitSnapshot(w), s'.log);
    Log.CommitKeepsRowShape(s.log, w, s'.log);
    assert s.log.life.Live? && WorkerKnows(s, w);
    assert s'.log.snapshots.Keys == s.log.snapshots.Keys + {s.log.txs[w].at};
    forall v | v in s'.workers ensures v == w && s'.workers[v].phase.Leaving? {
      assert v in s.workers && w in s.workers;
    }
  }

  lemma {:induction false} OutsideKeepsSpacing(s: System, t: Log.Step, s': System)
    requires SpacingInv(s) && BriefNext(s, Outside(t), s')
    ensures SpacingInv(s')
  {
    Log.LogShapeStep(s.log, t, s'.log);
  }

  lemma {:induction false} SpacingAlways(states: seq<System>, steps: seq<Step>)
    requires IsRun(BriefNext, states, steps) && Start(states[0])
    ensures forall i :: 0 <= i < |states| ==> SpacingInv(states[i])
  {
    forall s, l, s' | SpacingInv(s) && BriefNext(s, l, s') ensures SpacingInv(s') {
      SpacingStep(s, l, s');
    }
    InvariantHolds(BriefNext, SpacingInv, states, steps);
  }

  lemma {:induction false} CountSpaced(seqs: set<nat>, gap: nat)
    requires Spaced(seqs, gap)
    ensures |seqs| * gap <= Log.MaxSeq(seqs)
    decreases |seqs|
  {
    if seqs != {} {
      var last := Log.MaxSeq(seqs);
      var rest := seqs - {last};
      CountSpaced(rest, gap);
      assert last in seqs && |seqs| == |rest| + 1;
      if rest != {} {
        SpacedBelowMax(seqs, gap);
      }
      OneMore(|rest|, gap, Log.MaxSeq(rest), last);
    }
  }

  lemma OneMore(count: nat, gap: nat, below: nat, last: nat)
    requires count * gap <= below && below + gap <= last
    ensures (count + 1) * gap <= last
  {
    assert (count + 1) * gap == count * gap + gap;
  }

  lemma {:induction false} SpacedBelowMax(seqs: set<nat>, gap: nat)
    requires Spaced(seqs, gap) && seqs - {Log.MaxSeq(seqs)} != {}
    ensures Log.MaxSeq(seqs - {Log.MaxSeq(seqs)}) + gap <= Log.MaxSeq(seqs)
  {
    var before := Log.MaxSeq(seqs - {Log.MaxSeq(seqs)});
    assert before in seqs - {Log.MaxSeq(seqs)};
  }

  /** With brief critical sections, and when the background path alone stores snapshots (as
      `Outside` has it), those of a live document are at least a threshold apart, however
      many workers, crashes and concurrent updates there are; so there are never more of
      them than update_seq / threshold. */
  lemma {:induction false} SnapshotsSpaced(states: seq<System>, steps: seq<Step>, i: nat)
    requires IsRun(BriefNext, states, steps) && Start(states[0]) && i < |states|
    requires states[i].log.life.Live?
    ensures Spaced(states[i].log.snapshots.Keys, states[i].threshold)
    ensures |states[i].log.snapshots| * states[i].threshold <= states[i].log.updateSeq
  {
    SpacingAlways(states, steps);
    CountSpaced(states[i].log.snapshots.Keys, states[i].threshold);
  }

  // ---------- the log does not rely on the lock ----------

  ghost predicate CoveringNext(s: System, l: Step, s': System)
  {
    && Next(s, l, s')
    && (l.Begin? ==> Upto(s.log.history, Log.CurrentSeq(s.log)) <= s.workers[l.w].phase.bytes)
  }

  lemma {:induction false} CoveredStep(s: System, l: Step, s': System)
    requires Compaction.Covered(s.log) && CoveringNext(s, l, s')
    ensures Compaction.Covered(s'.log)
  {
    match l
    case Begin(w) => Compaction.CoveredStep(s.log, Log.BeginSnapshot(w, s.workers[w].phase.bytes), s'.log);
    case Transact(w, t) => Compaction.CoveredStep(s.log, t, s'.log);
    case Outside(t) => Compaction.CoveredStep(s.log, t, s'.log);
    case Crash(w) => CrashKeepsShape(s.log, w);
    case _ =>
  }

  /** Critical sections may overrun, overlap and crash: given covering bytes nothing
      committed is lost. */
  lemma {:induction false} NoUpdateLost(states: seq<System>, steps: seq<Step>, i: nat)
    requires IsRun(CoveringNext, states, steps) && Start(states[0])
    requires i < |states| && states[i].log.life.Live?
    ensures Merge(states[i].log.history) <= Log.Stored(states[i].log)
  {
    var inv := (s: System) => Compaction.Covered(s.log);
    forall s, l, s' | inv(s) && CoveringNext(s, l, s') ensures inv(s') {
      CoveredStep(s, l, s');
    }
    InvariantHolds(CoveringNext, inv, states, steps);
    Compaction.StoredCovers(states[i].log);
  }
}
