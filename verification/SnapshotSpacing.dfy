/** Exactly when the background path stores two snapshots less than a threshold apart. */
module SnapshotSpacing {
  import opened Runs
  import opened Yjs
  import Log = DocumentLog
  import opened Hydration
  import TimedStore
  import opened Wrappers
  import opened SnapshotLock

  /** A run from `s` up to `deadline` that leaves a document with snapshots too close. */
  ghost predicate CanCrowd(s: System, deadline: nat)
  {
    exists states: seq<System>, steps: seq<Step> ::
      IsRun(Next, states, steps) && states[0] == s && Crowds(states, steps, deadline)
  }

  ghost predicate Crowds(states: seq<System>, steps: seq<Step>, deadline: nat)
    requires |states| == |steps| + 1
  {
    && Until(states, deadline)
    && !states[|steps|].log.life.Deleted?
    && !Spaced(states[|steps|].log.snapshots.Keys, states[|steps|].threshold)
  }

  ghost predicate Until(states: seq<System>, deadline: nat)
  {
    forall i :: 0 <= i < |states| ==> states[i].store.now <= deadline
  }

  // ---------- before the first lock expires ----------

  /** Nobody inside entered before `since`. */
  ghost predicate SpacedSince(s: System, since: nat)
  {
    SpacingInv(s) && since <= s.store.now && forall u :: u in s.workers ==> since <= s.workers[u].since
  }

  lemma {:induction false} SpacedSinceStep(s: System, l: Step, s': System, since: nat)
    requires SpacedSince(s, since) && Next(s, l, s') && s'.store.now < since + TimedStore.LOCK_TTL
    ensures SpacedSince(s', since)
  {
    assert BriefNext(s, l, s');
    SpacingStep(s, l, s');
    forall u | u in s'.workers ensures since <= s'.workers[u].since {
      assert u in s.workers ==> since <= s.workers[u].since;
    }
  }

  lemma {:induction false} NoCrowdInTime(states: seq<System>, steps: seq<Step>, deadline: nat, since: nat)
    requires IsRun(Next, states, steps) && SpacedSince(states[0], since) && deadline < since + TimedStore.LOCK_TTL
    ensures !Crowds(states, steps, deadline)
  {
    if Crowds(states, steps, deadline) {
      for i := 0 to |steps|
        invariant SpacedSince(states[i], since)
      {
        assert Next(states[i], steps[i], states[i + 1]);
        SpacedSinceStep(states[i], steps[i], states[i + 1], since);
      }
      assert false;
    }
  }

  // ---------- one whole snapshot transaction ----------

  predicate Ready(s: System, w: WorkerId)
  {
    && w in s.workers && s.workers[w].phase.Fetched?
    && s.log.life.Live? && s.log.txs == map[] && s.log.updateSeq !in s.log.snapshots
  }

  function Opened(s: System, w: WorkerId, stage: Log.Stage): System
    requires Ready(s, w)
  {
    Go(s, w, InTx).(log := s.log.(txs := map[w := Log.Tx(s.log.updateSeq, s.workers[w].phase.bytes, stage)]))
  }

  function Doomed(s: System): set<nat> { set n | n in s.log.updates && n <= s.log.updateSeq }

  function WithSnapshot(s: System, w: WorkerId): System
    requires Ready(s, w)
  {
    Go(s, w, Leaving).(log := s.log.(snapshots := s.log.snapshots[s.log.updateSeq := s.workers[w].phase.bytes],
                                     updates := s.log.updates - Doomed(s)))
  }

  function Transaction(w: WorkerId): seq<Step>
  {
    [Begin(w), Transact(w, Log.CheckSnapshot(w)), Transact(w, Log.InsertSnapshot(w)),
     Transact(w, Log.PurgeUpdates(w)), Transact(w, Log.CommitSnapshot(w))]
  }

  lemma {:induction false} Checked(s: System, w: WorkerId)
    requires Ready(s, w)
    ensures Next(s, Begin(w), Opened(s, w, Log.Reading))
    ensures Next(Opened(s, w, Log.Reading), Transact(w, Log.CheckSnapshot(w)), Opened(s, w, Log.Checked))
  {
  }

  lemma {:induction false} Inserted(s: System, w: WorkerId)
    requires Ready(s, w)
    ensures Next(Opened(s, w, Log.Checked), Transact(w, Log.InsertSnapshot(w)), Opened(s, w, Log.Inserted))
    ensures Next(Opened(s, w, Log.Inserted), Transact(w, Log.PurgeUpdates(w)), Opened(s, w, Log.Purged(Doomed(s))))
  {
  }

  lemma {:induction false} Committed(s: System, w: WorkerId)
    requires Ready(s, w)
    ensures Next(Opened(s, w, Log.Purged(Doomed(s))), Transact(w, Log.CommitSnapshot(w)), WithSnapshot(s, w))
  {
    assert Opened(s, w, Log.Purged(Doomed(s))).log.txs - {w} == map[];
  }

  lemma {:induction false} StoreSnapshot(s: System, w: WorkerId) returns (states: seq<System>)
    requires Ready(s, w)
    ensures IsRun(Next, states, Transaction(w)) && states[0] == s && states[5] == WithSnapshot(s, w)
    ensures Until(states, s.store.now)
  {
    Checked(s, w);
    Inserted(s, w);
    Committed(s, w);
    states := [s, Opened(s, w, Log.Reading), Opened(s, w, Log.Checked), Opened(s, w, Log.Inserted),
               Opened(s, w, Log.Purged(Doomed(s))), WithSnapshot(s, w)];
  }

  // ---------- the second worker comes in at the expiry ----------

  function Joined(s: System, v: WorkerId, time: nat, phase: Phase): System
  {
    s.(store := s.store.Advance(time).PutIfAbsent(s.lock, TimedStore.Flag, TimedStore.LOCK_TTL),
       workers := s.workers[v := Worker(time, phase)])
  }

  lemma {:induction false} SecondComesIn(s: System, w: WorkerId, v: WorkerId, time: nat) returns (states: seq<System>)
    requires SpacingInv(s) && s.log.life.Live? && v !in s.workers && w in s.workers && Due(s)
    requires time == s.workers[w].since + TimedStore.LOCK_TTL && s.log.updateSeq < TWO_TO_64
    ensures IsRun(Next, states, [Step.Advance(time), Acquire(v), ReadLast(v), ReadCurrent(v), Fetch(v, Some({}))])
    ensures states[0] == s && states[5] == Joined(s, v, time, Fetched({})) && Until(states, time)
  {
    var s1 := s.(store := s.store.Advance(time));
    assert !s1.store.Live(s.lock);
    var last := Log.LastSnapshotSeq(s.log);
    var s2, s3 := Joined(s, v, time, Locked), Joined(s, v, time, SawLast(last));
    var s4, s5 := Joined(s, v, time, Needed), Joined(s, v, time, Fetched({}));
    assert Next(s, Step.Advance(time), s1) && Next(s1, Acquire(v), s2);
    assert Next(s2, ReadLast(v), s3);
    assert ShouldSnapshot(last, Log.CurrentSeq(s.log), s.threshold);
    assert Next(s3, ReadCurrent(v), s4);
    assert Next(s4, Fetch(v, Some({})), s5);
    states := [s, s1, s2, s3, s4, s5];
  }

  function Appended(s: System): System
  {
    s.(log := s.log.(updateSeq := s.log.updateSeq + 1, updates := s.log.updates[s.log.updateSeq + 1 := {}],
                     history := s.log.history + [{}]))
  }

  /** Both are inside with their bytes: one stores its snapshot, an update comes, the other
      stores its own right behind. */
  lemma {:induction false} BothStore(
      s: System, w: WorkerId, v: WorkerId) returns (states: seq<System>, steps: seq<Step>)
    requires Ready(s, w) && v in s.workers && v != w && s.workers[v].phase.Fetched?
    requires s.log.updateSeq + 1 !in s.log.snapshots && s.log.updateSeq + 1 !in s.log.updates
    ensures IsRun(Next, states, steps) && states[0] == s && Until(states, s.store.now)
    ensures var t := states[|steps|];
            && t.threshold == s.threshold && t.log.life.Live?
            && s.log.updateSeq in t.log.snapshots && s.log.updateSeq + 1 in t.log.snapshots
  {
    var first := StoreSnapshot(s, w);
    var s1 := WithSnapshot(s, w);
    var s2 := Appended(s1);
    assert Next(s1, Outside(Log.Append({})), s2);
    var second := StoreSnapshot(s2, v);
    var middle := [s1, s2];
    assert IsRun(Next, middle, [Outside(Log.Append({}))]);
    Join(Next, first, Transaction(w), middle, [Outside(Log.Append({}))]);
    states, steps := first + middle[1..], Transaction(w) + [Outside(Log.Append({}))];
    assert states[|steps|] == s2;
    UntilJoins(first, middle, s.store.now);
    Join(Next, states, steps, second, Transaction(v));
    assert (states + second[1..])[|steps| + 5] == second[5];
    UntilJoins(states, second, s.store.now);
    states, steps := states + second[1..], steps + Transaction(v);
  }

  lemma UntilJoins(a: seq<System>, b: seq<System>, deadline: nat)
    requires Until(a, deadline) && Until(b, deadline) && b != []
    ensures Until(a + b[1..], deadline)
  {
  }

  lemma {:induction false} CrowdsAtExpiry(s: System, w: WorkerId, v: WorkerId, deadline: nat)
    requires SpacingInv(s) && s.log.life.Live? && s.threshold >= 2 && s.log.updateSeq + 1 < TWO_TO_64
    requires w in s.workers && s.workers[w].phase.Fetched? && v !in s.workers
    requires s.workers[w].since + TimedStore.LOCK_TTL <= deadline
    ensures CanCrowd(s, deadline)
  {
    var time := s.workers[w].since + TimedStore.LOCK_TTL;
    assert WorkerKnows(s, w) && Due(s);
    NothingOpen(s, w);
    var way := SecondComesIn(s, w, v, time);
    var moves := [Step.Advance(time), Acquire(v), ReadLast(v), ReadCurrent(v), Fetch(v, Some({}))];
    var both, stores := BothStore(way[5], w, v);
    Join(Next, way, moves, both, stores);
    var states, steps := way + both[1..], moves + stores;
    assert states[5 + |stores|] == both[|stores|];
    UntilJoins(way, both, deadline);
    var seqs := states[|steps|].log.snapshots.Keys;
    assert s.log.updateSeq in seqs && s.log.updateSeq + 1 in seqs;
    assert Crowds(states, steps, deadline);
    assert states[0] == s;
  }

  /** Alone inside and before its transaction, a worker finds no other one open. */
  lemma {:induction false} NothingOpen(s: System, w: WorkerId)
    requires SpacingInv(s) && s.log.life.Live? && s.threshold > 0 && w in s.workers && s.workers[w].phase.Fetched?
    ensures s.log.txs == map[]
    ensures Ready(s, w) && s.log.updateSeq + 1 !in s.log.snapshots && s.log.updateSeq + 1 !in s.log.updates
  {
    assert forall t :: t in s.workers ==> t == w;
    assert s.log.txs == map[];
    assert WorkerKnows(s, w) && Due(s);
  }

  /** From every state of the background path with a worker that has fetched its bytes and
      another one outside: snapshots less than a threshold apart can be stored if and only
      if 30 seconds can pass from the moment the first one took the lock. */
  lemma {:induction false} CrowdedIff(s: System, w: WorkerId, v: WorkerId, deadline: nat)
    requires SpacingInv(s) && s.log.life.Live? && s.threshold >= 2 && s.log.updateSeq + 1 < TWO_TO_64
    requires w in s.workers && s.workers[w].phase.Fetched? && s.workers[w].since <= s.store.now && v !in s.workers
    ensures CanCrowd(s, deadline) <==> s.workers[w].since + 30 * TimedStore.SECOND <= deadline
  {
    var since := s.workers[w].since;
    if since + TimedStore.LOCK_TTL <= deadline {
      CrowdsAtExpiry(s, w, v, deadline);
    } else if CanCrowd(s, deadline) {
      var states: seq<System>, steps: seq<Step> :|
        IsRun(Next, states, steps) && states[0] == s && Crowds(states, steps, deadline);
      assert SpacedSince(s, since);
      NoCrowdInTime(states, steps, deadline, since);
    }
  }
}
