/** Theorems about the log: its shape in every run, what compaction may delete, and
    exactly when a background snapshot loses committed updates. */
module Compaction {
  import opened Runs
  import opened Yjs
  import opened DocumentLog

  // ---------- shape and order along a run ----------

  lemma {:induction false} LogShapeAlways(states: seq<Log>, steps: seq<Step>)
    requires IsRun(Next, states, steps) && states[0] == NEW
    ensures forall i :: 0 <= i < |states| ==> LogShape(states[i])
  {
    forall s, l, s' | LogShape(s) && Next(s, l, s') ensures LogShape(s') {
      LogShapeStep(s, l, s');
    }
    InvariantHolds(Next, LogShape, states, steps);
  }

  /** The next seq is always free, so the unique index on updates never aborts an append. */
  lemma AppendNeverConflicts(s: Log)
    requires LogShape(s) && s.life.Live?
    ensures s.updateSeq + 1 !in s.updates
  {
  }

  ghost predicate Later(s: Log, t: Log)
  {
    && s.history <= t.history
    && (t.life.Unborn? ==> s.life.Unborn?)
    && (s.life.Deleted? ==> t.life.Deleted?)
    && (!t.life.Deleted? ==>
          && s.updateSeq <= t.updateSeq
          && LastSnapshotSeq(s) <= LastSnapshotSeq(t)
          && forall n :: n in s.snapshots ==> n in t.snapshots && t.snapshots[n] == s.snapshots[n])
  }

  lemma {:induction false} LaterStep(s: Log, l: Step, s': Log)
    requires LogShape(s) && Next(s, l, s')
    ensures Later(s, s')
  {
    if l.CommitSnapshot? {
      CommitKeepsRowShape(s, l.tx, s');
    }
  }

  /** Along a run the history only grows, committed snapshots stay as they are and
      neither sequence number goes back, until the document is deleted for good. */
  lemma {:induction false} LaterAlways(states: seq<Log>, steps: seq<Step>, i: nat, j: nat)
    requires IsRun(Next, states, steps) && states[0] == NEW && i <= j < |states|
    ensures Later(states[i], states[j])
  {
    LogShapeAlways(states, steps);
    forall s, l, s' | LogShape(s) && Next(s, l, s') ensures Later(s, s') {
      LaterStep(s, l, s');
    }
    OrderHolds(Next, LogShape, Later, states, steps, i, j);
  }

  // ---------- no committed update is lost ----------

  /** The hypothesis on whoever supplies snapshot bytes: they hold the history up to
      the seq their transaction reads. */
  ghost predicate CoveringNext(s: Log, l: Step, s': Log)
  {
    Next(s, l, s') && (l.BeginSnapshot? ==> Upto(s.history, CurrentSeq(s)) <= l.bytes)
  }

  ghost predicate ExactNext(s: Log, l: Step, s': Log)
  {
    Next(s, l, s') && (l.BeginSnapshot? ==> Upto(s.history, CurrentSeq(s)) == l.bytes)
  }

  ghost predicate Covered(s: Log)
  {
    && LogShape(s)
    && (forall n :: n in s.snapshots ==> Upto(s.history, n) <= s.snapshots[n])
    && (forall t :: t in s.txs ==> Upto(s.history, s.txs[t].at) <= s.txs[t].bytes)
  }

  ghost predicate Exact(s: Log)
  {
    && LogShape(s)
    && (forall n :: n in s.snapshots ==> Upto(s.history, n) == s.snapshots[n])
    && (forall t :: t in s.txs ==> Upto(s.history, s.txs[t].at) == s.txs[t].bytes)
  }

  lemma {:induction false} UptoKept(s: Log, l: Step, s': Log)
    requires LogShape(s) && Next(s, l, s')
    ensures forall n {:trigger Upto(s'.history, n)} :: 0 <= n <= |s.history| ==>
              Upto(s'.history, n) == Upto(s.history, n)
  {
    forall n | 0 <= n <= |s.history| ensures Upto(s'.history, n) == Upto(s.history, n) {
      UptoStable(s.history, s'.history, n);
    }
  }

  lemma {:induction false} CoveredStep(s: Log, l: Step, s': Log)
    requires Covered(s) && CoveringNext(s, l, s')
    ensures Covered(s')
  {
    LogShapeStep(s, l, s');
    UptoKept(s, l, s');
    forall t | t in s'.txs ensures Upto(s'.history, s'.txs[t].at) <= s'.txs[t].bytes {
      assert t in s.txs || (l.BeginSnapshot? && l.tx == t);
    }
    forall n | n in s'.snapshots ensures Upto(s'.history, n) <= s'.snapshots[n] {
      assert n in s.snapshots || (l.CommitSnapshot? && n == s.txs[l.tx].at);
    }
  }

  lemma {:induction false} ExactStep(s: Log, l: Step, s': Log)
    requires Exact(s) && ExactNext(s, l, s')
    ensures Exact(s')
  {
    LogShapeStep(s, l, s');
    UptoKept(s, l, s');
    forall t | t in s'.txs ensures Upto(s'.history, s'.txs[t].at) == s'.txs[t].bytes {
      assert t in s.txs || (l.BeginSnapshot? && l.tx == t);
    }
    forall n | n in s'.snapshots ensures Upto(s'.history, n) == s'.snapshots[n] {
      assert n in s.snapshots || (l.CommitSnapshot? && n == s.txs[l.tx].at);
    }
  }

  /** What the update rows above the newest snapshot carry. */
  lemma {:induction false} StoredIs(s: Log)
    requires LogShape(s) && s.life.Live?
    ensures Stored(s) == NewestSnapshot(s) + Merge(s.history[LastSnapshotSeq(s)..])
  {
    var last := LastSnapshotSeq(s);
    var above := set n, op | n in s.updates && last < n && op in s.updates[n] :: op;
    var tail := s.history[last..];
    forall op ensures op in above <==> op in Merge(tail) {
      InMerge(tail, op);
      if op in above {
        var n :| n in s.updates && last < n && op in s.updates[n];
        assert tail[n - 1 - last] == s.history[n - 1];
      }
      if op in Merge(tail) {
        var i :| 0 <= i < |tail| && op in tail[i];
        assert last + 1 + i in s.updates && s.updates[last + 1 + i] == tail[i];
      }
    }
  }

  lemma {:induction false} SplitHistory(s: Log)
    requires LogShape(s) && s.life.Live?
    ensures Merge(s.history) == Merge(s.history[..LastSnapshotSeq(s)]) + Merge(s.history[LastSnapshotSeq(s)..])
  {
    AllParts(s.history, LastSnapshotSeq(s));
  }

  lemma {:induction false} NewestCovers(s: Log)
    requires Covered(s) && s.life.Live?
    ensures Merge(s.history[..LastSnapshotSeq(s)]) <= NewestSnapshot(s)
  {
    if LastSnapshotSeq(s) !in s.snapshots {
      assert s.history[..0] == [];
    }
  }

  lemma {:induction false} NewestIsExact(s: Log)
    requires Exact(s) && s.life.Live?
    ensures NewestSnapshot(s) == Merge(s.history[..LastSnapshotSeq(s)])
  {
    if LastSnapshotSeq(s) !in s.snapshots {
      assert s.history[..0] == [];
    }
  }

  /** In every interleaving of appends and snapshot transactions, with or without a lock
      around the latter, the database can rebuild all that was ever committed. */
  lemma {:induction false} NoUpdateLost(states: seq<Log>, steps: seq<Step>, i: nat)
    requires IsRun(CoveringNext, states, steps) && states[0] == NEW
    requires i < |states| && states[i].life.Live?
    ensures Merge(states[i].history) <= Stored(states[i])
  {
    CoveredAlways(states, steps);
    StoredCovers(states[i]);
  }

  lemma {:induction false} StoredCovers(s: Log)
    requires Covered(s) && s.life.Live?
    ensures Merge(s.history) <= Stored(s)
  {
    StoredIs(s);
    SplitHistory(s);
    NewestCovers(s);
  }

  /** With exact snapshots it rebuilds nothing else either. */
  lemma {:induction false} NothingInvented(states: seq<Log>, steps: seq<Step>, i: nat)
    requires IsRun(ExactNext, states, steps) && states[0] == NEW
    requires i < |states| && states[i].life.Live?
    ensures Merge(states[i].history) == Stored(states[i])
  {
    ExactAlways(states, steps);
    StoredIs(states[i]);
    SplitHistory(states[i]);
    NewestIsExact(states[i]);
  }

  lemma {:induction false} CoveredAlways(states: seq<Log>, steps: seq<Step>)
    requires IsRun(CoveringNext, states, steps) && states[0] == NEW
    ensures forall i :: 0 <= i < |states| ==> Covered(states[i])
  {
    forall s, l, s' | Covered(s) && CoveringNext(s, l, s') ensures Covered(s') {
      CoveredStep(s, l, s');
    }
    InvariantHolds(CoveringNext, Covered, states, steps);
  }

  lemma {:induction false} ExactAlways(states: seq<Log>, steps: seq<Step>)
    requires IsRun(ExactNext, states, steps) && states[0] == NEW
    ensures forall i :: 0 <= i < |states| ==> Exact(states[i])
  {
    forall s, l, s' | Exact(s) && ExactNext(s, l, s') ensures Exact(s') {
      ExactStep(s, l, s');
    }
    InvariantHolds(ExactNext, Exact, states, steps);
  }

  // ---------- when the background snapshot breaks the hypothesis ----------

  /** A snapshot labelled `last` whose bytes end at `fetched` keeps the history whole
      exactly when no update was committed between the two. */
  lemma {:induction false} LabelMustMatchBytes(s: Log, fetched: nat)
    requires LogShape(s) && s.life.Live? && Fresh(s.history)
    requires fetched <= LastSnapshotSeq(s) && NewestSnapshot(s) == Merge(s.history[..fetched])
    ensures Merge(s.history) <= Stored(s) <==> fetched == LastSnapshotSeq(s)
  {
    StoredIs(s);
    SplitHistory(s);
    var last := LastSnapshotSeq(s);
    if fetched < last {
      assert s.history[last..] == s.history[last..|s.history|];
      MissingPart(s.history, fetched, last, |s.history|);
    }
  }

  /** From its first statement to its commit a transaction keeps its seq and bytes. */
  lemma {:induction false} TxKeepsItsSeq(states: seq<Log>, steps: seq<Step>, begin: nat, end: nat, tx: TxId)
    requires IsRun(Next, states, steps)
    requires begin < end < |states| && steps[begin].BeginSnapshot? && steps[begin].tx == tx
    requires forall k :: begin < k <= end ==> tx in states[k].txs
    ensures states[end].txs[tx].at == CurrentSeq(states[begin])
    ensures states[end].txs[tx].bytes == steps[begin].bytes
  {
    assert Next(states[begin], steps[begin], states[begin + 1]);
    for k := begin + 1 to end
      invariant states[k].txs[tx].at == CurrentSeq(states[begin])
      invariant states[k].txs[tx].bytes == steps[begin].bytes
    {
      assert Next(states[k], steps[k], states[k + 1]);
    }
  }

  /** Any bytes, from whomever: the snapshot that a transaction commits as the newest one
      keeps the history whole if and only if what the bytes lack of the history its seq
      stands for came again in a later update; for payloads that share no operation, if
      and only if the bytes hold that history. */
  lemma {:induction false} SnapshotLosslessIff(states: seq<Log>, steps: seq<Step>, begin: nat, commit: nat, tx: TxId)
    requires IsRun(Next, states, steps) && states[0] == NEW
    requires begin < commit < |steps| && steps[begin].BeginSnapshot? && steps[begin].tx == tx
    requires forall k :: begin < k <= commit ==> tx in states[k].txs
    requires steps[commit] == CommitSnapshot(tx)
    requires states[begin].life.Live? && LastSnapshotSeq(states[commit + 1]) == states[begin].updateSeq
    ensures var before, t := states[begin].history, states[commit + 1];
            && before <= t.history
            && (Merge(t.history) <= Stored(t) <==>
                  Merge(before) <= steps[begin].bytes + Merge(t.history[|before|..]))
            && (Disjoint(t.history) ==> (Merge(t.history) <= Stored(t) <==> Merge(before) <= steps[begin].bytes))
  {
    LogShapeAlways(states, steps);
    TxKeepsItsSeq(states, steps, begin, commit, tx);
    assert Next(states[commit], steps[commit], states[commit + 1]);
    LaterAlways(states, steps, begin, commit + 1);
    var t, n := states[commit + 1], |states[begin].history|;
    assert t.history[..n] == states[begin].history;
    StoredIs(t);
    SplitHistory(t);
    if Disjoint(t.history) {
      DisjointParts(t.history, n);
    }
  }

  /** The background path fetches the bytes first and lets the transaction read the seq
      later. If the bytes are exactly the database's history at the fetch, the snapshot
      loses updates exactly if some were committed between those two points. */
  lemma {:induction false} BackgroundSnapshotLossless(
      states: seq<Log>, steps: seq<Step>, fetch: nat, begin: nat, commit: nat, tx: TxId)
    requires IsRun(Next, states, steps) && states[0] == NEW
    requires fetch <= begin < commit < |steps|
    requires steps[begin] == BeginSnapshot(tx, Merge(states[fetch].history))
    requires forall k :: begin < k <= commit ==> tx in states[k].txs
    requires steps[commit] == CommitSnapshot(tx)
    requires states[begin].life.Live? && LastSnapshotSeq(states[commit + 1]) == states[begin].updateSeq
    requires Fresh(states[commit + 1].history)
    ensures Merge(states[commit + 1].history) <= Stored(states[commit + 1])
       <==> states[fetch].updateSeq == states[begin].updateSeq
  {
    LogShapeAlways(states, steps);
    TxKeepsItsSeq(states, steps, begin, commit, tx);
    assert Next(states[commit], steps[commit], states[commit + 1]);
    LaterAlways(states, steps, fetch, begin);
    LaterAlways(states, steps, fetch, commit + 1);
    var fetched := |states[fetch].history|;
    assert states[fetch].history == states[commit + 1].history[..fetched];
    LabelMustMatchBytes(states[commit + 1], fetched);
  }

  const S1: Log := NEW.(life := Live)
  const S2: Log := Log(Live, 1, map[1 := {1}], map[], map[], [{1}])
  const S3: Log := Log(Live, 2, map[1 := {1}, 2 := {2}], map[], map[], [{1}, {2}])
  const S4: Log := S3.(txs := map[0 := Tx(2, {1}, Reading)])
  const S5: Log := S3.(txs := map[0 := Tx(2, {1}, Checked)])
  const S6: Log := S3.(txs := map[0 := Tx(2, {1}, Inserted)])
  const S7: Log := S3.(txs := map[0 := Tx(2, {1}, Purged({1, 2}))])
  const S8: Log := Log(Live, 2, map[], map[2 := {1}], map[], [{1}, {2}])

  /** A run of the server's own step order that loses an update: the second update is
      committed after the bytes were fetched and before the snapshot's seq was read. */
  lemma {:induction false} LostUpdateRun()
    ensures IsRun(Next, [NEW, S1, S2, S3, S4, S5, S6, S7, S8],
                  [Create, Append({1}), Append({2}), BeginSnapshot(0, {1}), CheckSnapshot(0),
                   InsertSnapshot(0), PurgeUpdates(0), CommitSnapshot(0)])
    ensures Merge(S2.history) == {1} // what the sync server answered, before the second update
    ensures 2 in Merge(S8.history) && 2 !in Stored(S8)
  {
    LateUpdateAppended();
    LateUpdateCompacted();
    assert S2.history[0] == {1} && S8.history[1] == {2};
  }

  lemma LateUpdateAppended()
    ensures Next(NEW, Create, S1) && Next(S1, Append({1}), S2) && Next(S2, Append({2}), S3)
    ensures Next(S3, BeginSnapshot(0, {1}), S4)
  {
    assert [{1}] == [] + [{1}] && [{1}, {2}] == [{1}] + [{2}];
  }

  lemma LateUpdateCompacted()
    ensures Next(S4, CheckSnapshot(0), S5) && Next(S5, InsertSnapshot(0), S6)
    ensures Next(S6, PurgeUpdates(0), S7) && Next(S7, CommitSnapshot(0), S8)
  {
    assert (set n | n in S6.updates && n <= 2) == {1, 2};
  }
}
