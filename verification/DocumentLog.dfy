/** The update log of one document as the database sees it: sequence numbers, update
    rows, snapshot rows, and the snapshot transactions in progress. Any number of
    transactions interleave statement by statement under read-committed isolation. */
module DocumentLog {
  import opened Yjs

  type TxId = nat

  /** How far a snapshot transaction has come. `Purged` remembers the update rows its
      DELETE saw; nothing of the transaction is visible before it commits. */
  datatype Stage = Reading | Checked | Inserted | Purged(doomed: set<nat>)

  datatype Tx = Tx(at: nat, bytes: Ops, stage: Stage)

  datatype Life = Unborn | Live | Deleted

  /** `history` lists all payloads ever committed; the server keeps no such list. */
  datatype Log = Log(life: Life, updateSeq: nat, updates: map<nat, Ops>, snapshots: map<nat, Ops>,
                     txs: map<TxId, Tx>, history: seq<Ops>)

  datatype Step =
    | Create
    | Append(content: Ops)
    | BeginSnapshot(tx: TxId, bytes: Ops)
    | CheckSnapshot(tx: TxId)
    | InsertSnapshot(tx: TxId)
    | PurgeUpdates(tx: TxId)
    | CommitSnapshot(tx: TxId)
    | AbortSnapshot(tx: TxId)
    | Delete

  const NEW: Log := Log(Unborn, 0, map[], map[], map[], [])

  // ---------- reading the log ----------

  predicate IsGreatest(seqs: set<nat>, last: nat)
  {
    last in seqs && forall n :: n in seqs ==> n <= last
  }

  lemma {:induction false} GreatestExists(seqs: set<nat>)
    requires seqs != {}
    ensures exists last :: IsGreatest(seqs, last)
  {
    var n :| n in seqs;
    var others := seqs - {n};
    if others == {} {
      assert seqs == {n};
      assert IsGreatest(seqs, n);
    } else {
      GreatestExists(others);
      var last :| IsGreatest(others, last);
      assert forall m :: m in seqs ==> m == n || m in others;
      assert IsGreatest(seqs, if n > last then n else last);
    }
  }

  /** SELECT COALESCE(MAX(seq), 0). */
  function MaxSeq(seqs: set<nat>): (last: nat)
    ensures if seqs == {} then last == 0 else IsGreatest(seqs, last)
  {
    if seqs == {} then 0
    else
      GreatestExists(seqs);
      var last :| last in seqs && forall n :: n in seqs ==> n <= last;
      last
  }

  function LastSnapshotSeq(s: Log): nat { MaxSeq(s.snapshots.Keys) }

  /** SELECT update_seq; a missing row leaves the out-parameter at 0. */
  function CurrentSeq(s: Log): nat { if s.life.Live? then s.updateSeq else 0 }

  function NewestSnapshot(s: Log): Ops
  {
    var last := LastSnapshotSeq(s);
    if last in s.snapshots then s.snapshots[last] else {}
  }

  /** All the database still knows of the document: the newest snapshot and the
      update rows above it. */
  ghost function Stored(s: Log): Ops
  {
    NewestSnapshot(s) + set n, op | n in s.updates && LastSnapshotSeq(s) < n && op in s.updates[n] :: op
  }

  // ---------- the transition relation ----------

  predicate Reserves(t: Tx) { t.stage.Inserted? || t.stage.Purged? }

  function Up(s: Log, tx: TxId, stage: Stage): Log
    requires tx in s.txs
  {
    s.(txs := s.txs[tx := s.txs[tx].(stage := stage)])
  }

  ghost predicate Next(s: Log, l: Step, s': Log)
  {
    match l
    case Create =>
      s.life.Unborn? && s' == s.(life := Live)
    case Append(content) =>
      // the row lock on the document makes the whole transaction one step
      && s.life.Live? && s.updateSeq + 1 !in s.updates
      && s' == s.(updateSeq := s.updateSeq + 1, updates := s.updates[s.updateSeq + 1 := content],
                  history := s.history + [content])
    case BeginSnapshot(tx, bytes) =>
      tx !in s.txs && s' == s.(txs := s.txs[tx := Tx(CurrentSeq(s), bytes, Reading)])
    case CheckSnapshot(tx) =>
      && tx in s.txs && s.txs[tx].stage.Reading?
      && s' == if s.txs[tx].at in s.snapshots then s.(txs := s.txs - {tx}) else Up(s, tx, Checked)
    case InsertSnapshot(tx) =>
      // the foreign key needs the document; the unique index waits for an uncommitted twin
      && tx in s.txs && s.txs[tx].stage.Checked? && s.life.Live? && s.txs[tx].at !in s.snapshots
      && (forall t :: t in s.txs && Reserves(s.txs[t]) ==> s.txs[t].at != s.txs[tx].at)
      && s' == Up(s, tx, Inserted)
    case PurgeUpdates(tx) =>
      && tx in s.txs && s.txs[tx].stage.Inserted?
      && s' == Up(s, tx, Purged(set n | n in s.updates && n <= s.txs[tx].at))
    case CommitSnapshot(tx) =>
      && tx in s.txs && s.txs[tx].stage.Purged?
      && s' == s.(snapshots := s.snapshots[s.txs[tx].at := s.txs[tx].bytes],
                  updates := s.updates - s.txs[tx].stage.doomed, txs := s.txs - {tx})
    case AbortSnapshot(tx) =>
      tx in s.txs && s' == s.(txs := s.txs - {tx})
    case Delete =>
      // waits for transactions that hold a key lock on the document row
      && s.life.Live? && (forall t :: t in s.txs ==> !Reserves(s.txs[t]))
      && s' == s.(life := Deleted, updateSeq := 0, updates := map[], snapshots := map[])
  }

  // ---------- log shape ----------

  ghost predicate RowShape(s: Log)
  {
    && (s.life.Live? ==>
          && |s.history| == s.updateSeq
          && LastSnapshotSeq(s) <= s.updateSeq
          && (forall n :: n in s.updates <==> LastSnapshotSeq(s) < n <= s.updateSeq)
          && (forall n :: n in s.updates ==> s.updates[n] == s.history[n - 1]))
    && (!s.life.Live? ==> s.updates == map[] && s.snapshots == map[] && s.updateSeq == 0)
    && (s.life.Unborn? ==> s.history == [])
  }

  ghost predicate TxShape(s: Log)
  {
    && (forall t :: t in s.txs ==> s.txs[t].at <= |s.history|)
    && Reserved(s)
    && (forall t :: t in s.txs && s.txs[t].stage.Purged? ==> DoomedIsExact(s, s.txs[t]))
  }

  /** An inserted but uncommitted snapshot keeps its document alive and its seq to itself. */
  ghost predicate Reserved(s: Log)
  {
    && (forall t :: t in s.txs && Reserves(s.txs[t]) ==> s.life.Live? && s.txs[t].at !in s.snapshots)
    && (forall t, u :: t in s.txs && u in s.txs && t != u && Reserves(s.txs[t]) && Reserves(s.txs[u]) ==>
          s.txs[t].at != s.txs[u].at)
  }

  /** The rows a DELETE saw are still all rows at or below its seq. */
  ghost predicate DoomedIsExact(s: Log, t: Tx)
    requires t.stage.Purged?
  {
    && (forall n :: n in t.stage.doomed ==> n <= t.at)
    && (forall n :: n in s.updates && n <= t.at ==> n in t.stage.doomed)
  }

  /** The stored seqs are exactly lastSnapshotSeq+1 .. update_seq, each row holds the
      payload committed under its seq, and the unique indexes are never hit twice. */
  ghost predicate LogShape(s: Log) { RowShape(s) && TxShape(s) }

  lemma MaxOfInsert(seqs: set<nat>, n: nat)
    ensures MaxSeq(seqs + {n}) == if n > MaxSeq(seqs) then n else MaxSeq(seqs)
  {
  }

  lemma {:induction false} LogShapeStep(s: Log, l: Step, s': Log)
    requires LogShape(s) && Next(s, l, s')
    ensures LogShape(s')
  {
    RowShapeStep(s, l, s');
    TxShapeStep(s, l, s');
  }

  lemma {:induction false} RowShapeStep(s: Log, l: Step, s': Log)
    requires LogShape(s) && Next(s, l, s')
    ensures RowShape(s')
  {
    if l.CommitSnapshot? {
      CommitKeepsRowShape(s, l.tx, s');
    }
  }

  lemma {:induction false} CommitKeepsRowShape(s: Log, tx: TxId, s': Log)
    requires LogShape(s) && Next(s, CommitSnapshot(tx), s')
    ensures RowShape(s')
    ensures LastSnapshotSeq(s') == if s.txs[tx].at > LastSnapshotSeq(s) then s.txs[tx].at else LastSnapshotSeq(s)
  {
    MaxOfInsert(s.snapshots.Keys, s.txs[tx].at);
    assert s'.snapshots.Keys == s.snapshots.Keys + {s.txs[tx].at};
  }

  lemma {:induction false} TxShapeStep(s: Log, l: Step, s': Log)
    requires LogShape(s) && Next(s, l, s')
    ensures TxShape(s')
  {
    ReservedStep(s, l, s');
    forall t | t in s'.txs && s'.txs[t].stage.Purged? ensures DoomedIsExact(s', s'.txs[t]) {
      DoomedStep(s, l, s', t);
    }
  }

  lemma {:induction false} DoomedStep(s: Log, l: Step, s': Log, t: TxId)
    requires LogShape(s) && Next(s, l, s') && t in s'.txs && s'.txs[t].stage.Purged?
    ensures DoomedIsExact(s', s'.txs[t])
  {
    assert t in s.txs;
  }

  lemma {:induction false} ReservedStep(s: Log, l: Step, s': Log)
    requires LogShape(s) && Next(s, l, s')
    ensures Reserved(s')
    ensures forall t :: t in s'.txs ==> s'.txs[t].at <= |s'.history|
  {
  }
}
