/** The document tables and the statements the server runs on them. Child rows are
    grouped by their document_id; `View(db, d)` is the log of document `d`. */
module DocumentRepository {
  import opened Wrappers
  import opened Yjs
  import opened DocumentLog
  import opened Compaction
  import opened Hydration

  type Doc = nat

  type Table<V> = map<Doc, map<nat, V>>

  function Of<V>(table: Table<V>, d: Doc): map<nat, V> { if d in table then table[d] else map[] }

  /** Primary keys, update_seq, the row tables and the open snapshot transactions;
      `history` lists what was ever committed. */
  datatype Db = Db(nextId: Doc, updateSeq: map<Doc, nat>, updates: Table<Ops>, snapshots: Table<Ops>,
                   transactions: Table<Tx>, history: map<Doc, seq<Ops>>)

  function LifeOf(db: Db, d: Doc): Life
  {
    if d in db.updateSeq then Live else if d < db.nextId then Deleted else Unborn
  }

  function View(db: Db, d: Doc): Log
  {
    Log(LifeOf(db, d), if d in db.updateSeq then db.updateSeq[d] else 0, Of(db.updates, d), Of(db.snapshots, d),
        Of(db.transactions, d), if d in db.history then db.history[d] else [])
  }

  ghost predicate ValidDb(db: Db)
  {
    && (forall d: Doc :: d in db.updateSeq || d in db.history ==> d < db.nextId)
    && forall d: Doc :: LogShape(View(db, d))
  }

  /** Document `d` moves by step `l` and no other document notices. */
  ghost predicate Moves(db: Db, d: Doc, l: Step, db': Db)
  {
    && Next(View(db, d), l, View(db', d))
    && (forall e: Doc :: e in db'.updateSeq || e in db'.history ==> e < db'.nextId)
    && forall e: Doc :: e != d ==> View(db', e) == View(db, e)
  }

  lemma {:induction false} StaysValid(db: Db, d: Doc, l: Step, db': Db)
    requires ValidDb(db) && Moves(db, d, l, db')
    ensures ValidDb(db')
  {
    LogShapeStep(View(db, d), l, View(db', d));
    forall e: Doc ensures LogShape(View(db', e)) {
      assert e != d ==> LogShape(View(db, e));
    }
  }

  /** Transaction `tx` of `d` is open and has come as far as `stage`. */
  predicate Has(db: Db, d: Doc, tx: TxId, stage: Stage)
  {
    tx in Of(db.transactions, d) && Of(db.transactions, d)[tx].stage == stage
  }

  class Repository {
    var nextId: Doc
    var updateSeq: map<Doc, nat>
    var updates: Table<Ops>
    var snapshots: Table<Ops>
    var transactions: Table<Tx>
    ghost var history: map<Doc, seq<Ops>>

    ghost function State(): Db
      reads this
    {
      Db(nextId, updateSeq, updates, snapshots, transactions, history)
    }

    ghost predicate Valid()
      reads this
    {
      ValidDb(State())
    }

    constructor ()
      ensures Valid() && forall d: Doc :: View(State(), d) == NEW
    {
      nextId, updateSeq, updates, snapshots, transactions, history := 0, map[], map[], map[], map[], map[];
      new;
      assert LogShape(NEW);
    }

    // ---------- statements ----------

    method Create() returns (id: Doc)
      requires Valid()
      modifies this
      ensures Valid() && id == old(nextId) && Moves(old(State()), id, Step.Create, State())
    {
      id := nextId;
      nextId := nextId + 1;
      updateSeq := updateSeq[id := 0];
      LogShapeOf(old(State()), id);
      StaysValid(old(State()), id, Step.Create, State());
    }

    /** One transaction: take the next seq, insert the row under it. A missing document
        leaves the seq at 0 and fails the foreign key. */
    method CreateUpdate(doc: Doc, content: Ops) returns (ok: bool)
      requires Valid()
      modifies this
      ensures Valid() && transactions == old(transactions)
      ensures ok <==> doc in old(updateSeq)
      ensures if ok then Moves(old(State()), doc, Append(content), State()) else State() == old(State())
    {
      var number := 0;
      if doc in updateSeq {
        number := updateSeq[doc] + 1;
      }
      LogShapeOf(State(), doc);
      if doc !in updateSeq || number in Of(updates, doc) {
        return false;
      }
      updateSeq := updateSeq[doc := number];
      updates := updates[doc := Of(updates, doc)[number := content]];
      history := history[doc := (if doc in history then history[doc] else []) + [content]];
      StaysValid(old(State()), doc, Append(content), State());
      ok := true;
    }

    /** SELECT update_seq; the transaction keeps what it read. */
    method BeginSnapshot(doc: Doc, tx: TxId, bytes: Ops)
      requires Valid() && tx !in Of(transactions, doc)
      modifies this`transactions
      ensures Valid() && Moves(old(State()), doc, Step.BeginSnapshot(tx, bytes), State())
      ensures Has(State(), doc, tx, Reading)
    {
      var number := if doc in updateSeq then updateSeq[doc] else 0;
      transactions := transactions[doc := Of(transactions, doc)[tx := Tx(number, bytes, Reading)]];
      StaysValid(old(State()), doc, Step.BeginSnapshot(tx, bytes), State());
    }

    /** SELECT count(1) > 0: with a snapshot at that seq the transaction is over. */
    method CheckSnapshot(doc: Doc, tx: TxId) returns (found: bool)
      requires Valid() && Has(State(), doc, tx, Reading)
      modifies this`transactions
      ensures Valid() && Moves(old(State()), doc, Step.CheckSnapshot(tx), State())
      ensures found <==> Of(old(transactions), doc)[tx].at in Of(snapshots, doc)
      ensures if found then tx !in Of(transactions, doc) else Has(State(), doc, tx, Checked)
    {
      var t := Of(transactions, doc)[tx];
      found := t.at in Of(snapshots, doc);
      if found {
        transactions := transactions[doc := Of(transactions, doc) - {tx}];
      } else {
        transactions := transactions[doc := Of(transactions, doc)[tx := t.(stage := Checked)]];
      }
      StaysValid(old(State()), doc, Step.CheckSnapshot(tx), State());
    }

    /** INSERT of the snapshot row; fails when the document is gone or the unique index
        has, or waits for, another row with that seq. */
    method InsertSnapshot(doc: Doc, tx: TxId) returns (ok: bool)
      requires Valid() && Has(State(), doc, tx, Checked)
      modifies this`transactions
      ensures Valid()
      ensures ok <==>
                var at := Of(old(transactions), doc)[tx].at;
                && doc in updateSeq && at !in Of(snapshots, doc)
                && forall u :: u in Of(old(transactions), doc) && Of(old(transactions), doc)[u].at == at ==>
                                 !Reserves(Of(old(transactions), doc)[u])
      ensures if ok then Moves(old(State()), doc, Step.InsertSnapshot(tx), State()) else State() == old(State())
      ensures Has(State(), doc, tx, if ok then Inserted else Checked)
    {
      var t := Of(transactions, doc)[tx];
      ok := doc in updateSeq && t.at !in Of(snapshots, doc)
            && forall u :: u in Of(transactions, doc) && Reserves(Of(transactions, doc)[u]) ==>
                             Of(transactions, doc)[u].at != t.at;
      if ok {
        transactions := transactions[doc := Of(transactions, doc)[tx := t.(stage := Inserted)]];
        StaysValid(old(State()), doc, Step.InsertSnapshot(tx), State());
      }
    }

    /** DELETE of the update rows at or below the snapshot's seq. */
    method PurgeUpdates(doc: Doc, tx: TxId)
      requires Valid() && Has(State(), doc, tx, Inserted)
      modifies this`transactions
      ensures Valid() && Moves(old(State()), doc, Step.PurgeUpdates(tx), State())
      ensures tx in Of(transactions, doc) && Of(transactions, doc)[tx].stage.Purged?
    {
      var t := Of(transactions, doc)[tx];
      var doomed := set n | n in Of(updates, doc) && n <= t.at;
      transactions := transactions[doc := Of(transactions, doc)[tx := t.(stage := Purged(doomed))]];
      StaysValid(old(State()), doc, Step.PurgeUpdates(tx), State());
    }

    /** COMMIT: the snapshot row appears and the purged rows disappear together. */
    method Commit(doc: Doc, tx: TxId)
      requires Valid() && tx in Of(transactions, doc) && Of(transactions, doc)[tx].stage.Purged?
      modifies this
      ensures Valid() && Moves(old(State()), doc, CommitSnapshot(tx), State())
    {
      var t := Of(transactions, doc)[tx];
      snapshots := snapshots[doc := Of(snapshots, doc)[t.at := t.bytes]];
      updates := updates[doc := Of(updates, doc) - t.stage.doomed];
      transactions := transactions[doc := Of(transactions, doc) - {tx}];
      StaysValid(old(State()), doc, CommitSnapshot(tx), State());
    }

    method Rollback(doc: Doc, tx: TxId)
      requires Valid() && tx in Of(transactions, doc)
      modifies this`transactions
      ensures Valid() && Moves(old(State()), doc, AbortSnapshot(tx), State())
    {
      transactions := transactions[doc := Of(transactions, doc) - {tx}];
      StaysValid(old(State()), doc, AbortSnapshot(tx), State());
    }

    /** DELETE of the document, which cascades; waits while a snapshot row of it is
        uncommitted. */
    method DeleteDocument(doc: Doc) returns (done: bool)
      requires Valid()
      modifies this
      ensures Valid() && transactions == old(transactions)
      ensures if done then Moves(old(State()), doc, Delete, State()) else State() == old(State())
      ensures done <==> doc in old(updateSeq)
                        && forall t :: t in Of(transactions, doc) ==> !Reserves(Of(transactions, doc)[t])
    {
      done := doc in updateSeq && forall t :: t in Of(transactions, doc) ==> !Reserves(Of(transactions, doc)[t]);
      if done {
        updateSeq := updateSeq - {doc};
        updates := updates - {doc};
        snapshots := snapshots - {doc};
        LogShapeOf(old(State()), doc);
        StaysValid(old(State()), doc, Delete, State());
      }
    }

    // ---------- reads ----------

    method CurrentSeq(doc: Doc) returns (current: nat)
      ensures current == DocumentLog.CurrentSeq(View(State(), doc))
    {
      current := if doc in updateSeq then updateSeq[doc] else 0;
    }

    method LastSnapshotSeq(doc: Doc) returns (last: nat)
      ensures last == DocumentLog.LastSnapshotSeq(View(State(), doc))
    {
      last := MaxSeq(Of(snapshots, doc).Keys);
    }

    /** ORDER BY seq DESC, first row. */
    method LastSnapshot(doc: Doc) returns (newest: Option<(nat, Ops)>)
      ensures newest.None? <==> View(State(), doc).snapshots == map[]
      ensures newest.Some? ==>
                newest == Some((DocumentLog.LastSnapshotSeq(View(State(), doc)), NewestSnapshot(View(State(), doc))))
    {
      var rows := Of(snapshots, doc);
      newest := None;
      if rows != map[] {
        var last := MaxSeq(rows.Keys);
        newest := Some((last, rows[last]));
      }
    }

    method UpdatesFromSnapshot(doc: Doc, after: nat) returns (rows: seq<Row>)
      ensures rows == FirstRows(View(State(), doc).updates, after, 500)
    {
      rows := FirstRows(Of(updates, doc), after, LIMIT);
    }

    // ---------- what other sessions do in between ----------

    /** Runs one statement or transaction of another session, if it can run now. */
    method Serve(r: Request)
      requires Valid()
      modifies this
      ensures Valid() && AllLater(old(State()), State())
      ensures forall d: Doc, tx :: !Uses(r, d, tx) ==> Kept(old(State()), State(), d, tx)
      ensures r.CreateUpdate? ==> forall d: Doc :: Grown(old(State()), State(), d, Pushed([r], d))
      ensures var l := StepOf(old(State()), r);
              if l.Some? then Moves(old(State()), DocOf(old(State()), r), l.value, State()) else State() == old(State())
    {
      ghost var before := State();
      match r
      case CreateDocument =>
        var id := Create();
        MoveIsLater(before, id, Step.Create, State());
      case CreateUpdate(doc, content) =>
        var ok := CreateUpdate(doc, content);
        if ok {
          MoveIsLater(before, doc, Append(content), State());
          AppendGrows(before, doc, content, State());
        } else {
          SameIsLater(before);
        }
      case Snapshot(doc, tx, bytes) =>
        ServeSnapshot(doc, tx, bytes);
      case Abort(doc, tx) =>
        if tx in Of(transactions, doc) {
          Rollback(doc, tx);
          MoveIsLater(before, doc, AbortSnapshot(tx), State());
        } else {
          SameIsLater(before);
        }
      case DeleteDocument(doc) =>
        var done := DeleteDocument(doc);
        if done {
          MoveIsLater(before, doc, Delete, State());
        } else {
          SameIsLater(before);
        }
    }

    /** The next statement of the snapshot transaction `tx`. */
    method ServeSnapshot(doc: Doc, tx: TxId, bytes: Ops)
      requires Valid()
      modifies this
      ensures Valid() && AllLater(old(State()), State())
      ensures forall d: Doc, t :: d != doc || t != tx ==> Kept(old(State()), State(), d, t)
      ensures var l := StatementOf(old(State()), doc, tx, bytes);
              if l.Some? then Moves(old(State()), doc, l.value, State()) else State() == old(State())
    {
      ghost var before := State();
      if tx !in Of(transactions, doc) {
        BeginSnapshot(doc, tx, bytes);
        MoveIsLater(before, doc, Step.BeginSnapshot(tx, bytes), State());
      } else if Of(transactions, doc)[tx].stage.Reading? {
        var found := CheckSnapshot(doc, tx);
        MoveIsLater(before, doc, Step.CheckSnapshot(tx), State());
      } else if Of(transactions, doc)[tx].stage.Checked? {
        var ok := InsertSnapshot(doc, tx);
        if ok {
          MoveIsLater(before, doc, Step.InsertSnapshot(tx), State());
        } else {
          SameIsLater(before);
        }
      } else if Of(transactions, doc)[tx].stage.Inserted? {
        PurgeUpdates(doc, tx);
        MoveIsLater(before, doc, Step.PurgeUpdates(tx), State());
      } else {
        Commit(doc, tx);
        MoveIsLater(before, doc, CommitSnapshot(tx), State());
      }
    }

    /** The other sessions' requests, in any number. */
    method ServeAll(requests: seq<Request>)
      requires Valid()
      modifies this
      ensures Valid() && AllLater(old(State()), State())
      ensures forall d: Doc, tx :: LeaveAlone(requests, d, tx) ==> Kept(old(State()), State(), d, tx)
      ensures requests == [] ==> State() == old(State())
      ensures AllUpdates(requests) ==> forall d: Doc :: Grown(old(State()), State(), d, Pushed(requests, d))
    {
      SameIsLater(State());
      for i := 0 to |requests|
        invariant Valid() && AllLater(old(State()), State())
        invariant forall d: Doc, tx :: LeaveAlone(requests, d, tx) ==> Kept(old(State()), State(), d, tx)
        invariant i == 0 ==> State() == old(State())
        invariant AllUpdates(requests) ==> forall d: Doc :: Grown(old(State()), State(), d, Pushed(requests[..i], d))
      {
        ghost var before := State();
        Serve(requests[i]);
        forall d: Doc, tx | LeaveAlone(requests, d, tx) ensures Kept(old(State()), State(), d, tx) {
          assert requests[i] in requests;
          assert Kept(before, State(), d, tx);
        }
        LaterChains(old(State()), before, State());
        if AllUpdates(requests) {
          ghost var served := requests[..i + 1];
          forall d: Doc ensures Grown(old(State()), State(), d, Pushed(served, d)) {
            GrownByOneMore(old(State()), before, State(), requests, i, d);
          }
        }
      }
      assert requests[..|requests|] == requests;
    }

    // ---------- the whole snapshot transaction ----------

    /** The four statements and the commit in order; `pauses` is what the other sessions do
        between them. Answers with the seq under which the bytes now stand. */
    method CreateSnapshot(doc: Doc, tx: TxId, state: Ops, pauses: seq<seq<Request>>) returns (outcome: Outcome)
      requires Valid() && tx !in Of(transactions, doc) && |pauses| == 4
      requires forall i :: 0 <= i < 4 ==> LeaveAlone(pauses[i], doc, tx)
      modifies this
      ensures Valid() && AllLater(old(State()), State()) && tx !in Of(transactions, doc)
      ensures outcome.Written? ==>
                && outcome.at == DocumentLog.CurrentSeq(View(old(State()), doc))
                && Compacted(State(), doc, outcome.at, state)
      ensures outcome.AlreadyThere? && doc in updateSeq ==> outcome.at in Of(snapshots, doc)
      ensures pauses == [[], [], [], []] ==> outcome == Undisturbed(old(State()), doc)
      ensures pauses == [[], [], [], []] ==>
                if outcome.Written? then Rewritten(old(State()), State(), doc, outcome.at, state)
                else SameRows(old(State()), State())
      ensures !outcome.Failed? ==> outcome.at == DocumentLog.CurrentSeq(View(old(State()), doc))
      ensures outcome.Failed? ==>
                var at := DocumentLog.CurrentSeq(View(old(State()), doc));
                || doc !in updateSeq || at in Of(snapshots, doc)
                || exists t :: t in Of(transactions, doc) && Reserves(Of(transactions, doc)[t])
                               && Of(transactions, doc)[t].at == at
      ensures doc in old(updateSeq) && (forall i :: 0 <= i < 4 ==> AllUpdates(pauses[i]))
              && old(updateSeq)[doc] !in Of(old(snapshots), doc)
              && (forall t :: t in Of(old(transactions), doc) && Of(old(transactions), doc)[t].at == old(updateSeq)[doc]
                              ==> !Reserves(Of(old(transactions), doc)[t])) ==>
                && outcome == Written(old(updateSeq)[doc])
                && StoredAbove(Of(updates, doc), outcome.at, PushedInAll(pauses, doc))
    {
      var at, found := BeginAndCheck(doc, tx, state, pauses[0], pauses[1]);
      ghost var s1 := State();
      if found {
        if pauses == [[], [], [], []] {
          SameWithout(old(State()), s1, doc, tx);
        }
        return AlreadyThere(at);
      }
      var ok := InsertAndCommit(doc, tx, pauses[2], pauses[3]);
      LaterChains(old(State()), s1, State());
      if pauses == [[], [], [], []] {
        SameChance(old(State()), s1, doc, tx, at);
        if ok {
          RewrittenFrom(old(State()), s1, State(), doc, tx);
        } else {
          OnlyMineChains(old(State()), s1, State(), doc, tx);
          SameWithout(old(State()), State(), doc, tx);
        }
      }
      if forall i :: 0 <= i < 4 ==> AllUpdates(pauses[i]) {
        SameChance(old(State()), s1, doc, tx, at);
        if ok && doc in old(updateSeq) {
          WrittenAmid(old(State()), s1, State(), doc, tx, pauses);
        }
      }
      if !ok {
        StillBlocked(s1, State(), doc, tx, at);
      }
      outcome := if ok then Written(at) else Failed;
    }

    method BeginAndCheck(doc: Doc, tx: TxId, state: Ops, pause0: seq<Request>, pause1: seq<Request>)
      returns (at: nat, found: bool)
      requires Valid() && tx !in Of(transactions, doc)
      requires LeaveAlone(pause0, doc, tx) && LeaveAlone(pause1, doc, tx)
      modifies this
      ensures Valid() && AllLater(old(State()), State()) && at == DocumentLog.CurrentSeq(View(old(State()), doc))
      ensures found ==> tx !in Of(transactions, doc) && (doc in updateSeq ==> at in Of(snapshots, doc))
      ensures !found ==> tx in Of(transactions, doc) && Of(transactions, doc)[tx] == Tx(at, state, Checked)
      ensures pause0 == [] ==> (found <==> at in Of(old(snapshots), doc))
      ensures pause0 == [] && (pause1 == [] || found) ==> OnlyMine(old(State()), State(), doc, tx)
      ensures AllUpdates(pause0) ==> (found <==> at in Of(old(snapshots), doc))
      ensures AllUpdates(pause0) && AllUpdates(pause1) && !found ==>
                Quiet(old(State()), State(), doc, tx, Pushed(pause0, doc) + Pushed(pause1, doc))
    {
      BeginThenPause(doc, tx, state, pause0);
      ghost var s1 := State();
      at := Of(transactions, doc)[tx].at;
      found := CheckThenPause(doc, tx, pause1);
      LaterChains(old(State()), s1, State());
      if pause0 == [] && (pause1 == [] || found) {
        OnlyMineChains(old(State()), s1, State(), doc, tx);
      }
      if AllUpdates(pause0) && AllUpdates(pause1) && !found {
        QuietChains(old(State()), s1, State(), doc, tx, Pushed(pause0, doc), Pushed(pause1, doc));
      }
    }

    method InsertAndCommit(doc: Doc, tx: TxId, pause0: seq<Request>, pause1: seq<Request>) returns (ok: bool)
      requires Valid() && Has(State(), doc, tx, Checked)
      requires LeaveAlone(pause0, doc, tx) && LeaveAlone(pause1, doc, tx)
      modifies this
      ensures Valid() && AllLater(old(State()), State()) && tx !in Of(transactions, doc)
      ensures ok <==> CanInsert(old(State()), doc, Of(old(transactions), doc)[tx].at)
      ensures !ok ==> OnlyMine(old(State()), State(), doc, tx)
      ensures ok ==> Compacted(State(), doc, Of(old(transactions), doc)[tx].at, Of(old(transactions), doc)[tx].bytes)
      ensures ok && pause0 == [] && pause1 == [] ==> CommittedFrom(old(State()), State(), doc, tx)
      ensures ok && AllUpdates(pause0) && AllUpdates(pause1) ==>
                CommittedAmid(old(State()), State(), doc, tx, Pushed(pause0, doc) + Pushed(pause1, doc))
    {
      ok := InsertThenPause(doc, tx, pause0);
      if ok {
        ghost var s1 := State();
        PurgeThenPause(doc, tx, pause1);
        ghost var s2 := State();
        LaterChains(old(State()), s1, s2);
        CommitNow(doc, tx);
        LaterChains(old(State()), s2, State());
        if pause0 == [] && pause1 == [] {
          OnlyMineChains(old(State()), s1, s2, doc, tx);
          CommittedSince(old(State()), s2, State(), doc, tx);
        }
        if AllUpdates(pause0) && AllUpdates(pause1) {
          QuietChains(old(State()), s1, s2, doc, tx, Pushed(pause0, doc), Pushed(pause1, doc));
          CommittedAfter(old(State()), s2, State(), doc, tx, Pushed(pause0, doc) + Pushed(pause1, doc));
        }
      }
    }

    method BeginThenPause(doc: Doc, tx: TxId, state: Ops, pause: seq<Request>)
      requires Valid() && tx !in Of(transactions, doc) && LeaveAlone(pause, doc, tx)
      modifies this
      ensures Valid() && AllLater(old(State()), State())
      ensures Has(State(), doc, tx, Reading)
      ensures Of(transactions, doc)[tx] == Tx(DocumentLog.CurrentSeq(View(old(State()), doc)), state, Reading)
      ensures pause == [] ==> OnlyMine(old(State()), State(), doc, tx)
      ensures AllUpdates(pause) ==> Quiet(old(State()), State(), doc, tx, Pushed(pause, doc))
    {
      BeginSnapshot(doc, tx, state);
      ghost var s1 := State();
      MoveIsLater(old(State()), doc, Step.BeginSnapshot(tx, state), s1);
      ServeAll(pause);
      LaterChains(old(State()), s1, State());
      if AllUpdates(pause) {
        StatementThenUpdates(old(State()), Step.BeginSnapshot(tx, state), s1, State(), doc, tx, Pushed(pause, doc));
      }
    }

    method CheckThenPause(doc: Doc, tx: TxId, pause: seq<Request>) returns (found: bool)
      requires Valid() && Has(State(), doc, tx, Reading) && LeaveAlone(pause, doc, tx)
      modifies this
      ensures Valid() && AllLater(old(State()), State())
      ensures found ==> tx !in Of(transactions, doc)
                        && (doc in updateSeq ==> Of(old(transactions), doc)[tx].at in Of(snapshots, doc))
      ensures !found ==> Has(State(), doc, tx, Checked) && SameTx(old(State()), State(), doc, tx)
      ensures found <==> Of(old(transactions), doc)[tx].at in Of(old(snapshots), doc)
      ensures pause == [] || found ==> OnlyMine(old(State()), State(), doc, tx)
      ensures !found && AllUpdates(pause) ==> Quiet(old(State()), State(), doc, tx, Pushed(pause, doc))
    {
      found := CheckSnapshot(doc, tx);
      ghost var s1 := State();
      MoveIsLater(old(State()), doc, Step.CheckSnapshot(tx), s1);
      if !found {
        assert SameTx(old(State()), s1, doc, tx);
        ServeAll(pause);
        LaterChains(old(State()), s1, State());
        if AllUpdates(pause) {
          StatementThenUpdates(old(State()), Step.CheckSnapshot(tx), s1, State(), doc, tx, Pushed(pause, doc));
        }
      }
    }

    method InsertThenPause(doc: Doc, tx: TxId, pause: seq<Request>) returns (ok: bool)
      requires Valid() && Has(State(), doc, tx, Checked) && LeaveAlone(pause, doc, tx)
      modifies this
      ensures Valid() && AllLater(old(State()), State())
      ensures !ok ==> tx !in Of(transactions, doc)
      ensures ok ==> Has(State(), doc, tx, Inserted) && SameTx(old(State()), State(), doc, tx)
      ensures ok <==> CanInsert(old(State()), doc, Of(old(transactions), doc)[tx].at)
      ensures !ok || pause == [] ==> OnlyMine(old(State()), State(), doc, tx)
      ensures ok && AllUpdates(pause) ==> Quiet(old(State()), State(), doc, tx, Pushed(pause, doc))
    {
      ok := InsertSnapshot(doc, tx);
      ghost var s1 := State();
      if ok {
        MoveIsLater(old(State()), doc, Step.InsertSnapshot(tx), s1);
        assert SameTx(old(State()), s1, doc, tx);
        ServeAll(pause);
        LaterChains(old(State()), s1, State());
        if AllUpdates(pause) {
          StatementThenUpdates(old(State()), Step.InsertSnapshot(tx), s1, State(), doc, tx, Pushed(pause, doc));
        }
      } else {
        Rollback(doc, tx);
        MoveIsLater(s1, doc, AbortSnapshot(tx), State());
      }
    }

    method PurgeThenPause(doc: Doc, tx: TxId, pause: seq<Request>)
      requires Valid() && Has(State(), doc, tx, Inserted) && LeaveAlone(pause, doc, tx)
      modifies this
      ensures Valid() && AllLater(old(State()), State()) && SameTx(old(State()), State(), doc, tx)
      ensures Of(transactions, doc)[tx].stage.Purged?
      ensures pause == [] ==> OnlyMine(old(State()), State(), doc, tx)
      ensures AllUpdates(pause) ==> Quiet(old(State()), State(), doc, tx, Pushed(pause, doc))
    {
      PurgeUpdates(doc, tx);
      ghost var s1 := State();
      MoveIsLater(old(State()), doc, Step.PurgeUpdates(tx), s1);
      assert SameTx(old(State()), s1, doc, tx);
      ServeAll(pause);
      LaterChains(old(State()), s1, State());
      if AllUpdates(pause) {
        StatementThenUpdates(old(State()), Step.PurgeUpdates(tx), s1, State(), doc, tx, Pushed(pause, doc));
      }
    }

    method CommitNow(doc: Doc, tx: TxId)
      requires Valid() && tx in Of(transactions, doc) && Of(transactions, doc)[tx].stage.Purged?
      modifies this
      ensures Valid() && AllLater(old(State()), State()) && tx !in Of(transactions, doc)
      ensures Compacted(State(), doc, Of(old(transactions), doc)[tx].at, Of(old(transactions), doc)[tx].bytes)
      ensures CommittedFrom(old(State()), State(), doc, tx)
    {
      Commit(doc, tx);
      MoveIsLater(old(State()), doc, CommitSnapshot(tx), State());
      CommitIsExact(old(State()), doc, tx, State());
      CommittedIsCompacted(old(State()), doc, tx, State());
    }
  }

  /** Nothing but transaction `tx` of `d` differs. */
  ghost predicate OnlyMine(db: Db, db': Db, d: Doc, tx: TxId)
  {
    && (forall e: Doc :: e != d ==> View(db', e) == View(db, e))
    && View(db', d) == View(db, d).(txs := View(db', d).txs)
    && View(db', d).txs - {tx} == View(db, d).txs - {tx}
  }

  lemma OnlyMineChains(a: Db, b: Db, c: Db, d: Doc, tx: TxId)
    requires OnlyMine(a, b, d, tx) && OnlyMine(b, c, d, tx)
    ensures OnlyMine(a, c, d, tx)
  {
  }

  /** Document `d` has got the updates `more`; apart from transaction `tx` nothing else has
      happened to it. */
  ghost predicate Quiet(db: Db, db': Db, d: Doc, tx: TxId, more: seq<Ops>)
  {
    var s, s' := View(db, d), View(db', d);
    && s'.life == s.life && s'.snapshots == s.snapshots && s'.txs - {tx} == s.txs - {tx}
    && s'.history == s.history + (if s.life.Live? then more else [])
  }

  lemma QuietChains(a: Db, b: Db, c: Db, d: Doc, tx: TxId, more: seq<Ops>, yet: seq<Ops>)
    requires Quiet(a, b, d, tx, more) && Quiet(b, c, d, tx, yet)
    ensures Quiet(a, c, d, tx, more + yet)
  {
  }

  /** A statement of `tx` before its commit, then a pause with nothing but updates. */
  lemma {:induction false} StatementThenUpdates(a: Db, l: Step, b: Db, c: Db, d: Doc, tx: TxId, more: seq<Ops>)
    requires Moves(a, d, l, b) && UsesTx(l, tx) && !l.CommitSnapshot? && Grown(b, c, d, more)
    ensures Quiet(a, c, d, tx, more)
  {
    var s, s' := View(a, d), View(b, d);
    assert s'.txs - {tx} == s.txs - {tx};
  }

  ghost predicate SameRows(db: Db, db': Db) { forall d: Doc :: View(db', d) == View(db, d) }

  /** A transaction that leaves no trace. */
  lemma SameWithout(db: Db, db': Db, d: Doc, tx: TxId)
    requires OnlyMine(db, db', d, tx) && tx !in Of(db.transactions, d) && tx !in Of(db'.transactions, d)
    ensures SameRows(db, db')
  {
    assert View(db, d).txs - {tx} == View(db, d).txs && View(db', d).txs - {tx} == View(db', d).txs;
  }

  lemma {:induction false} SameChance(db: Db, db': Db, d: Doc, tx: TxId, at: nat)
    requires OnlyMine(db, db', d, tx) || exists more :: Quiet(db, db', d, tx, more)
    requires tx !in Of(db.transactions, d) && Has(db', d, tx, Checked)
    ensures CanInsert(db, d, at) <==> CanInsert(db', d, at)
    ensures d in db.updateSeq <==> d in db'.updateSeq
  {
    var txs, txs' := View(db, d).txs, View(db', d).txs;
    assert LifeOf(db, d) == LifeOf(db', d);
    forall u | u != tx ensures u in txs <==> u in txs'
                       ensures u in txs ==> txs[u] == txs'[u] {
      assert u in txs - {tx} <==> u in txs;
      assert u in txs' - {tx} <==> u in txs';
      assert u in txs ==> txs[u] == (txs - {tx})[u];
    }
  }

  lemma {:induction false} StillBlocked(db: Db, db': Db, d: Doc, tx: TxId, at: nat)
    requires !CanInsert(db, d, at) && OnlyMine(db, db', d, tx) && Has(db, d, tx, Checked)
    ensures d !in db'.updateSeq || at in Of(db'.snapshots, d)
            || exists t :: t in Of(db'.transactions, d) && Reserves(Of(db'.transactions, d)[t])
                           && Of(db'.transactions, d)[t].at == at
  {
    var txs, txs' := View(db, d).txs, View(db', d).txs;
    assert LifeOf(db, d) == LifeOf(db', d) && View(db', d).snapshots == View(db, d).snapshots;
    if d in db.updateSeq && at !in Of(db.snapshots, d) {
      var u :| u in txs && Reserves(txs[u]) && txs[u].at == at;
      assert u in txs - {tx} && u in txs' - {tx} && txs'[u] == (txs' - {tx})[u];
    }
  }

  function After(rows: map<nat, Ops>, at: nat): map<nat, Ops> { map n | n in rows && at < n :: rows[n] }

  /** From `db` to `db'` transaction `tx` committed and nothing else happened. */
  ghost predicate CommittedFrom(db: Db, db': Db, d: Doc, tx: TxId)
    requires tx in Of(db.transactions, d)
  {
    var s, t := View(db, d), Of(db.transactions, d)[tx];
    && (forall e: Doc :: e != d ==> View(db', e) == View(db, e))
    && View(db', d) ==
         s.(snapshots := s.snapshots[t.at := t.bytes], updates := After(s.updates, t.at), txs := s.txs - {tx})
  }

  lemma {:induction false} CommittedSince(a: Db, b: Db, c: Db, d: Doc, tx: TxId)
    requires OnlyMine(a, b, d, tx) && SameTx(a, b, d, tx) && CommittedFrom(b, c, d, tx)
    ensures CommittedFrom(a, c, d, tx)
  {
  }

  /** From `db` to `db'` transaction `tx` committed and the updates `more` came. */
  ghost predicate CommittedAmid(db: Db, db': Db, d: Doc, tx: TxId, more: seq<Ops>)
    requires tx in Of(db.transactions, d)
  {
    var s, s', t := View(db, d), View(db', d), Of(db.transactions, d)[tx];
    && s'.life == s.life && s'.snapshots == s.snapshots[t.at := t.bytes]
    && s'.history == s.history + (if s.life.Live? then more else [])
  }

  lemma {:induction false} CommittedAfter(a: Db, b: Db, c: Db, d: Doc, tx: TxId, more: seq<Ops>)
    requires Quiet(a, b, d, tx, more) && SameTx(a, b, d, tx) && CommittedFrom(b, c, d, tx)
    ensures CommittedAmid(a, c, d, tx, more)
  {
  }

  /** What all four pauses add to document `d`. */
  function PushedInAll(pauses: seq<seq<Request>>, d: Doc): seq<Ops>
    requires |pauses| == 4
  {
    (Pushed(pauses[0], d) + Pushed(pauses[1], d)) + (Pushed(pauses[2], d) + Pushed(pauses[3], d))
  }

  /** The updates `more` are stored above `at`, in order, and no other updates are. */
  ghost predicate StoredAbove(rows: map<nat, Ops>, at: nat, more: seq<Ops>)
  {
    && (forall n :: n in rows <==> at < n <= at + |more|)
    && forall m :: 0 <= m < |more| ==> at + 1 + m in rows && rows[at + 1 + m] == more[m]
  }

  lemma {:induction false} UpdatesAreStored(s: Log, t: Log, bytes: Ops, more: seq<Ops>)
    requires LogShape(s) && LogShape(t) && s.life.Live? && t.life.Live?
    requires t.snapshots == s.snapshots[s.updateSeq := bytes] && t.history == s.history + more
    ensures StoredAbove(t.updates, s.updateSeq, more)
  {
    assert t.snapshots.Keys == s.snapshots.Keys + {s.updateSeq};
    MaxOfInsert(s.snapshots.Keys, s.updateSeq);
    forall m | 0 <= m < |more|
      ensures s.updateSeq + 1 + m in t.updates && t.updates[s.updateSeq + 1 + m] == more[m]
    {
      assert t.history[s.updateSeq + m] == more[m];
    }
  }

  lemma {:induction false} WrittenAmid(a: Db, b: Db, c: Db, d: Doc, tx: TxId, pauses: seq<seq<Request>>)
    requires ValidDb(a) && ValidDb(c) && |pauses| == 4 && d in a.updateSeq
    requires Quiet(a, b, d, tx, Pushed(pauses[0], d) + Pushed(pauses[1], d)) && tx in Of(b.transactions, d)
    requires Of(b.transactions, d)[tx].at == a.updateSeq[d]
    requires CommittedAmid(b, c, d, tx, Pushed(pauses[2], d) + Pushed(pauses[3], d))
    ensures StoredAbove(Of(c.updates, d), a.updateSeq[d], PushedInAll(pauses, d))
  {
    LogShapeOf(a, d);
    LogShapeOf(c, d);
    UpdatesAreStored(View(a, d), View(c, d), Of(b.transactions, d)[tx].bytes, PushedInAll(pauses, d));
  }

  /** The whole transaction in one step: one more snapshot row, no update rows left. */
  ghost predicate Rewritten(db: Db, db': Db, d: Doc, at: nat, bytes: Ops)
  {
    var s := View(db, d);
    && (forall e: Doc :: e != d ==> View(db', e) == View(db, e))
    && View(db', d) == s.(snapshots := s.snapshots[at := bytes], updates := map[])
  }

  lemma {:induction false} RewrittenFrom(a: Db, b: Db, c: Db, d: Doc, tx: TxId)
    requires ValidDb(a) && OnlyMine(a, b, d, tx) && tx !in Of(a.transactions, d) && tx in Of(b.transactions, d)
    requires CommittedFrom(b, c, d, tx) && d in a.updateSeq && Of(b.transactions, d)[tx].at == a.updateSeq[d]
    ensures Rewritten(a, c, d, Of(b.transactions, d)[tx].at, Of(b.transactions, d)[tx].bytes)
  {
    LogShapeOf(a, d);
    assert View(a, d).txs - {tx} == View(a, d).txs;
    assert After(View(a, d).updates, a.updateSeq[d]) == map[];
  }

  /** How the snapshot transaction ends when no other session gets in between. */
  function Undisturbed(db: Db, d: Doc): Outcome
  {
    var at := if d in db.updateSeq then db.updateSeq[d] else 0;
    if at in Of(db.snapshots, d) then AlreadyThere(at)
    else if CanInsert(db, d, at) then Written(at)
    else Failed
  }

  /** The snapshot row stands under `at` and no update at or below it is left. */
  predicate Compacted(db: Db, d: Doc, at: nat, bytes: Ops)
  {
    && at in Of(db.snapshots, d) && Of(db.snapshots, d)[at] == bytes
    && forall n :: n in Of(db.updates, d) ==> at < n
  }

  lemma {:induction false} CommitIsExact(db: Db, d: Doc, tx: TxId, db': Db)
    requires ValidDb(db) && Moves(db, d, CommitSnapshot(tx), db')
    ensures CommittedFrom(db, db', d, tx)
  {
    LogShapeOf(db, d);
    assert DoomedIsExact(View(db, d), View(db, d).txs[tx]);
    assert View(db', d).updates == After(View(db, d).updates, View(db, d).txs[tx].at);
  }

  lemma {:induction false} CommittedIsCompacted(db: Db, d: Doc, tx: TxId, db': Db)
    requires ValidDb(db) && Moves(db, d, CommitSnapshot(tx), db')
    ensures Compacted(db', d, Of(db.transactions, d)[tx].at, Of(db.transactions, d)[tx].bytes)
  {
    LogShapeOf(db, d);
    var s, s' := View(db, d), View(db', d);
    assert s'.updates == s.updates - s.txs[tx].stage.doomed;
  }

  ghost predicate SameTx(db: Db, db': Db, d: Doc, tx: TxId)
  {
    && tx in Of(db.transactions, d) && tx in Of(db'.transactions, d)
    && Of(db'.transactions, d)[tx].at == Of(db.transactions, d)[tx].at
    && Of(db'.transactions, d)[tx].bytes == Of(db.transactions, d)[tx].bytes
  }

  datatype Outcome = Written(at: nat) | AlreadyThere(at: nat) | Failed

  ghost predicate Kept(db: Db, db': Db, d: Doc, tx: TxId)
  {
    && (tx in Of(db.transactions, d) <==> tx in Of(db'.transactions, d))
    && (tx in Of(db.transactions, d) ==> Of(db'.transactions, d)[tx] == Of(db.transactions, d)[tx])
  }

  /** One action of another session: a snapshot transaction takes its next statement. */
  datatype Request =
    | CreateDocument
    | CreateUpdate(doc: Doc, content: Ops)
    | Snapshot(doc: Doc, tx: TxId, bytes: Ops)
    | Abort(doc: Doc, tx: TxId)
    | DeleteDocument(doc: Doc)

  function DocOf(db: Db, r: Request): Doc { if r.CreateDocument? then db.nextId else r.doc }

  /** What a request does to its document, if it can run in `db`. */
  function StepOf(db: Db, r: Request): Option<Step>
  {
    match r
    case CreateDocument => Some(Step.Create)
    case CreateUpdate(doc, content) => if doc in db.updateSeq then Some(Append(content)) else None
    case Snapshot(doc, tx, bytes) => StatementOf(db, doc, tx, bytes)
    case Abort(doc, tx) => if tx in Of(db.transactions, doc) then Some(AbortSnapshot(tx)) else None
    case DeleteDocument(doc) =>
      if doc in db.updateSeq && forall t :: t in Of(db.transactions, doc) ==> !Reserves(Of(db.transactions, doc)[t])
      then Some(Delete) else None
  }

  /** The next statement of a snapshot transaction; an insert that has to wait or fails is
      no step. */
  function StatementOf(db: Db, doc: Doc, tx: TxId, bytes: Ops): Option<Step>
  {
    if tx !in Of(db.transactions, doc) then Some(Step.BeginSnapshot(tx, bytes))
    else
      match Of(db.transactions, doc)[tx].stage
      case Reading => Some(Step.CheckSnapshot(tx))
      case Checked =>
        if CanInsert(db, doc, Of(db.transactions, doc)[tx].at) then Some(Step.InsertSnapshot(tx)) else None
      case Inserted => Some(Step.PurgeUpdates(tx))
      case Purged(_) => Some(CommitSnapshot(tx))
  }

  /** Whatever statement of another session the protocol allows, some request makes it. */
  lemma {:induction false} AllowedIsServed(db: Db, d: Doc, l: Step, s': Log)
    requires ValidDb(db) && Next(View(db, d), l, s')
    ensures match l
            case Create => true
            case Append(content) => StepOf(db, Request.CreateUpdate(d, content)) == Some(l)
            case Delete => StepOf(db, Request.DeleteDocument(d)) == Some(l)
            case AbortSnapshot(tx) => StepOf(db, Request.Abort(d, tx)) == Some(l)
            case BeginSnapshot(tx, bytes) => StepOf(db, Request.Snapshot(d, tx, bytes)) == Some(l)
            case _ => forall bytes :: StepOf(db, Request.Snapshot(d, l.tx, bytes)) == Some(l)
  {
    LogShapeOf(db, d);
    assert l.Append? || l.Delete? || l.InsertSnapshot? ==> d in db.updateSeq;
  }

  predicate Uses(r: Request, d: Doc, tx: TxId) { (r.Snapshot? || r.Abort?) && r.doc == d && r.tx == tx }

  predicate AllUpdates(requests: seq<Request>) { forall r :: r in requests ==> r.CreateUpdate? }

  /** What the requests add to document `d`, in order. */
  function Pushed(requests: seq<Request>, d: Doc): seq<Ops>
  {
    if requests == [] then []
    else
      var last := requests[|requests| - 1];
      Pushed(requests[..|requests| - 1], d) + if last.CreateUpdate? && last.doc == d then [last.content] else []
  }

  /** Document `d` has got these updates, if it exists, and nothing else has happened to it. */
  ghost predicate Grown(db: Db, db': Db, d: Doc, more: seq<Ops>)
  {
    var s, s' := View(db, d), View(db', d);
    && s'.life == s.life && s'.snapshots == s.snapshots && s'.txs == s.txs
    && s'.history == s.history + (if s.life.Live? then more else [])
  }

  lemma {:induction false} AppendGrows(db: Db, d: Doc, content: Ops, db': Db)
    requires Moves(db, d, Append(content), db')
    ensures forall e: Doc :: Grown(db, db', e, Pushed([Request.CreateUpdate(d, content)], e))
  {
    var r := Request.CreateUpdate(d, content);
    assert [r][..0] == [];
    forall e: Doc ensures Grown(db, db', e, Pushed([r], e)) {
      assert e != d ==> View(db', e) == View(db, e);
    }
  }

  lemma {:induction false} PushedOneMore(requests: seq<Request>, i: nat, d: Doc)
    requires i < |requests|
    ensures Pushed(requests[..i + 1], d) == Pushed(requests[..i], d) + Pushed([requests[i]], d)
  {
    var r := requests[i];
    assert requests[..i + 1][..i] == requests[..i] && [r][..0] == [];
    assert Pushed([r], d) == if r.CreateUpdate? && r.doc == d then [r.content] else [];
  }

  lemma {:induction false} GrownByOneMore(a: Db, b: Db, c: Db, requests: seq<Request>, i: nat, d: Doc)
    requires i < |requests| && Grown(a, b, d, Pushed(requests[..i], d)) && Grown(b, c, d, Pushed([requests[i]], d))
    ensures Grown(a, c, d, Pushed(requests[..i + 1], d))
  {
    PushedOneMore(requests, i, d);
    assert (View(a, d).history + Pushed(requests[..i], d)) + Pushed([requests[i]], d) ==
           View(a, d).history + Pushed(requests[..i + 1], d);
  }

  /** None of the requests is for transaction `tx` of `d`. */
  predicate LeaveAlone(requests: seq<Request>, d: Doc, tx: TxId) { forall r :: r in requests ==> !Uses(r, d, tx) }

  predicate CanInsert(db: Db, d: Doc, at: nat)
  {
    && d in db.updateSeq && at !in Of(db.snapshots, d)
    && forall u :: u in Of(db.transactions, d) && Reserves(Of(db.transactions, d)[u]) ==>
                     Of(db.transactions, d)[u].at != at
  }

  /** Every document's log has moved forward, or not at all. */
  ghost predicate AllLater(db: Db, db': Db)
  {
    forall d: Doc :: Later(View(db, d), View(db', d))
  }

  lemma SameIsLater(db: Db)
    ensures AllLater(db, db)
  {
  }

  predicate UsesTx(l: Step, tx: TxId)
  {
    && (l.BeginSnapshot? || l.CheckSnapshot? || l.InsertSnapshot? || l.PurgeUpdates? || l.CommitSnapshot?
        || l.AbortSnapshot?)
    && l.tx == tx
  }

  lemma {:induction false} MoveIsLater(db: Db, d: Doc, l: Step, db': Db)
    requires ValidDb(db) && Moves(db, d, l, db')
    ensures AllLater(db, db')
    ensures forall e: Doc, tx :: e != d || !UsesTx(l, tx) ==> Kept(db, db', e, tx)
  {
    LaterStep(View(db, d), l, View(db', d));
    forall e: Doc, tx | e != d || !UsesTx(l, tx) ensures Kept(db, db', e, tx) {
      assert e != d ==> View(db', e).txs == View(db, e).txs;
      if e == d {
        assert tx in View(db, d).txs <==> tx in View(db', d).txs;
        assert tx in View(db, d).txs ==> View(db', d).txs[tx] == View(db, d).txs[tx];
      }
    }
  }

  lemma LaterChains(a: Db, b: Db, c: Db)
    requires AllLater(a, b) && AllLater(b, c)
    ensures AllLater(a, c)
  {
    forall d: Doc ensures Later(View(a, d), View(c, d)) {
      assert Later(View(a, d), View(b, d)) && Later(View(b, d), View(c, d));
    }
  }

  lemma LogShapeOf(db: Db, d: Doc)
    requires ValidDb(db)
    ensures LogShape(View(db, d))
    ensures d in db.updateSeq ==> db.updateSeq[d] + 1 !in Of(db.updates, d)
  {
  }
}
