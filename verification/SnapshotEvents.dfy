/** Snapshots that arrive as events: the sync server sends updates and snapshots of a
    document through one partition, and a snapshot event carries the updates it sent
    before. When do its bytes cover what the database has by then? */
module SnapshotEvents {
  import opened Yjs
  import opened Compaction
  import opened DocumentLog
  import opened EventPipeline
  import opened EventConsumer

  /** `payloads[o]` is what message `o` of the partition carries. */
  ghost predicate SentInOrder(log: seq<Message>, payloads: seq<Ops>)
  {
    && |payloads| == |log|
    && forall o :: 0 <= o < |log| && IsSnapshot(log, o) ==> payloads[o] == Merge(UpdatesBefore(log, payloads, o))
  }

  predicate IsSnapshot(log: seq<Message>, o: int)
    requires 0 <= o < |log|
  {
    log[o].Event? && log[o].kind.Snapshot?
  }

  predicate IsUpdate(log: seq<Message>, o: nat) { o < |log| && log[o].Event? && log[o].kind.Updated? }

  ghost function UpdatesBefore(log: seq<Message>, payloads: seq<Ops>, n: nat): seq<Ops>
    requires n <= |log| && |payloads| == |log|
  {
    if n == 0 then []
    else UpdatesBefore(log, payloads, n - 1) + if IsUpdate(log, n - 1) then [payloads[n - 1]] else []
  }

  lemma {:induction false} InUpdatesBefore(log: seq<Message>, payloads: seq<Ops>, n: nat, op: nat)
    requires n <= |log| && |payloads| == |log|
    ensures op in Merge(UpdatesBefore(log, payloads, n))
       <==> exists k: nat :: k < n && IsUpdate(log, k) && op in payloads[k]
  {
    if n > 0 {
      InUpdatesBefore(log, payloads, n - 1, op);
      var last := if IsUpdate(log, n - 1) then [payloads[n - 1]] else [];
      MergeConcat(UpdatesBefore(log, payloads, n - 1), last);
      InMerge(last, op);
    }
  }

  /** The history made of the updates at these offsets. */
  ghost function HistoryOf(payloads: seq<Ops>, applied: seq<nat>): seq<Ops>
    requires forall i :: 0 <= i < |applied| ==> applied[i] < |payloads|
  {
    seq(|applied|, i requires 0 <= i < |applied| => payloads[applied[i]])
  }

  ghost predicate Brings(log: seq<Message>, payloads: seq<Ops>, o: nat, op: nat)
    requires |payloads| == |log|
  {
    IsUpdate(log, o) && op in payloads[o] && forall k: nat :: k != o && IsUpdate(log, k) ==> op !in payloads[k]
  }

  /** Whatever the order in which updates were applied, in however many attempts: the bytes
      of the snapshot event at `o` cover them if and only if none of them comes after it
      in the partition (each update bringing an operation of its own). */
  lemma {:induction false} CoversIff(log: seq<Message>, payloads: seq<Ops>, applied: seq<nat>, o: nat)
    requires SentInOrder(log, payloads) && o < |log| && IsSnapshot(log, o)
    requires forall i :: 0 <= i < |applied| ==> applied[i] < |log| && IsUpdate(log, applied[i])
    requires forall k: nat :: IsUpdate(log, k) ==> exists op :: Brings(log, payloads, k, op)
    ensures Merge(HistoryOf(payloads, applied)) <= payloads[o] <==> forall i :: 0 <= i < |applied| ==> applied[i] < o
  {
    var history := HistoryOf(payloads, applied);
    if i :| 0 <= i < |applied| && applied[i] >= o {
      var op :| Brings(log, payloads, applied[i], op);
      InMerge(history, op);
      assert op in history[i];
      InUpdatesBefore(log, payloads, o, op);
    } else {
      forall op | op in Merge(history) ensures op in payloads[o] {
        InMerge(history, op);
        var i :| 0 <= i < |history| && op in history[i];
        InUpdatesBefore(log, payloads, o, op);
        assert applied[i] < o && IsUpdate(log, applied[i]);
      }
    }
  }

  /** The updates that a worker applies as it handles `n` messages from `start` on. */
  ghost function AppliedBy(p: Progress, log: seq<Message>, start: nat, outcomes: seq<Outcome>, n: nat): seq<nat>
    requires Fits(log, start, outcomes, n)
  {
    if n == 0 then []
    else
      var o := start + n - 1;
      AppliedBy(p, log, start, outcomes, n - 1) +
      if IsUpdate(log, o) && Succeeds(HandleAll(p, log, start, outcomes, n - 1).processed, log[o], outcomes[n - 1])
      then [o] else []
  }

  lemma {:induction false} AppliedInOrder(p: Progress, log: seq<Message>, start: nat, outcomes: seq<Outcome>, n: nat)
    requires Fits(log, start, outcomes, n)
    ensures forall i :: 0 <= i < |AppliedBy(p, log, start, outcomes, n)| ==>
              && start <= AppliedBy(p, log, start, outcomes, n)[i] < start + n
              && IsUpdate(log, AppliedBy(p, log, start, outcomes, n)[i])
  {
    if n > 0 {
      AppliedInOrder(p, log, start, outcomes, n - 1);
    }
  }

  /** One worker after the other, none overlapping: when all that was applied before `start`
      stems from earlier messages, the snapshot event the worker comes to covers all that
      has been applied by then, so it meets the condition under which nothing is lost. */
  lemma {:induction false} InOrderCovers(
      p: Progress, log: seq<Message>, payloads: seq<Ops>, before: seq<nat>, start: nat, outcomes: seq<Outcome>, n: nat,
      s: Log, tx: TxId, s': Log)
    requires SentInOrder(log, payloads) && Fits(log, start, outcomes, n + 1) && IsSnapshot(log, start + n)
    requires forall i :: 0 <= i < |before| ==> before[i] < start && IsUpdate(log, before[i])
    requires var applied := before + AppliedBy(p, log, start, outcomes, n);
             (forall i :: 0 <= i < |applied| ==> applied[i] < |payloads|) && s.history == HistoryOf(payloads, applied)
    requires LogShape(s) && s.life.Live? && DocumentLog.Next(s, BeginSnapshot(tx, payloads[start + n]), s')
    ensures CoveringNext(s, BeginSnapshot(tx, payloads[start + n]), s')
  {
    AppliedInOrder(p, log, start, outcomes, n);
    var applied := before + AppliedBy(p, log, start, outcomes, n);
    forall op | op in Merge(s.history) ensures op in payloads[start + n] {
      InMerge(s.history, op);
      var i :| 0 <= i < |s.history| && op in s.history[i];
      InUpdatesBefore(log, payloads, start + n, op);
      assert applied[i] < start + n && IsUpdate(log, applied[i]);
    }
    assert s.history[..|s.history|] == s.history;
  }
}
