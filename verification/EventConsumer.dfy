/** The consumer of document events: a worker per assigned partition takes messages from
    its channel, records the event id, performs the effect, and commits the offset. What
    the database and the broker answer is a parameter of each call. */
module EventConsumer {
  import opened Wrappers
  import opened EventPipeline

  /** How the calls made for one message turn out. */
  datatype Outcome = Outcome(insertFails: bool, effectFails: bool, commitFails: bool)

  // ---------- what a list of messages does, without the machine ----------

  /** `frontier` is the committed offset, 0 before the first commit. */
  datatype Progress = Progress(processed: set<EventId>, appended: seq<EventId>, frontier: nat)

  predicate Records(processed: set<EventId>, m: Message, x: Outcome)
  {
    m.Event? && m.id !in processed && !x.insertFails
  }

  /** An unknown event type has no effect that could fail. */
  predicate Succeeds(processed: set<EventId>, m: Message, x: Outcome)
  {
    Records(processed, m, x) && (m.kind.Unknown? || !x.effectFails)
  }

  function Handle(p: Progress, offset: nat, m: Message, x: Outcome): Progress
  {
    Progress(if Records(p.processed, m, x) then p.processed + {m.id} else p.processed,
             if Succeeds(p.processed, m, x) && m.kind.Updated? then p.appended + [m.id] else p.appended,
             if Succeeds(p.processed, m, x) && !x.commitFails then offset + 1 else p.frontier)
  }

  ghost predicate Fits(log: seq<Message>, start: nat, outcomes: seq<Outcome>, n: nat)
  {
    start + n <= |log| && n <= |outcomes|
  }

  /** The `n` messages of `log` from `start` on, one after the other. */
  ghost function HandleAll(p: Progress, log: seq<Message>, start: nat, outcomes: seq<Outcome>, n: nat): Progress
    requires Fits(log, start, outcomes, n)
    decreases n
  {
    if n == 0 then p
    else Handle(HandleAll(p, log, start, outcomes, n - 1), start + n - 1, log[start + n - 1], outcomes[n - 1])
  }

  /** The `i`-th message carries `id` and its insert is not refused for another reason. */
  ghost predicate Tries(log: seq<Message>, start: nat, outcomes: seq<Outcome>, id: EventId, i: nat)
  {
    Fits(log, start, outcomes, i + 1) && log[start + i].Event? && log[start + i].id == id && !outcomes[i].insertFails
  }

  ghost predicate TriedBefore(log: seq<Message>, start: nat, outcomes: seq<Outcome>, id: EventId, n: nat)
  {
    exists i: nat :: i < n && Tries(log, start, outcomes, id, i)
  }

  lemma {:induction false} RecordedIff(
      p: Progress, log: seq<Message>, start: nat, outcomes: seq<Outcome>, n: nat, id: EventId)
    requires Fits(log, start, outcomes, n)
    ensures id in HandleAll(p, log, start, outcomes, n).processed <==>
              id in p.processed || TriedBefore(log, start, outcomes, id, n)
  {
    if n > 0 {
      RecordedIff(p, log, start, outcomes, n - 1, id);
      assert TriedBefore(log, start, outcomes, id, n) <==>
               TriedBefore(log, start, outcomes, id, n - 1) || Tries(log, start, outcomes, id, n - 1);
    }
  }

  /** The `i`-th message is the first of its id whose insert goes through, and its effect,
      a history entry, succeeds. */
  ghost predicate MakesEntry(p: Progress, log: seq<Message>, start: nat, outcomes: seq<Outcome>, id: EventId, i: nat)
  {
    && id !in p.processed && Tries(log, start, outcomes, id, i) && !TriedBefore(log, start, outcomes, id, i)
    && log[start + i].kind.Updated? && !outcomes[i].effectFails
  }

  function Count(ids: seq<EventId>, id: EventId): nat { multiset(ids)[id] }

  ghost predicate EntryBefore(p: Progress, log: seq<Message>, start: nat, outcomes: seq<Outcome>, id: EventId, n: nat)
  {
    exists i: nat :: i < n && MakesEntry(p, log, start, outcomes, id, i)
  }

  lemma {:induction false} AtMostOneEntry(
      p: Progress, log: seq<Message>, start: nat, outcomes: seq<Outcome>, id: EventId, n: nat)
    ensures One(EntryBefore(p, log, start, outcomes, id, n + 1)) ==
              One(EntryBefore(p, log, start, outcomes, id, n)) + One(MakesEntry(p, log, start, outcomes, id, n))
  {
    if i: nat :| i < n && MakesEntry(p, log, start, outcomes, id, i) {
      assert TriedBefore(log, start, outcomes, id, n);
    }
  }

  lemma {:induction false} EntryStep(
      p: Progress, log: seq<Message>, start: nat, outcomes: seq<Outcome>, n: nat, id: EventId)
    requires Fits(log, start, outcomes, n + 1)
    ensures Count(HandleAll(p, log, start, outcomes, n + 1).appended, id) ==
              Count(HandleAll(p, log, start, outcomes, n).appended, id)
              + One(MakesEntry(p, log, start, outcomes, id, n))
  {
    RecordedIff(p, log, start, outcomes, n, id);
  }

  /** An event makes one new history entry if the first delivery that records its id also
      completes the effect, and none otherwise: later deliveries never make up for it. */
  lemma {:induction false} AppendedIff(
      p: Progress, log: seq<Message>, start: nat, outcomes: seq<Outcome>, n: nat, id: EventId)
    requires Fits(log, start, outcomes, n)
    ensures Count(HandleAll(p, log, start, outcomes, n).appended, id) ==
              Count(p.appended, id) + One(EntryBefore(p, log, start, outcomes, id, n))
  {
    for k := 0 to n
      invariant Count(HandleAll(p, log, start, outcomes, k).appended, id) ==
                  Count(p.appended, id) + One(EntryBefore(p, log, start, outcomes, id, k))
    {
      EntryStep(p, log, start, outcomes, k, id);
      AtMostOneEntry(p, log, start, outcomes, id, k);
    }
  }

  /** Once every id of a batch is recorded, delivering it again changes nothing, whatever
      its first effects came to: neither a second entry nor a retry, nor a commit. */
  lemma {:induction false} RedeliveryChangesNothing(
      p: Progress, log: seq<Message>, start: nat, outcomes: seq<Outcome>, n: nat)
    requires Fits(log, start, outcomes, n)
    requires forall o :: start <= o < start + n && log[o].Event? ==> log[o].id in p.processed
    ensures HandleAll(p, log, start, outcomes, n) == p
  {
    if n > 0 {
      RedeliveryChangesNothing(p, log, start, outcomes, n - 1);
    }
  }

  /** The `i`-th message is the first of a new id whose insert goes through, its effect
      succeeds, if its type has one, and the broker takes its offset. */
  ghost predicate Completes(p: Progress, log: seq<Message>, start: nat, outcomes: seq<Outcome>, i: nat)
  {
    && Fits(log, start, outcomes, i + 1) && log[start + i].Event?
    && log[start + i].id !in p.processed && Tries(log, start, outcomes, log[start + i].id, i)
    && !TriedBefore(log, start, outcomes, log[start + i].id, i)
    && (log[start + i].kind.Unknown? || !outcomes[i].effectFails) && !outcomes[i].commitFails
  }

  lemma {:induction false} FrontierStep(p: Progress, log: seq<Message>, start: nat, outcomes: seq<Outcome>, n: nat)
    requires Fits(log, start, outcomes, n + 1)
    ensures HandleAll(p, log, start, outcomes, n + 1).frontier ==
              if Completes(p, log, start, outcomes, n) then start + n + 1
              else HandleAll(p, log, start, outcomes, n).frontier
  {
    if log[start + n].Event? {
      RecordedIff(p, log, start, outcomes, n, log[start + n].id);
    }
  }

  /** The committed offset is the one behind the last message that completed, of whatever
      type: failures after it stay uncommitted, failures before it are passed over. */
  lemma {:induction false} FrontierIs(
      p: Progress, log: seq<Message>, start: nat, outcomes: seq<Outcome>, i: nat, n: nat)
    requires i < n && Fits(log, start, outcomes, n) && Completes(p, log, start, outcomes, i)
    requires forall j: nat :: i < j < n ==> !Completes(p, log, start, outcomes, j)
    ensures HandleAll(p, log, start, outcomes, n).frontier == start + i + 1
  {
    FrontierStep(p, log, start, outcomes, i);
    for k := i + 1 to n
      invariant HandleAll(p, log, start, outcomes, k).frontier == start + i + 1
    {
      FrontierStep(p, log, start, outcomes, k);
    }
  }

  /** It stays where it was if no message completed. */
  lemma {:induction false} FrontierStays(p: Progress, log: seq<Message>, start: nat, outcomes: seq<Outcome>, n: nat)
    requires Fits(log, start, outcomes, n)
    requires forall j: nat :: j < n ==> !Completes(p, log, start, outcomes, j)
    ensures HandleAll(p, log, start, outcomes, n).frontier == p.frontier
  {
    for k := 0 to n
      invariant HandleAll(p, log, start, outcomes, k).frontier == p.frontier
    {
      FrontierStep(p, log, start, outcomes, k);
    }
  }

  // ---------- the consumer ----------

  lemma Overwritten<K, V>(m: map<K, V>, k: K, a: V, b: V)
    ensures m[k := a][k := b] == m[k := b]
  {
  }

  /** The worker has attempted the first message of its channel. */
  function Attempted(w: Assignment): Assignment
    requires w.channel != []
  {
    w.(channel := w.channel[1..], attempted := w.attempted + [w.channel[0]])
  }

  function AttemptedMany(w: Assignment, n: nat): Assignment
    requires n <= |w.channel|
  {
    w.(channel := w.channel[n..], attempted := w.attempted + w.channel[..n])
  }

  lemma OneMoreAttempted(w: Assignment, n: nat)
    requires n < |w.channel|
    ensures Attempted(AttemptedMany(w, n)) == AttemptedMany(w, n + 1)
  {
    assert w.channel[n..][1..] == w.channel[n + 1..];
    assert w.attempted + w.channel[..n] + [w.channel[n]] == w.attempted + w.channel[..n + 1];
  }

  class Consumer {
    var logs: map<Partition, seq<Message>>
    var committed: map<Partition, nat>
    var workers: map<Partition, Assignment>
    var started: set<Partition>
    var processed: set<EventId>
    var appended: seq<EventId>
    ghost var finished: multiset<EventId>
    ghost var lost: set<EventId>
    ghost var tried: set<(Partition, nat)>

    ghost function View(): System
      reads this
    {
      System(logs, committed, workers, processed, appended, finished, lost, tried)
    }

    function Messages(p: Partition): seq<Message>
      reads this`logs
    {
      if p in logs then logs[p] else []
    }

    /** The worker of `p` is at message `m` of its log. */
    predicate IsAt(p: Partition, stage: Stage, m: Message)
      reads this`logs, this`workers
    {
      && p in workers && workers[p].stage == stage && !stage.Idle?
      && stage.offset < |Messages(p)| && Messages(p)[stage.offset] == m
    }

    /** Each worker goes through the log of its partition without a gap. */
    ghost predicate Valid()
      reads this
    {
      && (forall p :: p in workers ==> workers[p].partition == p && Aligned(workers[p], |Messages(p)|))
      && (forall p :: p in committed ==> committed[p] <= |Messages(p)|)
    }

    constructor (logs: map<Partition, seq<Message>>)
      ensures Valid() && Start(View()) && this.logs == logs
    {
      this.logs := logs;
      committed, workers, processed, appended := map[], map[], {}, [];
      started, finished, lost, tried := {}, multiset{}, {}, {};
    }

    /** The broker reads on from the committed offset, or from the beginning; no worker is
        started for the partition yet. */
    method Assigned(p: Partition)
      requires Valid() && p !in workers
      modifies this`workers, this`started
      ensures Valid() && Next(old(View()), Assign(p, p), View()) && started == old(started) - {p}
      ensures var start := if p in committed then committed[p] else 0;
              workers == old(workers)[p := Assignment(p, start, start, [], Idle, [])]
    {
      var start := if p in committed then committed[p] else 0;
      workers := workers[p := Assignment(p, start, start, [], Idle, [])];
      started := started - {p};
    }

    /** A crash: the worker is gone with its channel and what it held. */
    method Crashed(p: Partition)
      requires Valid() && p in workers
      modifies this`workers, this`started, this`lost
      ensures Valid() && Next(old(View()), Stop(p), View()) && started == old(started) - {p}
    {
      lost := lost + set id | id in processed && Holds(View(), p, id);
      workers, started := workers - {p}, started - {p};
    }

    /** Revocation closes the channel: the worker still handles and commits all that is in
        it before it ends, and loses nothing by ending. */
    method Revoked(p: Partition, outcomes: seq<Outcome>)
      requires Valid() && p in workers && workers[p].stage.Idle? && |outcomes| >= |workers[p].channel|
      modifies this
      ensures Valid() && logs == old(logs) && workers == old(workers) - {p}
      ensures var first, n := old(workers[p].start + |workers[p].attempted|), |old(workers[p].channel)|;
              && Fits(Messages(p), first, outcomes, n)
              && ProgressOf(p) == HandleAll(old(ProgressOf(p)), Messages(p), first, outcomes, n)
    {
      StartPartitionWorker(p, outcomes);
      Ended(p);
    }

    method Ended(p: Partition)
      requires Valid() && p in workers && workers[p].stage.Idle? && workers[p].channel == []
      modifies this`workers, this`started
      ensures Valid() && Next(old(View()), Stop(p), View()) && workers == old(workers) - {p}
    {
      assert lost == lost + set id | id in processed && Holds(View(), p, id);
      workers, started := workers - {p}, started - {p};
    }

    method Send(p: Partition)
      requires Valid() && p in workers && |workers[p].channel| < CAPACITY
      requires workers[p].next < |Messages(p)|
      modifies this`workers
      ensures Valid() && Next(old(View()), EventPipeline.Poll(p), View())
      ensures workers == old(workers)[p := old(workers[p]).(channel := old(workers[p].channel + [workers[p].next]),
                                                            next := old(workers[p].next) + 1)]
    {
      var w := workers[p];
      workers := workers[p := w.(channel := w.channel + [w.next], next := w.next + 1)];
    }

    method WaitForRoom(p: Partition, x: Outcome)
      requires Valid() && p in workers && workers[p].stage.Idle?
      modifies this
      ensures Valid() && logs == old(logs) && p in workers && workers[p].stage.Idle?
      ensures |workers[p].channel| < CAPACITY && workers[p].next == old(workers[p].next)
      ensures workers[p].attempted + workers[p].channel == old(workers[p].attempted + workers[p].channel)
      ensures |old(workers[p].channel)| < 100 ==> workers[p].attempted == old(workers[p].attempted)
    {
      assert Aligned(workers[p], |Messages(p)|);
      if |workers[p].channel| >= CAPACITY {
        HandleNext(p, x);
      }
    }

    /** The poll loop sends the next message to its worker, which the first message starts;
        a full channel makes it wait until the worker has handled one. Nothing is dropped. */
    method Poll(p: Partition, x: Outcome)
      requires Valid() && p in workers && workers[p].stage.Idle? && workers[p].next < |Messages(p)|
      modifies this
      ensures Valid() && logs == old(logs) && p in workers && workers[p].stage.Idle?
      ensures workers[p].next == old(workers[p].next) + 1
      ensures workers[p].attempted + workers[p].channel ==
                old(workers[p].attempted + workers[p].channel) + [old(workers[p].next)]
      ensures |old(workers[p].channel)| < 100 ==> workers[p].attempted == old(workers[p].attempted)
      ensures p in started
    {
      WaitForRoom(p, x);
      started := started + {p};
      Send(p);
    }

    method Take(p: Partition) returns (offset: nat)
      requires Valid() && p in workers && workers[p].stage.Idle? && workers[p].channel != []
      modifies this`workers, this`tried
      ensures Valid() && Next(old(View()), EventPipeline.Take(p), View()) && offset == old(workers[p].channel[0])
      ensures offset < |Messages(p)|
      ensures workers == old(workers)[p := old(workers[p]).(
                                           channel := old(workers[p].channel[1..]), stage := Received(offset),
                                           attempted := old(workers[p].attempted) + [offset])]
    {
      var w := workers[p];
      offset := w.channel[0];
      assert Aligned(w, |Messages(p)|);
      workers := workers[p := w.(channel := w.channel[1..], stage := Received(offset),
                                 attempted := w.attempted + [offset])];
      tried := tried + {(p, offset)};
    }

    method Skip(p: Partition, offset: nat, m: Message)
      requires Valid() && IsAt(p, Received(offset), m)
      modifies this`workers
      ensures Valid() && Next(old(View()), Reject(p), View())
      ensures workers == old(workers)[p := old(workers[p]).(stage := Idle)]
    {
      workers := workers[p := workers[p].(stage := Idle)];
    }

    /** Insert of the event id: fails on a duplicate, or for any other reason. */
    method CanProcess(p: Partition, offset: nat, m: Message, insertFails: bool) returns (ok: bool)
      requires Valid() && IsAt(p, Received(offset), m) && m.Event?
      modifies this`workers, this`processed
      ensures Valid() && (ok <==> m.id !in old(processed) && !insertFails)
      ensures Next(old(View()), if ok then Record(p) else Reject(p), View())
      ensures processed == old(processed) + if ok then {m.id} else {}
      ensures workers == old(workers)[p := old(workers[p]).(stage := if ok then Recorded(offset) else Idle)]
    {
      ok := m.id !in processed && !insertFails;
      if ok {
        processed := processed + {m.id};
        workers := workers[p := workers[p].(stage := Recorded(offset))];
      } else {
        Skip(p, offset, m);
      }
    }

    /** The effect: an update makes one history entry. */
    method Perform(p: Partition, offset: nat, m: Message)
      requires Valid() && IsAt(p, Recorded(offset), m) && m.Event?
      modifies this`workers, this`appended, this`finished
      ensures Valid() && Next(old(View()), Effect(p), View())
      ensures appended == old(appended) + if m.kind.Updated? then [m.id] else []
      ensures workers == old(workers)[p := old(workers[p]).(stage := Finished(offset))]
    {
      workers := workers[p := workers[p].(stage := Finished(offset))];
      appended := if m.kind.Updated? then appended + [m.id] else appended;
      finished := finished + multiset{m.id};
      assert View() == To(old(View()), p, Finished(offset)).(appended := appended, finished := finished);
    }

    /** The effect fails; the id stays recorded. */
    method GiveUp(p: Partition, offset: nat, m: Message)
      requires Valid() && IsAt(p, Recorded(offset), m) && m.Event?
      modifies this`workers, this`lost
      ensures Valid() && Next(old(View()), Fail(p), View())
      ensures workers == old(workers)[p := old(workers[p]).(stage := Idle)]
    {
      workers := workers[p := workers[p].(stage := Idle)];
      lost := lost + {m.id};
    }

    function ProgressOf(p: Partition): Progress
      reads this
    {
      Progress(processed, appended, if p in committed then committed[p] else 0)
    }

    /** First the id, then the effect; any error ends the attempt without a retry. */
    method ProcessDocumentEvent(p: Partition, offset: nat, m: Message, x: Outcome) returns (ok: bool)
      requires Valid() && IsAt(p, Received(offset), m)
      modifies this`workers, this`processed, this`appended, this`finished, this`lost
      ensures Valid() && p in workers
      ensures ok <==> Succeeds(old(processed), m, x)
      ensures ok <==> m.Event? && m.id !in old(processed) && !x.insertFails && (m.kind.Unknown? || !x.effectFails)
      ensures processed == old(processed) + if Records(old(processed), m, x) then {m.id} else {}
      ensures appended == old(appended) + if ok && m.kind.Updated? then [m.id] else []
      ensures workers == old(workers)[p := old(workers[p]).(stage := if ok then Finished(offset) else Idle)]
    {
      if m.Malformed? {
        Skip(p, offset, m);
        return false;
      }
      ok := RecordThenPerform(p, offset, m, x);
    }

    method RecordThenPerform(p: Partition, offset: nat, m: Message, x: Outcome) returns (ok: bool)
      requires Valid() && IsAt(p, Received(offset), m) && m.Event?
      modifies this`workers, this`processed, this`appended, this`finished, this`lost
      ensures Valid() && p in workers
      ensures ok <==> Succeeds(old(processed), m, x)
      ensures ok <==> m.Event? && m.id !in old(processed) && !x.insertFails && (m.kind.Unknown? || !x.effectFails)
      ensures processed == old(processed) + if Records(old(processed), m, x) then {m.id} else {}
      ensures appended == old(appended) + if ok && m.kind.Updated? then [m.id] else []
      ensures workers == old(workers)[p := old(workers[p]).(stage := if ok then Finished(offset) else Idle)]
    {
      ok := CanProcess(p, offset, m, x.insertFails);
      if ok {
        ok := m.kind.Unknown? || !x.effectFails;
        if ok {
          Perform(p, offset, m);
        } else {
          GiveUp(p, offset, m);
        }
        Overwritten(old(workers), p, old(workers[p]).(stage := Recorded(offset)), workers[p]);
      }
    }

    method CommitMessage(p: Partition, offset: nat, m: Message, stored: bool)
      requires Valid() && IsAt(p, Finished(offset), m)
      modifies this`committed, this`workers
      ensures Valid() && Next(old(View()), Commit(p, stored), View())
      ensures workers == old(workers)[p := old(workers[p]).(stage := Idle)]
      ensures committed == if stored then old(committed)[p := offset + 1] else old(committed)
    {
      workers := workers[p := workers[p].(stage := Idle)];
      committed := if stored then committed[p := offset + 1] else committed;
      assert View() == To(old(View()), p, Idle).(committed := committed);
    }

    /** One message of the worker loop: a failed one is not committed and not kept. */
    method ProcessThenCommit(p: Partition, offset: nat, m: Message, x: Outcome)
      requires Valid() && IsAt(p, Received(offset), m)
      modifies this
      ensures Valid() && logs == old(logs) && p in workers
      ensures ProgressOf(p) == Handle(old(ProgressOf(p)), offset, m, x)
      ensures workers == old(workers)[p := old(workers[p]).(stage := Idle)]
    {
      var ok := ProcessDocumentEvent(p, offset, m, x);
      if ok {
        CommitMessage(p, offset, m, !x.commitFails);
        Overwritten(old(workers), p, old(workers[p]).(stage := Finished(offset)), workers[p]);
      }
    }

    method HandleNext(p: Partition, x: Outcome)
      requires Valid() && p in workers && workers[p].stage.Idle? && workers[p].channel != []
      modifies this
      ensures Valid() && logs == old(logs) && old(workers[p].channel[0]) < |Messages(p)|
      ensures ProgressOf(p) ==
                Handle(old(ProgressOf(p)), old(workers[p].channel[0]), Messages(p)[old(workers[p].channel[0])], x)
      ensures workers == old(workers)[p := Attempted(old(workers[p]))]
    {
      var offset := Take(p);
      ghost var taken := workers[p];
      ProcessThenCommit(p, offset, Messages(p)[offset], x);
      Overwritten(old(workers), p, taken, workers[p]);
    }

    /** The turn after `n` turns that began with `w`. */
    method HandleAfter(p: Partition, x: Outcome, ghost w: Assignment, ghost n: nat)
      requires Valid() && p in workers && w.stage.Idle? && n < |w.channel| && workers[p] == AttemptedMany(w, n)
      modifies this
      ensures Valid() && logs == old(logs)
      ensures workers == old(workers)[p := AttemptedMany(w, n + 1)]
      ensures var offset := w.start + |w.attempted| + n;
              offset < |Messages(p)| && ProgressOf(p) == Handle(old(ProgressOf(p)), offset, Messages(p)[offset], x)
    {
      assert Aligned(workers[p], |Messages(p)|);
      assert workers[p].channel[0] == w.start + |w.attempted| + n;
      OneMoreAttempted(w, n);
      HandleNext(p, x);
    }

    /** The worker drains its closed channel: every message is attempted, in order, and the
        database and the committed offset end up as the messages one by one make them. */
    method StartPartitionWorker(p: Partition, outcomes: seq<Outcome>)
      requires Valid() && p in workers && workers[p].stage.Idle? && |outcomes| >= |workers[p].channel|
      modifies this
      ensures Valid() && logs == old(logs)
      ensures workers == old(workers)[p := AttemptedMany(old(workers[p]), |old(workers[p].channel)|)]
      ensures var first, n := old(workers[p].start + |workers[p].attempted|), |old(workers[p].channel)|;
              && Fits(Messages(p), first, outcomes, n)
              && ProgressOf(p) == HandleAll(old(ProgressOf(p)), Messages(p), first, outcomes, n)
    {
      ghost var all, before, w := workers, ProgressOf(p), workers[p];
      ghost var first, n := w.start + |w.attempted|, |w.channel|;
      assert Aligned(w, |Messages(p)|);
      assert AttemptedMany(w, 0) == w;
      var i := 0;
      while workers[p].channel != []
        invariant Valid() && logs == old(logs) && 0 <= i <= n
        invariant workers == all[p := AttemptedMany(w, i)]
        invariant ProgressOf(p) == HandleAll(before, Messages(p), first, outcomes, i)
        decreases n - i
      {
        HandleAfter(p, outcomes[i], w, i);
        Overwritten(all, p, AttemptedMany(w, i), AttemptedMany(w, i + 1));
        i := i + 1;
      }
    }
  }
}
