/** Events from partition logs to the document history: polled into bounded channels,
    attempted one by one per partition assignment, deduplicated by event id before the
    effect, committed afterwards. Assignments come, go, crash and overlap. */
module EventPipeline {
  import opened Runs

  type EventId = string
  type Partition = nat
  type Id = nat

  const CAPACITY: nat := 100

  datatype Kind = Updated | Snapshot | Unknown

  /** A message that does not parse carries no event id. */
  datatype Message = Malformed | Event(id: EventId, kind: Kind)

  datatype Stage = Idle | Received(offset: nat) | Recorded(offset: nat) | Finished(offset: nat)

  /** One partition assignment: polled up to `next`, waiting in `channel`, taken by the
      worker in the order of `attempted`. */
  datatype Assignment = Assignment(partition: Partition, start: nat, next: nat, channel: seq<nat>, stage: Stage,
                                   attempted: seq<nat>)

  /** `processed` is the events table, `appended` the history entries made from events,
      `finished` all events whose effect completed, `lost` those recorded but given up. */
  datatype System = System(
    logs: map<Partition, seq<Message>>, committed: map<Partition, nat>, assignments: map<Id, Assignment>,
    processed: set<EventId>, appended: seq<EventId>, finished: multiset<EventId>, lost: set<EventId>,
    tried: set<(Partition, nat)>)

  datatype Step =
    | Produce(p: Partition, m: Message)
    | Assign(a: Id, p: Partition)
    | Poll(a: Id)
    | Take(a: Id)
    | Reject(a: Id)
    | Record(a: Id)
    | Effect(a: Id)
    | Fail(a: Id)
    | Commit(a: Id, stored: bool)
    | Stop(a: Id)

  function LogOf(s: System, p: Partition): seq<Message> { if p in s.logs then s.logs[p] else [] }

  /** A group without a committed offset starts at the earliest message. */
  function CommittedOf(s: System, p: Partition): nat { if p in s.committed then s.committed[p] else 0 }

  predicate Busy(s: System, a: Id)
  {
    a in s.assignments && !s.assignments[a].stage.Idle?
    && s.assignments[a].stage.offset < |LogOf(s, s.assignments[a].partition)|
  }

  /** The message assignment `a` is working on. */
  function Current(s: System, a: Id): Message
    requires Busy(s, a)
  {
    LogOf(s, s.assignments[a].partition)[s.assignments[a].stage.offset]
  }

  /** Between recording its id and finishing its effect. */
  predicate Holds(s: System, a: Id, id: EventId)
  {
    Busy(s, a) && s.assignments[a].stage.Recorded? && Current(s, a).Event? && Current(s, a).id == id
  }

  function To(s: System, a: Id, stage: Stage): System
    requires a in s.assignments
  {
    s.(assignments := s.assignments[a := s.assignments[a].(stage := stage)])
  }

  ghost predicate Next(s: System, l: Step, s': System)
  {
    match l
    case Produce(p, m) => s' == s.(logs := s.logs[p := LogOf(s, p) + [m]])
    case Assign(a, p) =>
      && a !in s.assignments
      && s' == s.(assignments := s.assignments[a := Assignment(p, CommittedOf(s, p), CommittedOf(s, p), [], Idle, [])])
    case Poll(a) =>
      // a full channel makes the poll loop wait
      && a in s.assignments && s.assignments[a].next < |LogOf(s, s.assignments[a].partition)|
      && |s.assignments[a].channel| < CAPACITY
      && var x := s.assignments[a];
         s' == s.(assignments := s.assignments[a := x.(channel := x.channel + [x.next], next := x.next + 1)])
    case Take(a) =>
      && a in s.assignments && s.assignments[a].stage.Idle? && s.assignments[a].channel != []
      && var x := s.assignments[a];
         s' == s.(assignments := s.assignments[a := x.(channel := x.channel[1..], stage := Received(x.channel[0]),
                                                       attempted := x.attempted + [x.channel[0]])],
                  tried := s.tried + {(x.partition, x.channel[0])})
    case Reject(a) =>
      // unreadable, a duplicate id, or the insert failed
      Busy(s, a) && s.assignments[a].stage.Received? && s' == To(s, a, Idle)
    case Record(a) =>
      && Busy(s, a) && s.assignments[a].stage.Received? && Current(s, a).Event?
      && Current(s, a).id !in s.processed
      && s' == To(s, a, Recorded(s.assignments[a].stage.offset)).(processed := s.processed + {Current(s, a).id})
    case Effect(a) =>
      && Busy(s, a) && s.assignments[a].stage.Recorded? && Current(s, a).Event?
      && var m := Current(s, a);
         s' == To(s, a, Finished(s.assignments[a].stage.offset)).(
                 appended := if m.kind.Updated? then s.appended + [m.id] else s.appended,
                 finished := s.finished + multiset{m.id})
    case Fail(a) =>
      && Busy(s, a) && s.assignments[a].stage.Recorded? && Current(s, a).Event?
      && s' == To(s, a, Idle).(lost := s.lost + {Current(s, a).id})
    case Commit(a, stored) =>
      && Busy(s, a) && s.assignments[a].stage.Finished?
      && var x := s.assignments[a];
         s' == To(s, a, Idle).(
                 committed := if stored then s.committed[x.partition := x.stage.offset + 1] else s.committed)
    case Stop(a) =>
      && a in s.assignments
      && s' == s.(assignments := s.assignments - {a}, lost := s.lost + set id | id in s.processed && Holds(s, a, id))
  }

  ghost predicate Start(s: System)
  {
    && s.committed == map[] && s.assignments == map[] && s.processed == {}
    && s.appended == [] && s.finished == multiset{} && s.lost == {}
  }

  // ---------- order and commit frontier ----------

  ghost predicate InOrder(s: System, x: Assignment) { Aligned(x, |LogOf(s, x.partition)|) }

  /** Attempted, waiting and not yet polled messages follow each other without a gap. */
  ghost predicate Aligned(x: Assignment, length: nat)
  {
    && |x.channel| <= CAPACITY
    && x.next == x.start + |x.attempted| + |x.channel| <= length
    && (forall i :: 0 <= i < |x.attempted| ==> x.attempted[i] == x.start + i)
    && (forall i :: 0 <= i < |x.channel| ==> x.channel[i] == x.start + |x.attempted| + i)
    && (!x.stage.Idle? ==> |x.attempted| > 0 && x.stage.offset == x.attempted[|x.attempted| - 1])
  }

  ghost predicate TriedBelow(s: System, p: Partition, offset: nat)
  {
    forall o :: 0 <= o < offset ==> (p, o) in s.tried
  }

  ghost predicate Frontier(s: System)
  {
    && (forall p :: p in s.committed ==> s.committed[p] <= |LogOf(s, p)| && TriedBelow(s, p, s.committed[p]))
    && (forall a :: a in s.assignments ==> OnTrack(s, s.assignments[a]))
  }

  ghost predicate OnTrack(s: System, x: Assignment)
  {
    InOrder(s, x) && TriedBelow(s, x.partition, x.start + |x.attempted|)
  }

  lemma {:induction false} FrontierStep(s: System, l: Step, s': System)
    requires Frontier(s) && Next(s, l, s')
    ensures Frontier(s')
  {
    forall a | a in s'.assignments ensures OnTrack(s', s'.assignments[a]) {
      OnTrackStep(s, l, s', a);
    }
    forall p | p in s'.committed ensures s'.committed[p] <= |LogOf(s', p)| && TriedBelow(s', p, s'.committed[p]) {
      CommittedStep(s, l, s', p);
    }
  }

  lemma {:induction false} OnTrackStep(s: System, l: Step, s': System, a: Id)
    requires Frontier(s) && Next(s, l, s') && a in s'.assignments
    ensures OnTrack(s', s'.assignments[a])
  {
    if a in s.assignments {
      assert OnTrack(s, s.assignments[a]);
      if l == Take(a) {
        TakeKeepsTrack(s, a, s');
      } else if l == Poll(a) {
        PollKeepsTrack(s, a, s');
      } else {
        RestKeepsTrack(s, l, s', a);
      }
    } else {
      AssignIsOnTrack(s, a, s'.assignments[a].partition, s');
    }
  }

  lemma {:induction false} RestKeepsTrack(s: System, l: Step, s': System, a: Id)
    requires Next(s, l, s') && l != Take(a) && l != Poll(a) && a in s.assignments && a in s'.assignments
    requires OnTrack(s, s.assignments[a])
    ensures OnTrack(s', s'.assignments[a])
  {
    assert s.tried <= s'.tried;
  }

  lemma {:induction false} AssignIsOnTrack(s: System, a: Id, p: Partition, s': System)
    requires Frontier(s) && Next(s, Assign(a, p), s')
    ensures OnTrack(s', s'.assignments[a])
  {
  }

  lemma {:induction false} TakeKeepsTrack(s: System, a: Id, s': System)
    requires Next(s, Take(a), s') && OnTrack(s, s.assignments[a])
    ensures OnTrack(s', s'.assignments[a])
  {
    assert s.assignments[a].channel[0] == s.assignments[a].start + |s.assignments[a].attempted|;
  }

  lemma {:induction false} PollKeepsTrack(s: System, a: Id, s': System)
    requires Next(s, Poll(a), s') && OnTrack(s, s.assignments[a])
    ensures OnTrack(s', s'.assignments[a])
  {
  }

  lemma {:induction false} CommittedStep(s: System, l: Step, s': System, p: Partition)
    requires Frontier(s) && Next(s, l, s') && p in s'.committed
    ensures s'.committed[p] <= |LogOf(s', p)| && TriedBelow(s', p, s'.committed[p])
  {
    if l.Commit? {
      assert OnTrack(s, s.assignments[l.a]);
    }
    assert p in s.committed ==> TriedBelow(s, p, s.committed[p]);
  }

  /** Within an assignment messages are attempted in offset order from its start, and none
      is dropped between poll and worker; no committed offset, of whichever assignment,
      has passed a message that nobody attempted. */
  lemma {:induction false} AttemptedInOrder(states: seq<System>, steps: seq<Step>, i: nat)
    requires IsRun(Next, states, steps) && Start(states[0]) && i < |states|
    ensures forall a :: a in states[i].assignments ==> InOrder(states[i], states[i].assignments[a])
    ensures forall p, o :: p in states[i].committed && 0 <= o < states[i].committed[p] ==> (p, o) in states[i].tried
  {
    forall s, l, s' | Frontier(s) && Next(s, l, s') ensures Frontier(s') {
      FrontierStep(s, l, s');
    }
    InvariantHolds(Next, Frontier, states, steps);
    forall p, o | p in states[i].committed && 0 <= o < states[i].committed[p] ensures (p, o) in states[i].tried {
      assert TriedBelow(states[i], p, states[i].committed[p]);
    }
  }

  // ---------- at most once ----------

  ghost predicate Held(s: System, id: EventId) { exists a :: Holds(s, a, id) }

  /** A recorded id is in exactly one place: finished once, lost, or held by one worker. */
  ghost predicate Once(s: System)
  {
    && (forall id :: s.finished[id] <= 1)
    && multiset(s.appended) <= s.finished
    && (forall id :: id in s.processed <==> id in s.finished || id in s.lost || Held(s, id))
    && (forall id :: id in s.lost ==> id !in s.finished && !Held(s, id))
    && (forall id :: id in s.finished ==> !Held(s, id))
    && (forall a, b, id :: Holds(s, a, id) && Holds(s, b, id) ==> a == b)
  }

  lemma {:induction false} HoldsKept(s: System, l: Step, s': System, a: Id, id: EventId)
    requires Frontier(s) && Next(s, l, s')
    ensures !(l.Record? || l.Effect? || l.Fail? || l.Stop?) || l.a != a ==> (Holds(s', a, id) <==> Holds(s, a, id))
    ensures l.Record? && l.a == a ==> (Holds(s', a, id) <==> id == Current(s, a).id)
    ensures (l.Effect? || l.Fail? || l.Stop?) && l.a == a ==> !Holds(s', a, id)
  {
  }

  predicate Quiet(l: Step) { !l.Record? && !l.Effect? && !l.Fail? && !l.Stop? }

  lemma {:induction false} HeldKept(s: System, l: Step, s': System, id: EventId)
    requires Frontier(s) && Once(s) && Next(s, l, s')
    ensures Quiet(l) ==> (Held(s', id) <==> Held(s, id))
    ensures l.Record? ==> (Held(s', id) <==> Held(s, id) || id == Current(s, l.a).id)
    ensures l.Effect? || l.Fail? || l.Stop? ==> (Held(s', id) <==> Held(s, id) && !Holds(s, l.a, id))
  {
    forall a ensures Holds(s', a, id) <==>
        if !Quiet(l) && l.a == a then l.Record? && id == Current(s, a).id else Holds(s, a, id) {
      HoldsKept(s, l, s', a, id);
    }
    if l.Record? && id == Current(s, l.a).id {
      assert Holds(s', l.a, id);
    } else if b :| Holds(s, b, id) {
      assert (!Quiet(l) && l.a == b) || Holds(s', b, id);
    }
  }

  lemma {:induction false} OneHolder(s: System, l: Step, s': System, a: Id, b: Id, id: EventId)
    requires Frontier(s) && Once(s) && Next(s, l, s') && Holds(s', a, id) && Holds(s', b, id)
    ensures a == b
  {
    HoldsKept(s, l, s', a, id);
    HoldsKept(s, l, s', b, id);
    if l.Record? {
      assert !Held(s, Current(s, l.a).id);
    }
  }

  lemma {:induction false} PlaceKept(s: System, l: Step, s': System, id: EventId)
    requires Frontier(s) && Once(s) && Next(s, l, s')
    ensures id in s'.processed <==> id in s'.finished || id in s'.lost || Held(s', id)
    ensures id in s'.lost ==> id !in s'.finished && !Held(s', id)
    ensures id in s'.finished ==> !Held(s', id) && s'.finished[id] <= 1
  {
    HeldKept(s, l, s', id);
    if l.Effect? || l.Fail? {
      assert Holds(s, l.a, Current(s, l.a).id);
    }
    if l.Stop? && Holds(s, l.a, id) {
      assert Held(s, id);
    }
  }

  lemma {:induction false} OnceStep(s: System, l: Step, s': System)
    requires Frontier(s) && Once(s) && Next(s, l, s')
    ensures Once(s')
  {
    forall id ensures
        && (id in s'.processed <==> id in s'.finished || id in s'.lost || Held(s', id))
        && (id in s'.lost ==> id !in s'.finished && !Held(s', id))
        && (id in s'.finished ==> !Held(s', id) && s'.finished[id] <= 1) {
      PlaceKept(s, l, s', id);
    }
    forall a, b, id | Holds(s', a, id) && Holds(s', b, id) ensures a == b {
      OneHolder(s, l, s', a, b, id);
    }
  }

  ghost predicate Safe(s: System) { Frontier(s) && Once(s) }

  lemma {:induction false} SafeAlways(states: seq<System>, steps: seq<Step>)
    requires IsRun(Next, states, steps) && Start(states[0])
    ensures forall i :: 0 <= i < |states| ==> Safe(states[i])
  {
    forall s, l, s' | Safe(s) && Next(s, l, s') ensures Safe(s') {
      FrontierStep(s, l, s');
      OnceStep(s, l, s');
    }
    InvariantHolds(Next, Safe, states, steps);
  }

  /** Over all deliveries, redeliveries, crashes and overlapping assignments an event id
      makes at most one history entry; its effect completed exactly once if and only if
      it was recorded, is not in a worker's hands, and neither error nor crash fell between. */
  lemma {:induction false} AtMostOnceEffect(states: seq<System>, steps: seq<Step>, i: nat, id: EventId)
    requires IsRun(Next, states, steps) && Start(states[0]) && i < |states|
    ensures multiset(states[i].appended)[id] <= states[i].finished[id] <= 1
    ensures states[i].finished[id] == 1 <==> id in states[i].processed && id !in states[i].lost && !Held(states[i], id)
  {
    SafeAlways(states, steps);
  }

  /** An event that failed after its id was recorded is never retried. */
  lemma {:induction false} LostForever(states: seq<System>, steps: seq<Step>, i: nat, j: nat, id: EventId)
    requires IsRun(Next, states, steps) && Start(states[0]) && i <= j < |states|
    requires id in states[i].lost
    ensures id in states[j].lost && id !in states[j].appended
  {
    SafeAlways(states, steps);
    for k := i to j
      invariant id in states[k].lost
    {
      assert Next(states[k], steps[k], states[k + 1]);
    }
    NotAppended(states[j], id);
  }

  lemma NotAppended(s: System, id: EventId)
    requires Once(s) && id in s.lost
    ensures id !in s.appended
  {
    assert id !in multiset(s.appended);
  }

  /** The worker fails one event and goes on with the next, which succeeds. */
  function Failed(s: System, a: Id, id: EventId): System
    requires a in s.assignments
  {
    To(s, a, Idle).(lost := s.lost + {id})
  }

  function Taken(s: System, a: Id, o: nat): System
    requires a in s.assignments && s.assignments[a].channel != []
  {
    var x := s.assignments[a];
    s.(assignments := s.assignments[a := x.(channel := x.channel[1..], stage := Received(o),
                                            attempted := x.attempted + [o])],
       tried := s.tried + {(x.partition, o)})
  }

  function Handled(s: System, a: Id, id: EventId, o: nat): System
    requires a in s.assignments
  {
    To(s, a, Idle).(processed := s.processed + {id}, appended := s.appended + [id],
                    finished := s.finished + multiset{id},
                    committed := s.committed[s.assignments[a].partition := o + 1])
  }

  lemma {:induction false} HandledByThree(s: System, a: Id, id: EventId, o: nat) returns (s1: System, s2: System)
    requires a in s.assignments && s.assignments[a].stage == Received(o)
    requires o < |LogOf(s, s.assignments[a].partition)| && LogOf(s, s.assignments[a].partition)[o] == Event(id, Updated)
    requires id !in s.processed
    ensures Next(s, Record(a), s1) && Next(s1, Effect(a), s2) && Next(s2, Commit(a, true), Handled(s, a, id, o))
  {
    s1 := To(s, a, Recorded(o)).(processed := s.processed + {id});
    assert Current(s, a) == Event(id, Updated);
    s2 := To(s1, a, Finished(o)).(appended := s.appended + [id], finished := s.finished + multiset{id});
    assert Current(s1, a) == Event(id, Updated);
  }

  /** A later success commits past a failed event, so the failure is not left unconsumed:
      with its id recorded and lost, a redelivery would be refused as well. */
  lemma {:induction false} FailureIsSkipped(s: System, a: Id, failed: EventId, next: EventId, o: nat)
    returns (states: seq<System>)
    requires Holds(s, a, failed) && s.assignments[a].stage.offset == o
    requires s.assignments[a].channel != [] && s.assignments[a].channel[0] == o + 1
    requires o + 1 < |LogOf(s, s.assignments[a].partition)|
    requires LogOf(s, s.assignments[a].partition)[o + 1] == Event(next, Updated)
    requires next !in s.processed
    ensures IsRun(Next, states, [Fail(a), Take(a), Record(a), Effect(a), Commit(a, true)]) && states[0] == s
    ensures failed in states[5].lost && CommittedOf(states[5], s.assignments[a].partition) == o + 2
  {
    var s1 := Failed(s, a, failed);
    assert Next(s, Fail(a), s1);
    var s2 := Taken(s1, a, o + 1);
    assert Next(s1, Take(a), s2);
    var s3, s4 := HandledByThree(s2, a, next, o + 1);
    var s5 := Handled(s2, a, next, o + 1);
    states := [s, s1, s2, s3, s4, s5];
  }
}
