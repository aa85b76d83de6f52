/** When a message can be attempted again, and when that can still bring its effect. */
module EventRetry {
  import opened Runs
  import opened EventPipeline

  // ---------- behind every reader ----------

  /** The committed offset or some worker of the partition has yet to get to message `o`. */
  ghost predicate Ahead(s: System, p: Partition, o: nat)
  {
    CommittedOf(s, p) <= o || exists a :: a in s.assignments && Awaits(s.assignments[a], p, o)
  }

  predicate Awaits(x: Assignment, p: Partition, o: nat) { x.partition == p && x.start + |x.attempted| <= o }

  predicate TakesNow(s: System, l: Step, p: Partition, o: nat)
  {
    l.Take? && l.a in s.assignments && s.assignments[l.a].partition == p
    && s.assignments[l.a].channel != [] && s.assignments[l.a].channel[0] == o
  }

  /** A run from `s` in which a worker takes message `o` of `p`. */
  ghost predicate CanBeAttempted(s: System, p: Partition, o: nat)
  {
    exists states: seq<System>, steps: seq<Step> ::
      && IsRun(Next, states, steps) && states[0] == s && |steps| > 0
      && TakesNow(states[|steps| - 1], steps[|steps| - 1], p, o)
  }

  lemma {:induction false} BehindStep(s: System, l: Step, s': System, p: Partition, o: nat)
    requires Frontier(s) && !Ahead(s, p, o) && Next(s, l, s')
    ensures !Ahead(s', p, o) && !TakesNow(s, l, p, o)
  {
    if l.Take? || l.Commit? {
      assert OnTrack(s, s.assignments[l.a]) && !Awaits(s.assignments[l.a], p, o);
    }
    forall a | a in s'.assignments ensures !Awaits(s'.assignments[a], p, o) {
      assert a in s.assignments ==> !Awaits(s.assignments[a], p, o);
    }
  }

  lemma {:induction false} NeverAgain(states: seq<System>, steps: seq<Step>, p: Partition, o: nat)
    requires IsRun(Next, states, steps) && Frontier(states[0]) && !Ahead(states[0], p, o)
    ensures forall i :: 0 <= i < |steps| ==> !TakesNow(states[i], steps[i], p, o)
  {
    for i := 0 to |steps|
      invariant Frontier(states[i]) && !Ahead(states[i], p, o)
      invariant forall k :: 0 <= k < i ==> !TakesNow(states[k], steps[k], p, o)
    {
      assert Next(states[i], steps[i], states[i + 1]);
      FrontierStep(states[i], steps[i], states[i + 1]);
      BehindStep(states[i], steps[i], states[i + 1], p, o);
    }
  }

  // ---------- getting there ----------

  /** Only events are ever recorded. */
  ghost predicate RecordedAreEvents(s: System)
  {
    forall a :: a in s.assignments && s.assignments[a].stage.Recorded? ==> Busy(s, a) && Current(s, a).Event?
  }

  lemma {:induction false} RecordedAreEventsStep(s: System, l: Step, s': System)
    requires RecordedAreEvents(s) && Next(s, l, s')
    ensures RecordedAreEvents(s')
  {
    forall a | a in s'.assignments && s'.assignments[a].stage.Recorded? ensures Busy(s', a) && Current(s', a).Event? {
      if l != Record(a) {
        assert a in s.assignments && s.assignments[a].stage == s'.assignments[a].stage;
      }
    }
  }

  /** The worker `a` of `p` stands idle before message `n`. */
  ghost predicate IdleAt(s: System, a: Id, p: Partition, n: nat)
  {
    a in s.assignments && s.assignments[a].partition == p && s.assignments[a].stage.Idle?
    && s.assignments[a].start + |s.assignments[a].attempted| == n && InOrder(s, s.assignments[a])
  }

  /** `a` has message `o` of `p` in hand, and on the way nothing was recorded. */
  ghost predicate HasTaken(s: System, s': System, a: Id, p: Partition, o: nat)
  {
    && a in s'.assignments && s'.assignments[a].partition == p && s'.assignments[a].stage == Received(o)
    && s'.logs == s.logs && s'.processed == s.processed
  }

  ghost predicate TakesAtEnd(states: seq<System>, steps: seq<Step>, s: System, a: Id, p: Partition, o: nat)
  {
    && IsRun(Next, states, steps) && states[0] == s && |steps| > 0
    && TakesNow(states[|steps| - 1], steps[|steps| - 1], p, o) && HasTaken(s, states[|steps|], a, p, o)
  }

  lemma {:induction false} Prepend(
      s: System, l: Step, s': System, states: seq<System>, steps: seq<Step>, a: Id, p: Partition, o: nat)
    requires Next(s, l, s') && TakesAtEnd(states, steps, s', a, p, o)
    requires s'.logs == s.logs && s'.processed == s.processed
    ensures TakesAtEnd([s] + states, [l] + steps, s, a, p, o)
  {
    var all, both := [s] + states, [l] + steps;
    forall i | 0 <= i < |both| ensures Next(all[i], both[i], all[i + 1]) {
      if i > 0 {
        assert Next(states[i - 1], steps[i - 1], states[i]);
      }
    }
    assert all[|both|] == states[|steps|] && all[|both| - 1] == states[|steps| - 1];
  }

  /** Poll if the channel is empty, take, and turn the message away unless it is `o`. */
  lemma {:induction false} FromIdle(s: System, a: Id, p: Partition, n: nat, o: nat)
    returns (states: seq<System>, steps: seq<Step>)
    requires IdleAt(s, a, p, n) && n <= o < |LogOf(s, p)|
    ensures TakesAtEnd(states, steps, s, a, p, o)
    decreases o - n, if s.assignments[a].channel == [] then 2 else 1
  {
    var x := s.assignments[a];
    if x.channel == [] {
      var s1 := s.(assignments := s.assignments[a := x.(channel := x.channel + [x.next], next := x.next + 1)]);
      assert Next(s, Poll(a), s1) && InOrder(s1, s1.assignments[a]);
      states, steps := FromIdle(s1, a, p, n, o);
      Prepend(s, Poll(a), s1, states, steps, a, p, o);
      states, steps := [s] + states, [Poll(a)] + steps;
    } else {
      states, steps := FromFull(s, a, p, n, o);
    }
  }

  lemma {:induction false} FromFull(s: System, a: Id, p: Partition, n: nat, o: nat)
    returns (states: seq<System>, steps: seq<Step>)
    requires IdleAt(s, a, p, n) && n <= o < |LogOf(s, p)| && s.assignments[a].channel != []
    ensures TakesAtEnd(states, steps, s, a, p, o)
    decreases o - n, 0
  {
    var x := s.assignments[a];
    assert x.channel[0] == n;
    var s1 := s.(assignments := s.assignments[a := x.(channel := x.channel[1..], stage := Received(n),
                                                      attempted := x.attempted + [n])],
                 tried := s.tried + {(p, n)});
    assert Next(s, Take(a), s1);
    if n == o {
      states, steps := [s, s1], [Take(a)];
    } else {
      var s2 := To(s1, a, Idle);
      assert Busy(s1, a) && Next(s1, Reject(a), s2);
      TakenIsInOrder(s, a, s1);
      states, steps := FromIdle(s2, a, p, n + 1, o);
      Prepend(s1, Reject(a), s2, states, steps, a, p, o);
      Prepend(s, Take(a), s1, [s1] + states, [Reject(a)] + steps, a, p, o);
      states, steps := [s] + ([s1] + states), [Take(a)] + ([Reject(a)] + steps);
    }
  }

  lemma {:induction false} TakenIsInOrder(s: System, a: Id, s': System)
    requires Next(s, Take(a), s') && InOrder(s, s.assignments[a])
    ensures InOrder(s', s'.assignments[a])
  {
  }

  /** Whatever the worker has in hand it can be done with in one step. */
  lemma {:induction false} FromWorker(s: System, a: Id, p: Partition, o: nat)
    returns (states: seq<System>, steps: seq<Step>)
    requires Frontier(s) && RecordedAreEvents(s) && a in s.assignments && Awaits(s.assignments[a], p, o)
    requires o < |LogOf(s, p)|
    ensures TakesAtEnd(states, steps, s, a, p, o)
  {
    var x := s.assignments[a];
    assert OnTrack(s, x);
    var n := x.start + |x.attempted|;
    if x.stage.Idle? {
      states, steps := FromIdle(s, a, p, n, o);
    } else {
      var l, s1 := LetGo(s, a);
      states, steps := FromIdle(s1, a, p, n, o);
      Prepend(s, l, s1, states, steps, a, p, o);
      states, steps := [s] + states, [l] + steps;
    }
  }

  lemma {:induction false} LetGo(s: System, a: Id) returns (l: Step, s': System)
    requires RecordedAreEvents(s) && a in s.assignments && !s.assignments[a].stage.Idle?
    requires OnTrack(s, s.assignments[a])
    ensures Next(s, l, s') && s'.logs == s.logs && s'.processed == s.processed
    ensures a in s'.assignments && s'.assignments[a] == s.assignments[a].(stage := Idle)
  {
    s' := To(s, a, Idle);
    match s.assignments[a].stage
    case Received(_) => l := Reject(a);
    case Recorded(_) =>
      l := Fail(a);
      s' := s'.(lost := s.lost + {Current(s, a).id});
    case Finished(_) => l := Commit(a, false);
  }

  lemma {:induction false} FreshAbove(ids: set<Id>) returns (a: Id)
    ensures forall n :: n in ids ==> n < a
  {
    if ids == {} {
      a := 0;
    } else {
      var n :| n in ids;
      var b := FreshAbove(ids - {n});
      a := if n < b then b else n + 1;
      forall m | m in ids ensures m < a {
        assert m == n || m in ids - {n};
      }
    }
  }

  /** A new assignment starts at the committed offset. */
  lemma {:induction false} FromCommitted(s: System, p: Partition, o: nat)
    returns (states: seq<System>, steps: seq<Step>, a: Id)
    requires Frontier(s) && CommittedOf(s, p) <= o < |LogOf(s, p)|
    ensures TakesAtEnd(states, steps, s, a, p, o)
  {
    a := FreshAbove(s.assignments.Keys);
    var x := Assignment(p, CommittedOf(s, p), CommittedOf(s, p), [], Idle, []);
    var s1 := s.(assignments := s.assignments[a := x]);
    assert Next(s, Assign(a, p), s1);
    states, steps := FromIdle(s1, a, p, CommittedOf(s, p), o);
    Prepend(s, Assign(a, p), s1, states, steps, a, p, o);
    states, steps := [s] + states, [Assign(a, p)] + steps;
  }

  lemma {:induction false} GetsThere(s: System, p: Partition, o: nat)
    returns (states: seq<System>, steps: seq<Step>, a: Id)
    requires Frontier(s) && RecordedAreEvents(s) && Ahead(s, p, o) && o < |LogOf(s, p)|
    ensures TakesAtEnd(states, steps, s, a, p, o)
  {
    if CommittedOf(s, p) <= o {
      states, steps, a := FromCommitted(s, p, o);
    } else {
      a :| a in s.assignments && Awaits(s.assignments[a], p, o);
      states, steps := FromWorker(s, a, p, o);
    }
  }

  lemma {:induction false} AttemptedIff(s: System, p: Partition, o: nat)
    requires Frontier(s) && RecordedAreEvents(s) && o < |LogOf(s, p)|
    ensures CanBeAttempted(s, p, o) <==> Ahead(s, p, o)
  {
    if Ahead(s, p, o) {
      var states, steps, a := GetsThere(s, p, o);
    } else if CanBeAttempted(s, p, o) {
      var states: seq<System>, steps: seq<Step> :|
        IsRun(Next, states, steps) && states[0] == s && |steps| > 0
        && TakesNow(states[|steps| - 1], steps[|steps| - 1], p, o);
      NeverAgain(states, steps, p, o);
    }
  }

  ghost predicate Sound(s: System) { Frontier(s) && RecordedAreEvents(s) }

  lemma {:induction false} SoundAlways(states: seq<System>, steps: seq<Step>)
    requires IsRun(Next, states, steps) && Start(states[0])
    ensures forall i :: 0 <= i < |states| ==> Sound(states[i])
  {
    forall s, l, s' | Sound(s) && Next(s, l, s') ensures Sound(s') {
      FrontierStep(s, l, s');
      RecordedAreEventsStep(s, l, s');
    }
    InvariantHolds(Next, Sound, states, steps);
  }

  /** At any point of any run, a message can be attempted, for the first time or again, if
      and only if the committed offset has not passed it or some worker of its partition
      has yet to get to it. */
  lemma {:induction false} RetryIff(states: seq<System>, steps: seq<Step>, i: nat, p: Partition, o: nat)
    requires IsRun(Next, states, steps) && Start(states[0]) && i < |states| && o < |LogOf(states[i], p)|
    ensures CanBeAttempted(states[i], p, o) <==> Ahead(states[i], p, o)
  {
    SoundAlways(states, steps);
    AttemptedIff(states[i], p, o);
  }

  // ---------- an insert that failed can be made up for ----------

  /** A run from `s` that makes an entry for `id`. */
  ghost predicate CanMakeEntry(s: System, id: EventId)
  {
    exists states: seq<System>, steps: seq<Step> ::
      IsRun(Next, states, steps) && states[0] == s && id in states[|steps|].appended
  }

  lemma {:induction false} RecordThenEffect(s: System, a: Id, p: Partition, o: nat, id: EventId)
    returns (states: seq<System>)
    requires a in s.assignments && s.assignments[a].partition == p && s.assignments[a].stage == Received(o)
    requires o < |LogOf(s, p)| && LogOf(s, p)[o] == Event(id, Updated) && id !in s.processed
    ensures IsRun(Next, states, [Record(a), Effect(a)]) && states[0] == s && id in states[2].appended
  {
    var s1 := To(s, a, Recorded(o)).(processed := s.processed + {id});
    assert Current(s, a) == Event(id, Updated) && Next(s, Record(a), s1);
    var s2 := To(s1, a, Finished(o)).(appended := s.appended + [id], finished := s.finished + multiset{id});
    assert Current(s1, a) == Event(id, Updated) && Next(s1, Effect(a), s2);
    states := [s, s1, s2];
  }

  /** An update event whose insert failed, or that was never attempted, is not recorded, and
      can still make its entry as long as it can be attempted; one that failed after it
      was recorded cannot, however often it is delivered. */
  lemma {:induction false} RetryMakesEntryIff(
      states: seq<System>, steps: seq<Step>, i: nat, p: Partition, o: nat, id: EventId)
    requires IsRun(Next, states, steps) && Start(states[0]) && i < |states|
    requires o < |LogOf(states[i], p)| && LogOf(states[i], p)[o] == Event(id, Updated)
    requires Ahead(states[i], p, o) && !Held(states[i], id) && id !in states[i].finished
    ensures CanMakeEntry(states[i], id) <==> id !in states[i].lost
  {
    SoundAlways(states, steps);
    SafeAlways(states, steps);
    var s := states[i];
    if id !in s.lost {
      var way, moves, a := GetsThere(s, p, o);
      var end := RecordThenEffect(way[|moves|], a, p, o, id);
      Join(Next, way, moves, end, [Record(a), Effect(a)]);
      var all, both := way + end[1..], moves + [Record(a), Effect(a)];
      assert all[|moves| + 2] == end[2] && all[0] == s;
      assert id in all[|both|].appended;
    } else if CanMakeEntry(s, id) {
      var way: seq<System>, moves: seq<Step> :|
        IsRun(Next, way, moves) && way[0] == s && id in way[|moves|].appended;
      StaysLost(way, moves, id);
    }
  }

  lemma {:induction false} StaysLost(states: seq<System>, steps: seq<Step>, id: EventId)
    requires IsRun(Next, states, steps) && Safe(states[0]) && id in states[0].lost
    ensures id !in states[|steps|].appended
  {
    for k := 0 to |steps|
      invariant Safe(states[k]) && id in states[k].lost
    {
      assert Next(states[k], steps[k], states[k + 1]);
      FrontierStep(states[k], steps[k], states[k + 1]);
      OnceStep(states[k], steps[k], states[k + 1]);
    }
    NotAppended(states[|steps|], id);
  }
}
