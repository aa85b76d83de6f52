/** From delivery to the history: when a delivered event makes its entry. */
module EventDelivery {
  import opened Runs
  import opened Wrappers
  import opened EventPipeline

  // ---------- every message passed over is settled ----------

  /** The readable and new event that step `l` turns away because its insert failed. */
  function RefusedBy(s: System, l: Step): set<(Partition, nat)>
  {
    if l.Reject? && Busy(s, l.a) && Current(s, l.a).Event? && Current(s, l.a).id !in s.processed
    then {(s.assignments[l.a].partition, s.assignments[l.a].stage.offset)} else {}
  }

  ghost function Refused(states: seq<System>, steps: seq<Step>, i: nat): set<(Partition, nat)>
    requires i <= |steps| < |states|
  {
    if i == 0 then {} else Refused(states, steps, i - 1) + RefusedBy(states[i - 1], steps[i - 1])
  }

  /** Behind the last message the worker is done with. */
  function HandledTo(x: Assignment): int { x.start + |x.attempted| - One(x.stage.Received?) }

  ghost predicate Settled(s: System, refused: set<(Partition, nat)>, p: Partition, o: nat)
  {
    && o < |LogOf(s, p)|
    && (LogOf(s, p)[o].Malformed? || LogOf(s, p)[o].id in s.processed || (p, o) in refused)
  }

  ghost predicate SettledBelow(s: System, refused: set<(Partition, nat)>, p: Partition, end: int)
  {
    forall o: nat :: o < end ==> Settled(s, refused, p, o)
  }

  ghost predicate AllSettled(s: System, refused: set<(Partition, nat)>)
  {
    && (forall p :: p in s.committed ==> SettledBelow(s, refused, p, s.committed[p]))
    && (forall a :: a in s.assignments ==>
          SettledBelow(s, refused, s.assignments[a].partition, HandledTo(s.assignments[a])))
  }

  lemma {:induction false} StaysSettled(
      s: System, l: Step, s': System, refused: set<(Partition, nat)>, p: Partition, end: int)
    requires Next(s, l, s') && SettledBelow(s, refused, p, end)
    ensures SettledBelow(s', refused + RefusedBy(s, l), p, end)
  {
    forall o: nat | o < end ensures Settled(s', refused + RefusedBy(s, l), p, o) {
      assert Settled(s, refused, p, o);
      assert LogOf(s', p)[o] == LogOf(s, p)[o];
    }
  }

  /** The worker leaves message `HandledTo` behind: refused, unreadable or recorded. */
  lemma {:induction false} HandlesOne(s: System, l: Step, s': System, refused: set<(Partition, nat)>, a: Id)
    requires Frontier(s) && Next(s, l, s') && (l == Reject(a) || l == Record(a))
    ensures var x := s.assignments[a];
            HandledTo(x) >= 0 && Settled(s', refused + RefusedBy(s, l), x.partition, HandledTo(x))
    ensures HandledTo(s'.assignments[a]) == HandledTo(s.assignments[a]) + 1
  {
    assert OnTrack(s, s.assignments[a]);
    assert s.assignments[a].stage.offset == HandledTo(s.assignments[a]);
  }

  lemma {:induction false} AssignmentSettled(s: System, l: Step, s': System, refused: set<(Partition, nat)>, a: Id)
    requires Frontier(s) && AllSettled(s, refused) && Next(s, l, s') && a in s'.assignments
    ensures SettledBelow(s', refused + RefusedBy(s, l), s'.assignments[a].partition, HandledTo(s'.assignments[a]))
  {
    var p := s'.assignments[a].partition;
    if a !in s.assignments {
      assert l == Assign(a, p);
      StaysSettled(s, l, s', refused, p, CommittedOf(s, p));
    } else {
      StaysSettled(s, l, s', refused, p, HandledTo(s.assignments[a]));
      if l == Reject(a) || l == Record(a) {
        HandlesOne(s, l, s', refused, a);
      } else {
        SameHandled(s, l, s', a);
      }
    }
  }

  lemma {:induction false} SameHandled(s: System, l: Step, s': System, a: Id)
    requires Next(s, l, s') && l != Reject(a) && l != Record(a) && a in s.assignments && a in s'.assignments
    ensures HandledTo(s'.assignments[a]) == HandledTo(s.assignments[a])
    ensures s'.assignments[a].partition == s.assignments[a].partition
  {
  }

  lemma {:induction false} CommittedSettled(
      s: System, l: Step, s': System, refused: set<(Partition, nat)>, p: Partition)
    requires Frontier(s) && AllSettled(s, refused) && Next(s, l, s') && p in s'.committed
    ensures SettledBelow(s', refused + RefusedBy(s, l), p, s'.committed[p])
  {
    if p in s.committed && s'.committed[p] == s.committed[p] {
      StaysSettled(s, l, s', refused, p, s.committed[p]);
    } else {
      var x := s.assignments[l.a];
      assert OnTrack(s, x);
      assert s'.committed[p] == HandledTo(x);
      StaysSettled(s, l, s', refused, p, HandledTo(x));
    }
  }

  lemma {:induction false} AllSettledStep(s: System, l: Step, s': System, refused: set<(Partition, nat)>)
    requires Frontier(s) && AllSettled(s, refused) && Next(s, l, s')
    ensures AllSettled(s', refused + RefusedBy(s, l))
  {
    forall p | p in s'.committed ensures SettledBelow(s', refused + RefusedBy(s, l), p, s'.committed[p]) {
      CommittedSettled(s, l, s', refused, p);
    }
    forall a | a in s'.assignments
      ensures SettledBelow(s', refused + RefusedBy(s, l), s'.assignments[a].partition, HandledTo(s'.assignments[a])) {
      AssignmentSettled(s, l, s', refused, a);
    }
  }

  /** In every run the committed offset, of whichever assignment, passes a message only if
      it was unreadable, its id is recorded, or its insert failed for another reason;
      so does every worker. */
  lemma {:induction false} PassedIsSettled(states: seq<System>, steps: seq<Step>, i: nat)
    requires IsRun(Next, states, steps) && Start(states[0]) && i < |states|
    ensures AllSettled(states[i], Refused(states, steps, i))
  {
    SafeAlways(states, steps);
    for k := 0 to i
      invariant AllSettled(states[k], Refused(states, steps, k))
    {
      assert Safe(states[k]) && Next(states[k], steps[k], states[k + 1]);
      AllSettledStep(states[k], steps[k], states[k + 1], Refused(states, steps, k));
    }
  }

  // ---------- a finished update is an entry ----------

  ghost predicate OnlyUpdates(s: System, id: EventId)
  {
    forall p, o: nat :: o < |LogOf(s, p)| && LogOf(s, p)[o].Event? && LogOf(s, p)[o].id == id ==>
                          LogOf(s, p)[o].kind.Updated?
  }

  function Entries(s: System, id: EventId): nat { multiset(s.appended)[id] }

  ghost predicate EntriesMatch(s: System, id: EventId) { OnlyUpdates(s, id) ==> Entries(s, id) == s.finished[id] }

  lemma {:induction false} EntriesMatchStep(s: System, l: Step, s': System, id: EventId)
    requires EntriesMatch(s, id) && Next(s, l, s')
    ensures EntriesMatch(s', id)
  {
    if OnlyUpdates(s', id) {
      forall p, o: nat | o < |LogOf(s, p)| && LogOf(s, p)[o].Event? && LogOf(s, p)[o].id == id
        ensures LogOf(s, p)[o].kind.Updated? {
        assert LogOf(s', p)[o] == LogOf(s, p)[o];
      }
      if l.Effect? && Current(s, l.a).id == id {
        var x := s.assignments[l.a];
        assert LogOf(s', x.partition)[x.stage.offset].kind.Updated?;
      }
    }
  }

  lemma {:induction false} EntriesMatchAlways(states: seq<System>, steps: seq<Step>, i: nat, id: EventId)
    requires IsRun(Next, states, steps) && Start(states[0]) && i < |states|
    ensures EntriesMatch(states[i], id)
  {
    for k := 0 to i
      invariant EntriesMatch(states[k], id)
    {
      assert Next(states[k], steps[k], states[k + 1]);
      EntriesMatchStep(states[k], steps[k], states[k + 1], id);
    }
  }

  // ---------- exactly once ----------

  /** Message `o` of `p` is behind the committed offset, or a worker is done with it. */
  ghost predicate Passed(s: System, p: Partition, o: nat)
  {
    || o < CommittedOf(s, p)
    || exists a :: a in s.assignments && s.assignments[a].partition == p && o < HandledTo(s.assignments[a])
  }

  ghost predicate IsEvent(s: System, p: Partition, o: nat, id: EventId)
  {
    o < |LogOf(s, p)| && LogOf(s, p)[o].Event? && LogOf(s, p)[o].id == id
  }

  /** An update event that was delivered and not refused for another reason has its id
      recorded, and then has exactly one entry if and only if no error or crash fell
      between recording and effect and no worker is between the two right now. */
  lemma {:induction false} DeliveredOnceIff(
      states: seq<System>, steps: seq<Step>, i: nat, p: Partition, o: nat, id: EventId)
    requires IsRun(Next, states, steps) && Start(states[0]) && i < |states|
    requires Passed(states[i], p, o) && IsEvent(states[i], p, o, id) && OnlyUpdates(states[i], id)
    requires (p, o) !in Refused(states, steps, i)
    ensures id in states[i].processed
    ensures Entries(states[i], id) == 1 <==> id !in states[i].lost && !Held(states[i], id)
  {
    PassedIsSettled(states, steps, i);
    EntriesMatchAlways(states, steps, i, id);
    AtMostOnceEffect(states, steps, i, id);
    assert Settled(states[i], Refused(states, steps, i), p, o);
  }

  /** No effect fails, no insert fails but as a duplicate, no worker stops between
      recording and effect. */
  ghost predicate CleanNext(s: System, l: Step, s': System)
  {
    && Next(s, l, s') && !l.Fail? && RefusedBy(s, l) == {}
    && (l.Stop? ==> !s.assignments[l.a].stage.Recorded?)
  }

  lemma {:induction false} CleanLosesNothing(states: seq<System>, steps: seq<Step>, i: nat)
    requires IsRun(CleanNext, states, steps) && Start(states[0]) && i < |states|
    ensures IsRun(Next, states, steps) && Refused(states, steps, i) == {} && states[i].lost == {}
  {
    forall k | 0 <= k < |steps| ensures Next(states[k], steps[k], states[k + 1]) {
      assert CleanNext(states[k], steps[k], states[k + 1]);
    }
    for k := 0 to i
      invariant Refused(states, steps, k) == {} && states[k].lost == {}
    {
      assert CleanNext(states[k], steps[k], states[k + 1]);
    }
  }

  /** In every such run, with any redeliveries, overlaps and stops elsewhere, a delivered
      update event has exactly one entry once no worker holds it. */
  lemma {:induction false} CleanDeliveryIsExactlyOnce(
      states: seq<System>, steps: seq<Step>, i: nat, p: Partition, o: nat, id: EventId)
    requires IsRun(CleanNext, states, steps) && Start(states[0]) && i < |states|
    requires Passed(states[i], p, o) && IsEvent(states[i], p, o, id) && OnlyUpdates(states[i], id)
    ensures Entries(states[i], id) == One(!Held(states[i], id))
  {
    CleanLosesNothing(states, steps, i);
    DeliveredOnceIff(states, steps, i, p, o, id);
    AtMostOnceEffect(states, steps, i, id);
  }
}
