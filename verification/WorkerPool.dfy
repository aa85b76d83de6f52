/** The background worker pool: a queue of 1000 tasks that drops when full, `size`
    workers, and a shutdown that drains it. */
module WorkerPool {
  import opened Runs
  import opened Wrappers

  /** Tasks are numbered in the order they are submitted. */
  type Task = nat
  type Worker = nat

  const CAPACITY: nat := 1000

  /** `accepted`, `started`, `finished` and `dropped` list tasks in the order these things
      happened to them. */
  datatype Pool = Pool(
    size: nat, queue: seq<Task>, closing: bool, running: map<Worker, Task>,
    next: nat, accepted: seq<Task>, started: seq<Task>, finished: seq<Task>, dropped: seq<Task>)

  datatype Step = Submit | Take(w: Worker) | Finish(w: Worker) | Close

  predicate Idle(p: Pool, w: Worker) { w < p.size && w !in p.running }

  predicate CanWork(p: Pool, w: Worker) { w in p.running || (Idle(p, w) && p.queue != []) }

  ghost predicate Next(p: Pool, l: Step, p': Pool)
  {
    match l
    case Submit =>
      p' == if p.closing || |p.queue| >= CAPACITY then p.(next := p.next + 1, dropped := p.dropped + [p.next])
            else p.(next := p.next + 1, queue := p.queue + [p.next], accepted := p.accepted + [p.next])
    case Take(w) =>
      && Idle(p, w) && p.queue != []
      && p' == p.(queue := p.queue[1..], running := p.running[w := p.queue[0]], started := p.started + [p.queue[0]])
    case Finish(w) =>
      && w in p.running
      && p' == p.(running := p.running - {w}, finished := p.finished + [p.running[w]])
    case Close => !p.closing && p' == p.(closing := true)
  }

  ghost predicate Start(p: Pool)
  {
    p.queue == [] && !p.closing && p.running == map[] && p.next == 0
    && p.accepted == [] && p.started == [] && p.finished == [] && p.dropped == []
  }

  // ---------- conservation ----------

  predicate Increasing(tasks: seq<Task>) { forall i, j :: 0 <= i < j < |tasks| ==> tasks[i] < tasks[j] }

  ghost predicate IsRunning(p: Pool, t: Task) { exists w :: w in p.running && p.running[w] == t }

  /** Accepted tasks start in the order they were accepted, the rest of them waits. */
  ghost predicate Ordered(p: Pool)
  {
    && |p.queue| <= CAPACITY
    && p.accepted == p.started + p.queue && Increasing(p.accepted)
    && (forall t: Task :: t in p.accepted || t in p.dropped <==> t < p.next)
    && (forall t :: t in p.accepted ==> t !in p.dropped)
  }

  /** Started tasks are running in one worker or finished, once. */
  ghost predicate Tracked(p: Pool)
  {
    && (forall w :: w in p.running ==> w < p.size && p.running[w] in p.started && p.running[w] !in p.finished)
    && (forall v, w :: v in p.running && w in p.running && p.running[v] == p.running[w] ==> v == w)
    && (forall t :: t in p.started <==> t in p.finished || IsRunning(p, t))
    && (forall i, j :: 0 <= i < j < |p.finished| ==> p.finished[i] != p.finished[j])
  }

  ghost predicate Inv(p: Pool) { Ordered(p) && Tracked(p) }

  lemma {:induction false} OrderedStep(p: Pool, l: Step, p': Pool)
    requires Inv(p) && Next(p, l, p')
    ensures Ordered(p')
  {
    if l.Take? {
      assert p.started + p.queue == (p.started + [p.queue[0]]) + p.queue[1..];
    } else if l.Submit? {
      forall t: Task ensures t in p'.accepted || t in p'.dropped <==> t < p'.next {
        assert t in p.accepted || t in p.dropped <==> t < p.next;
      }
      assert p.accepted + [p.next] == p.started + (p.queue + [p.next]);
      assert forall i :: 0 <= i < |p.accepted| ==> p.accepted[i] in p.accepted;
    }
  }

  lemma {:induction false} TrackedStep(p: Pool, l: Step, p': Pool)
    requires Inv(p) && Next(p, l, p')
    ensures Tracked(p')
  {
    match l
    case Take(w) => TakeIsNew(p, w, p');
    case Finish(w) => FinishMovesOne(p, w, p');
    case Submit => assert forall t :: IsRunning(p', t) <==> IsRunning(p, t);
    case Close => assert forall t :: IsRunning(p', t) <==> IsRunning(p, t);
  }

  lemma {:induction false} TakeIsNew(p: Pool, w: Worker, p': Pool)
    requires Inv(p) && Next(p, Take(w), p')
    ensures Tracked(p')
  {
    var head := p.queue[0];
    StartedBeforeQueued(p);
    assert head !in p.finished;
    forall t ensures IsRunning(p', t) <==> IsRunning(p, t) || t == head {
      if IsRunning(p, t) {
        var v :| v in p.running && p.running[v] == t;
        assert v in p'.running && p'.running[v] == t;
      }
      assert w in p'.running && p'.running[w] == head;
    }
  }

  lemma {:induction false} FinishMovesOne(p: Pool, w: Worker, p': Pool)
    requires Inv(p) && Next(p, Finish(w), p')
    ensures Tracked(p')
  {
    forall t ensures IsRunning(p', t) <==> IsRunning(p, t) && t != p.running[w] {
      if IsRunning(p, t) && t != p.running[w] {
        var v :| v in p.running && p.running[v] == t;
        assert v in p'.running && p'.running[v] == t;
      }
    }
    assert IsRunning(p, p.running[w]);
  }

  lemma StartIsValid(p: Pool)
    requires Start(p)
    ensures Inv(p)
  {
    assert p.accepted == p.started + p.queue;
    assert forall t :: !IsRunning(p, t);
  }

  lemma {:induction false} InvAlways(states: seq<Pool>, steps: seq<Step>)
    requires IsRun(Next, states, steps) && Start(states[0])
    ensures forall i :: 0 <= i < |states| ==> Inv(states[i])
  {
    forall p, l, p' | Inv(p) && Next(p, l, p') ensures Inv(p') {
      OrderedStep(p, l, p');
      TrackedStep(p, l, p');
    }
    StartIsValid(states[0]);
    InvariantHolds(Next, Inv, states, steps);
  }

  /** Every submitted task is in exactly one place, tasks start in submission order and
      never twice, and at most 1000 wait. */
  lemma {:induction false} Conservation(states: seq<Pool>, steps: seq<Step>, i: nat, t: Task)
    requires IsRun(Next, states, steps) && Start(states[0]) && i < |states| && t < states[i].next
    ensures var p := states[i];
            && One(t in p.dropped) + One(t in p.queue) + One(IsRunning(p, t)) + One(t in p.finished) == 1
            && p.started <= p.accepted && Increasing(p.started) && |p.queue| <= 1000
  {
    InvAlways(states, steps);
    var p := states[i];
    assert t in p.accepted <==> t in p.started || t in p.queue;
    StartedBeforeQueued(p);
  }

  lemma {:induction false} StartedBeforeQueued(p: Pool)
    requires Ordered(p)
    ensures Increasing(p.started)
    ensures forall i, j :: 0 <= i < |p.started| && 0 <= j < |p.queue| ==> p.started[i] < p.queue[j]
  {
    forall i, j | 0 <= i < |p.started| && 0 <= j < |p.queue| ensures p.started[i] < p.queue[j] {
      assert p.accepted[i] < p.accepted[|p.started| + j];
    }
    assert forall i :: 0 <= i < |p.started| ==> p.started[i] == p.accepted[i];
  }

  /** From the moment it begins to close, a pool accepts nothing: what is submitted from
      then on is dropped. */
  lemma {:induction false} ClosedAcceptsNothing(states: seq<Pool>, steps: seq<Step>, i: nat, j: nat, t: Task)
    requires IsRun(Next, states, steps) && Start(states[0]) && i <= j < |states| && states[i].closing
    ensures states[j].closing && states[j].accepted == states[i].accepted
    ensures states[i].next <= t < states[j].next ==> t in states[j].dropped
  {
    InvAlways(states, steps);
    for k := i to j
      invariant states[k].closing && states[k].accepted == states[i].accepted && states[i].next <= states[k].next
    {
      assert Next(states[k], steps[k], states[k + 1]);
    }
    assert t < states[j].next ==> t in states[j].accepted || t in states[j].dropped;
    assert t in states[i].accepted ==> t < states[i].next;
  }

  // ---------- drain ----------

  function Work(p: Pool): nat { 2 * |p.queue| + |p.running| }

  ghost predicate WorkerNext(p: Pool, l: Step, p': Pool) { Next(p, l, p') && (l.Take? || l.Finish?) }

  /** However the workers are scheduled, a closed pool comes to rest. */
  lemma {:induction false} DrainTerminates(states: seq<Pool>, steps: seq<Step>)
    requires IsRun(WorkerNext, states, steps)
    ensures |steps| <= Work(states[0])
  {
    for k := 0 to |steps|
      invariant k + Work(states[k]) == Work(states[0])
    {
      assert WorkerNext(states[k], steps[k], states[k + 1]);
      WorkShrinks(states[k], steps[k], states[k + 1]);
    }
  }

  lemma WorkShrinks(p: Pool, l: Step, p': Pool)
    requires WorkerNext(p, l, p')
    ensures Work(p') + 1 == Work(p)
  {
    match l
    case Take(w) => assert p'.running.Keys == p.running.Keys + {w};
    case Finish(w) => assert p.running.Keys == p'.running.Keys + {w};
  }

  /** At rest every accepted task has finished, unless the pool was built without workers
      and still holds tasks. */
  lemma {:induction false} DrainedIff(states: seq<Pool>, steps: seq<Step>, i: nat)
    requires IsRun(Next, states, steps) && Start(states[0]) && i < |states|
    requires forall w :: !CanWork(states[i], w)
    ensures (forall t :: t in states[i].accepted ==> t in states[i].finished)
       <==> states[i].size > 0 || states[i].queue == []
  {
    InvAlways(states, steps);
    var p := states[i];
    assert p.running == map[] by {
      forall w ensures w !in p.running {
        assert !CanWork(p, w);
      }
    }
    assert !CanWork(p, 0);
    if p.queue != [] {
      assert p.queue[0] in p.accepted;
      StartedBeforeQueued(p);
    }
  }

  // ---------- the pool itself ----------

  class TaskPool {
    const size: nat
    var taskQueue: seq<Task>
    var isClosing: bool
    var running: map<Worker, Task>
    var next: nat
    ghost var accepted: seq<Task>
    ghost var started: seq<Task>
    ghost var finished: seq<Task>
    ghost var dropped: seq<Task>

    ghost function View(): Pool
      reads this
    {
      Pool(size, taskQueue, isClosing, running, next, accepted, started, finished, dropped)
    }

    ghost predicate Valid()
      reads this
    {
      Inv(View())
    }

    constructor (size: nat)
      ensures Valid() && Start(View()) && this.size == size
    {
      this.size := size;
      taskQueue, isClosing, running, next := [], false, map[], 0;
      accepted, started, finished, dropped := [], [], [], [];
      new;
      StartIsValid(View());
    }

    /** Enqueues the task unless the pool is closing or the queue is full. */
    method Submit()
      requires Valid()
      modifies this
      ensures Valid() && Next(old(View()), Step.Submit, View())
      ensures next == old(next) + 1
      ensures taskQueue == old(taskQueue) + if !old(isClosing) && |old(taskQueue)| < 1000 then [old(next)] else []
    {
      if isClosing {
        dropped := dropped + [next];
      } else if |taskQueue| < CAPACITY {
        taskQueue := taskQueue + [next];
        accepted := accepted + [next];
      } else {
        dropped := dropped + [next];
      }
      next := next + 1;
      OrderedStep(old(View()), Step.Submit, View());
      TrackedStep(old(View()), Step.Submit, View());
    }

    /** One action of worker `w`: finish its task, or take the next. */
    method WorkerStep(w: Worker)
      requires Valid() && CanWork(View(), w)
      modifies this
      ensures Valid()
      ensures WorkerNext(old(View()), if w in old(running) then Finish(w) else Take(w), View())
    {
      ghost var l := if w in running then Finish(w) else Take(w);
      if w in running {
        finished := finished + [running[w]];
        running := running - {w};
      } else {
        started := started + [taskQueue[0]];
        running := running[w := taskQueue[0]];
        taskQueue := taskQueue[1..];
      }
      OrderedStep(old(View()), l, View());
      TrackedStep(old(View()), l, View());
    }

    /** Stops accepting tasks and waits for the workers, scheduled in any way, to drain
        the queue. Returns at once when there are none. */
    method Shutdown()
      requires Valid() && !isClosing
      modifies this
      ensures Valid() && isClosing && accepted == old(accepted) && dropped == old(dropped)
      ensures forall w :: !CanWork(View(), w)
      ensures size > 0 || old(taskQueue) == [] ==> forall t :: t in accepted ==> t in finished
      ensures old(finished) <= finished
    {
      isClosing := true;
      OrderedStep(old(View()), Close, View());
      TrackedStep(old(View()), Close, View());
      while running != map[] || (taskQueue != [] && size > 0)
        invariant Valid() && isClosing && accepted == old(accepted) && dropped == old(dropped)
        invariant size == 0 ==> taskQueue == old(taskQueue)
        invariant old(finished) <= finished
        decreases Work(View())
      {
        label before:
        var w: Worker := 0;
        if running != map[] {
          w :| w in running;
        }
        if * {
          var idle: Worker := 0;
          while idle < size && idle in running
          {
            idle := idle + 1;
          }
          if idle < size && taskQueue != [] {
            w := idle;
          }
        }
        ghost var l := if w in running then Finish(w) else Take(w);
        WorkerStep(w);
        WorkShrinks(old@before(View()), l, View());
      }
      AtRest(View());
    }
  }

  lemma AtRest(p: Pool)
    requires Inv(p) && p.running == map[] && (p.queue == [] || p.size == 0)
    ensures p.size > 0 || p.queue == [] ==> forall t :: t in p.accepted ==> t in p.finished
  {
    if p.queue == [] {
      forall t | t in p.accepted ensures t in p.finished {
        assert t in p.started;
        assert !IsRunning(p, t);
      }
    }
  }
}
