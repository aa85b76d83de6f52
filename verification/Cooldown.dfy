/** The invalidation cooldown: set-if-absent with a one-minute expiry, never deleted. */
module Cooldown {
  import opened Runs
  import opened TimedStore
  import opened Wrappers

  /** Clients touch the cooldown key only by set-if-absent for one minute. */
  ghost predicate Respects<T(!new)>(k: Key, c: Command<T>)
  {
    !c.Advance? && c.key == k ==> c.PutIfAbsent? && c.ttl == COOLDOWN
  }

  ghost predicate IsCooldownRun<T(!new)>(k: Key, states: seq<Store<T>>, steps: seq<Command<T>>)
  {
    IsRun(Next<T>, states, steps) && forall i :: 0 <= i < |steps| ==> Respects(k, steps[i])
  }

  /** Step `i` wins the cooldown and so starts a round of invalidations. */
  ghost predicate StartsRound<T(!new)>(k: Key, states: seq<Store<T>>, steps: seq<Command<T>>, i: nat)
    requires |states| == |steps| + 1
  {
    i < |steps| && steps[i].PutIfAbsent? && steps[i].key == k && !states[i].Live(k)
  }

  lemma {:induction false} RoundsApart<T(!new)>(k: Key, states: seq<Store<T>>, steps: seq<Command<T>>, i: nat, j: nat)
    requires IsCooldownRun(k, states, steps) && i < j
    requires StartsRound(k, states, steps, i) && StartsRound(k, states, steps, j)
    ensures states[i].now + 60 * SECOND <= states[j].now
  {
    var until := states[i].now + COOLDOWN;
    assert Respects(k, steps[i]) && Next(states[i], steps[i], states[i + 1]);
    for m := i + 1 to j
      invariant states[m].now < until ==>
                  k in states[m].entries && states[m].entries[k].expiry == Some(until)
    {
      assert Respects(k, steps[m]) && Next(states[m], steps[m], states[m + 1]);
    }
  }

  /** In a window of `width` at most width/60s + 1 rounds start. */
  lemma {:induction false} RoundsInWindow<T(!new)>(
      k: Key, states: seq<Store<T>>, steps: seq<Command<T>>, rounds: seq<nat>, from: nat, width: nat)
    requires IsCooldownRun(k, states, steps)
    requires forall m :: 0 <= m < |rounds| ==>
               StartsRound(k, states, steps, rounds[m]) && from <= states[rounds[m]].now <= from + width
    requires forall m, n :: 0 <= m < n < |rounds| ==> rounds[m] < rounds[n]
    ensures |rounds| <= width / (60 * SECOND) + 1
  {
    if |rounds| > 0 {
      for m := 0 to |rounds| - 1
        invariant states[rounds[m]].now >= from + m * COOLDOWN
      {
        RoundsApart(k, states, steps, rounds[m], rounds[m + 1]);
      }
      assert (|rounds| - 1) * COOLDOWN <= width;
    }
  }

  // ---------- when a skipped announcement is made up for ----------

  predicate Tries<T>(k: Key, c: Command<T>) { c.PutIfAbsent? && c.key == k }

  /** Nobody tries at `e` or later before step `j`: the entry of the cooldown stays. */
  lemma {:induction false} EntryStays<T(!new)>(
      k: Key, states: seq<Store<T>>, steps: seq<Command<T>>, i: nat, j: nat, e: nat)
    requires IsCooldownRun(k, states, steps) && i <= j < |states|
    requires k in states[i].entries && states[i].entries[k].expiry == Some(e)
    requires forall m :: i <= m < j && Tries(k, steps[m]) ==> states[m].now < e
    ensures k in states[j].entries && states[j].entries[k].expiry == Some(e) && states[i].now <= states[j].now
  {
    for m := i to j
      invariant k in states[m].entries && states[m].entries[k].expiry == Some(e) && states[i].now <= states[m].now
    {
      assert Respects(k, steps[m]) && Next(states[m], steps[m], states[m + 1]);
    }
  }

  lemma {:induction false} FirstTry<T(!new)>(
      k: Key, states: seq<Store<T>>, steps: seq<Command<T>>, i: nat, j: nat, e: nat) returns (m: nat)
    requires |states| == |steps| + 1 && i <= j < |steps| && Tries(k, steps[j]) && e <= states[j].now
    ensures i <= m <= j && Tries(k, steps[m]) && e <= states[m].now
    ensures forall x :: i <= x < m && Tries(k, steps[x]) ==> states[x].now < e
  {
    m := i;
    while !(Tries(k, steps[m]) && e <= states[m].now)
      invariant i <= m <= j
      invariant forall x :: i <= x < m && Tries(k, steps[x]) ==> states[x].now < e
      decreases j - m
    {
      m := m + 1;
    }
  }

  /** Step `i` lost the cooldown and skipped its round. A later round starts if and only if
      somebody tries again at or after the expiry: without another update, nothing
      announces the skipped one. */
  lemma {:induction false} SkippedIsAnnouncedIff<T(!new)>(
      k: Key, states: seq<Store<T>>, steps: seq<Command<T>>, i: nat, e: nat)
    requires IsCooldownRun(k, states, steps) && i < |steps| && Tries(k, steps[i])
    requires states[i].Live(k) && states[i].entries[k].expiry == Some(e)
    ensures (exists j: nat :: i < j && StartsRound(k, states, steps, j))
       <==> (exists j: nat :: i < j < |steps| && Tries(k, steps[j]) && e <= states[j].now)
  {
    if j: nat :| i < j && StartsRound(k, states, steps, j) {
      if forall m :: i <= m <= j && Tries(k, steps[m]) ==> states[m].now < e {
        EntryStays(k, states, steps, i, j, e);
        assert false;
      }
    }
    if j: nat :| i < j < |steps| && Tries(k, steps[j]) && e <= states[j].now {
      var m := FirstTry(k, states, steps, i, j, e);
      EntryStays(k, states, steps, i, m, e);
      assert i < m && StartsRound(k, states, steps, m);
    }
  }
}
