/** Rebuilding a document: two separate reads with other sessions in between, the
    500-row limit, the snapshot trigger's subtraction and the backlog it bounds. */
module Hydration {
  import opened Runs
  import opened Yjs
  import opened DocumentLog
  import opened Compaction

  const LIMIT: nat := 500
  const TWO_TO_64: nat := 0x1_0000_0000_0000_0000

  datatype Row = Row(number: nat, content: Ops)

  datatype State = State(snapshot: Ops, snapshotSeq: nat, updates: seq<Row>)

  // ---------- WHERE seq > after ORDER BY seq ASC LIMIT limit ----------

  lemma {:induction false} LeastExists(candidates: set<nat>)
    requires candidates != {}
    ensures exists m :: IsLeast(candidates, m)
  {
    var m :| m in candidates;
    var others := candidates - {m};
    if others == {} {
      assert candidates == {m};
      assert IsLeast(candidates, m);
    } else {
      LeastExists(others);
      var least :| IsLeast(others, least);
      assert forall n :: n in candidates ==> n == m || n in others;
      assert IsLeast(candidates, if m < least then m else least);
    }
  }

  predicate IsLeast(candidates: set<nat>, m: nat)
  {
    m in candidates && forall n :: n in candidates ==> m <= n
  }

  function Least(candidates: set<nat>): (m: nat)
    requires candidates != {}
    ensures IsLeast(candidates, m)
  {
    LeastExists(candidates);
    var m :| m in candidates && IsLeast(candidates, m);
    m
  }

  function Above(rows: map<nat, Ops>, after: nat): (numbers: set<nat>)
    ensures forall n :: n in numbers <==> n in rows && after < n
  {
    set n | n in rows && after < n
  }

  /** Row `n` is in the answer, or the answer is full of rows before it. */
  ghost predicate Accounted(r: seq<Row>, limit: nat, n: nat)
  {
    || (exists i :: 0 <= i < |r| && r[i].number == n)
    || (|r| == limit && forall i :: 0 <= i < |r| ==> r[i].number < n)
  }

  function FirstRows(rows: map<nat, Ops>, after: nat, limit: nat): seq<Row>
    decreases Above(rows, after)
  {
    var above := Above(rows, after);
    if limit == 0 || above == {} then []
    else
      assert Least(above) in above && Least(above) !in Above(rows, Least(above));
      [Row(Least(above), rows[Least(above)])] + FirstRows(rows, Least(above), limit - 1)
  }

  ghost predicate IsAnswer(r: seq<Row>, rows: map<nat, Ops>, after: nat, limit: nat)
  {
    && |r| <= limit
    && (forall i :: 0 <= i < |r| ==> after < r[i].number && r[i].number in rows && rows[r[i].number] == r[i].content)
    && (forall i, j :: 0 <= i < j < |r| ==> r[i].number < r[j].number)
    && (forall n :: n in rows && after < n ==> Accounted(r, limit, n))
  }

  /** The answer is ascending, of at most `limit` rows above `after`, and skips none. */
  lemma {:induction false} FirstRowsAnswer(rows: map<nat, Ops>, after: nat, limit: nat)
    ensures IsAnswer(FirstRows(rows, after, limit), rows, after, limit)
    decreases limit
  {
    var above := Above(rows, after);
    if limit == 0 || above == {} {
      assert forall n :: n in rows && after < n ==> n in above;
    } else {
      var m := Least(above);
      FirstRowsAnswer(rows, m, limit - 1);
      PrependLeast(rows, after, m, FirstRows(rows, m, limit - 1), limit);
    }
  }

  lemma {:induction false} PrependLeast(rows: map<nat, Ops>, after: nat, m: nat, rest: seq<Row>, limit: nat)
    requires limit > 0 && m in rows && after < m && forall n :: n in rows && after < n ==> m <= n
    requires IsAnswer(rest, rows, m, limit - 1)
    ensures IsAnswer([Row(m, rows[m])] + rest, rows, after, limit)
  {
    var r := [Row(m, rows[m])] + rest;
    forall n | n in rows && after < n ensures Accounted(r, limit, n) {
      if n == m {
        assert r[0].number == n;
      } else {
        assert Accounted(rest, limit - 1, n);
        if i :| 0 <= i < |rest| && rest[i].number == n {
          assert r[i + 1].number == n;
        }
      }
    }
  }

  function Min(a: nat, b: nat): nat { if a < b then a else b }

  /** An ascending list that misses nothing below its last element has no gap. */
  lemma {:induction false} PrefixOfRange(r: seq<Row>, lo: nat, hi: nat, limit: nat)
    requires lo <= hi && |r| <= limit
    requires forall i :: 0 <= i < |r| ==> lo < r[i].number <= hi
    requires forall i, j :: 0 <= i < j < |r| ==> r[i].number < r[j].number
    requires forall n :: lo < n <= hi ==> Accounted(r, limit, n)
    ensures |r| == Min(limit, hi - lo)
    ensures forall i :: 0 <= i < |r| ==> r[i].number == lo + 1 + i
  {
    for k := 0 to |r|
      invariant forall i :: 0 <= i < k ==> r[i].number == lo + 1 + i
    {
      if k > 0 { assert r[k - 1].number < r[k].number; }
      var n := lo + 1 + k;
      assert n <= r[k].number <= hi;
      assert Accounted(r, limit, n);
      if n < r[k].number {
        assert false;
      }
    }
    if |r| < limit && lo + |r| < hi {
      NoRowLeft(r, lo, hi, limit);
    }
  }

  lemma {:induction false} NoRowLeft(r: seq<Row>, lo: nat, hi: nat, limit: nat)
    requires forall i :: 0 <= i < |r| ==> r[i].number == lo + 1 + i
    requires |r| < limit && lo + |r| < hi
    ensures !Accounted(r, limit, lo + |r| + 1)
  {
  }

  /** From rows lo+1 .. hi the query returns the first ones, without a gap. */
  lemma {:induction false} FirstRowsOfRange(rows: map<nat, Ops>, lo: nat, hi: nat, after: nat, limit: nat)
    requires forall n :: n in rows <==> lo < n <= hi
    requires after <= lo <= hi
    ensures var r := FirstRows(rows, after, limit);
            && |r| == Min(limit, hi - lo)
            && forall i :: 0 <= i < |r| ==>
                 r[i].number == lo + 1 + i && lo + 1 + i in rows && r[i].content == rows[lo + 1 + i]
  {
    FirstRowsAnswer(rows, after, limit);
    AnswerOfRange(FirstRows(rows, after, limit), rows, lo, hi, after, limit);
  }

  lemma {:induction false} AnswerOfRange(r: seq<Row>, rows: map<nat, Ops>, lo: nat, hi: nat, after: nat, limit: nat)
    requires IsAnswer(r, rows, after, limit)
    requires forall n :: n in rows <==> lo < n <= hi
    requires after <= lo <= hi
    ensures |r| == Min(limit, hi - lo)
    ensures forall i :: 0 <= i < |r| ==>
              r[i].number == lo + 1 + i && lo + 1 + i in rows && r[i].content == rows[lo + 1 + i]
  {
    forall i | 0 <= i < |r| ensures lo < r[i].number <= hi && r[i].content == rows[r[i].number] {
      assert r[i].number in rows;
    }
    forall n | lo < n <= hi ensures Accounted(r, limit, n) {
      assert n in rows;
    }
    PrefixOfRange(r, lo, hi, limit);
  }

  // ---------- GetDocumentState: two reads, anything in between ----------

  function Response(first: Log, second: Log): State
  {
    var last := LastSnapshotSeq(first);
    State(NewestSnapshot(first), last, FirstRows(second.updates, last, LIMIT))
  }

  function Contents(rows: seq<Row>): (payloads: seq<Ops>)
    ensures |payloads| == |rows| && forall i :: 0 <= i < |rows| ==> payloads[i] == rows[i].content
  {
    seq(|rows|, i requires 0 <= i < |rows| => rows[i].content)
  }

  /** The document a client builds from the answer. */
  function Rebuilt(state: State): Ops { Replay(state.snapshot, Contents(state.updates)) }

  /** Where the answer's last update stands in the history. */
  ghost function EndOf(s: Log): int { LastSnapshotSeq(s) + if Backlog(s) < LIMIT then Backlog(s) else LIMIT }

  ghost predicate ResponseShape(state: State, t: Log)
  {
    var last := LastSnapshotSeq(t);
    && (!t.life.Live? ==> state.updates == [])
    && (t.life.Live? ==>
          && state.snapshotSeq <= last <= EndOf(t) <= |t.history|
          && |state.updates| == EndOf(t) - last
          && forall m :: 0 <= m < |state.updates| ==> state.updates[m] == Row(last + 1 + m, t.history[last + m]))
  }

  /** Rows last+1 .. |history| as the log stores them, read from an older position. */
  lemma {:induction false} RowsOfHistory(rows: map<nat, Ops>, history: seq<Ops>, last: nat, after: nat, limit: nat)
    requires after <= last <= |history|
    requires forall n :: n in rows <==> last < n <= |history|
    requires forall n :: n in rows ==> rows[n] == history[n - 1]
    ensures var r := FirstRows(rows, after, limit);
            && |r| == Min(limit, |history| - last)
            && forall m :: 0 <= m < |r| ==> r[m] == Row(last + 1 + m, history[last + m])
  {
    FirstRowsOfRange(rows, last, |history|, after, limit);
  }

  lemma {:induction false} ShapeOfResponse(s: Log, t: Log)
    requires LogShape(s) && LogShape(t) && Later(s, t)
    ensures ResponseShape(Response(s, t), t)
  {
    if t.life.Live? {
      RowsOfHistory(t.updates, t.history, LastSnapshotSeq(t), LastSnapshotSeq(s), LIMIT);
    } else {
      assert Above(t.updates, LastSnapshotSeq(s)) == {};
    }
  }

  /** Whatever commits between the reads, the answer's updates are an ascending run
      without gaps of at most 500, taken in order from the history and starting right
      after the newest snapshot of the second read, which is never older than the first's. */
  lemma {:induction false} ResponseShapeAlways(states: seq<Log>, steps: seq<Step>, i: nat, j: nat)
    requires IsRun(Next, states, steps) && states[0] == NEW && i <= j < |states|
    ensures ResponseShape(Response(states[i], states[j]), states[j])
    ensures var response, rows := Response(states[i], states[j]), states[i].snapshots;
            if rows == map[] then response.snapshot == {} && response.snapshotSeq == 0
            else && IsGreatest(rows.Keys, response.snapshotSeq)
                 && response.snapshot == rows[response.snapshotSeq]
  {
    LogShapeAlways(states, steps);
    LaterAlways(states, steps, i, j);
    ShapeOfResponse(states[i], states[j]);
  }

  lemma {:induction false} RebuiltFrom(state: State, t: Log)
    requires t.life.Live? && ResponseShape(state, t)
    ensures LastSnapshotSeq(t) <= EndOf(t) <= |t.history|
    ensures Rebuilt(state) == state.snapshot + Merge(t.history[LastSnapshotSeq(t)..EndOf(t)])
  {
    ReplayIsMerge(state.snapshot, Contents(state.updates));
    assert Contents(state.updates) == t.history[LastSnapshotSeq(t)..EndOf(t)];
  }

  lemma {:induction false} CoveringIsNext(states: seq<Log>, steps: seq<Step>)
    requires IsRun(CoveringNext, states, steps) || IsRun(ExactNext, states, steps)
    ensures IsRun(Next, states, steps)
  {
    forall i | 0 <= i < |steps| ensures Next(states[i], steps[i], states[i + 1]) {
      assert CoveringNext(states[i], steps[i], states[i + 1]) || ExactNext(states[i], steps[i], states[i + 1]);
    }
  }

  /** With the same last seq, a newer newest snapshot can only have appeared at seq 0. */
  lemma {:induction false} SameNewest(s: Log, t: Log)
    requires Covered(t) && t.life.Live? && Later(s, t) && LastSnapshotSeq(s) == LastSnapshotSeq(t)
    ensures Merge(t.history[..LastSnapshotSeq(t)]) <= NewestSnapshot(s)
  {
    if LastSnapshotSeq(s) in s.snapshots {
      NewestCovers(t);
    } else {
      assert t.history[..0] == [];
    }
  }

  lemma {:induction false} ResponseCovers(s: Log, t: Log)
    requires LogShape(s) && Covered(t) && t.life.Live? && Later(s, t)
    requires LastSnapshotSeq(s) == LastSnapshotSeq(t) && Backlog(t) <= LIMIT
    ensures Merge(t.history) <= Rebuilt(Response(s, t))
  {
    ShapeOfResponse(s, t);
    RebuiltFrom(Response(s, t), t);
    SameNewest(s, t);
    SplitHistory(t);
    assert t.history[LastSnapshotSeq(t)..EndOf(t)] == t.history[LastSnapshotSeq(t)..];
  }

  /** No snapshot commits between the reads and the backlog fits: nothing is missing. */
  lemma {:induction false} HydrationCovers(states: seq<Log>, steps: seq<Step>, i: nat, j: nat)
    requires IsRun(CoveringNext, states, steps) && states[0] == NEW && i <= j < |states| && states[j].life.Live?
    requires LastSnapshotSeq(states[i]) == LastSnapshotSeq(states[j]) && Backlog(states[j]) <= LIMIT
    ensures Merge(states[j].history) <= Rebuilt(Response(states[i], states[j]))
  {
    CoveringIsNext(states, steps);
    CoveredAlways(states, steps);
    LaterAlways(states, steps, i, j);
    ResponseCovers(states[i], states[j]);
  }

  lemma {:induction false} FirstSnapshotIs(s: Log, t: Log)
    requires Exact(s) && Exact(t) && t.life.Live? && Later(s, t)
    ensures LastSnapshotSeq(s) <= |t.history|
    ensures NewestSnapshot(s) == Merge(t.history[..LastSnapshotSeq(s)])
  {
    if s.life.Live? {
      NewestIsExact(s);
      assert s.history[..LastSnapshotSeq(s)] == t.history[..LastSnapshotSeq(s)];
    } else {
      assert t.history[..0] == [];
    }
  }

  lemma {:induction false} RebuiltParts(s: Log, t: Log)
    requires Exact(s) && Exact(t) && t.life.Live? && Later(s, t)
    ensures LastSnapshotSeq(s) <= LastSnapshotSeq(t) <= EndOf(t) <= |t.history| == t.updateSeq
    ensures Rebuilt(Response(s, t)) ==
              Merge(t.history[..LastSnapshotSeq(s)]) + Merge(t.history[LastSnapshotSeq(t)..EndOf(t)])
  {
    ShapeOfResponse(s, t);
    RebuiltFrom(Response(s, t), t);
    FirstSnapshotIs(s, t);
  }

  lemma {:induction false} WholeIff(s: Log, t: Log)
    requires Exact(s) && Exact(t) && t.life.Live? && Later(s, t) && Fresh(t.history)
    ensures Rebuilt(Response(s, t)) == Merge(t.history)
       <==> LastSnapshotSeq(s) == LastSnapshotSeq(t) && Backlog(t) <= LIMIT
  {
    RebuiltParts(s, t);
    WholeIffNothingMissing(t.history, LastSnapshotSeq(s), LastSnapshotSeq(t), EndOf(t));
  }

  /** Exactly when an answer is the whole document: no newer snapshot was committed
      between the two reads and at most 500 updates follow the snapshot. Otherwise the
      answer misses the updates compacted in between, or those past the limit. */
  lemma {:induction false} HydrationWholeIff(states: seq<Log>, steps: seq<Step>, i: nat, j: nat)
    requires IsRun(ExactNext, states, steps) && states[0] == NEW && i <= j < |states| && states[j].life.Live?
    requires Fresh(states[j].history)
    ensures Rebuilt(Response(states[i], states[j])) == Merge(states[j].history)
       <==> LastSnapshotSeq(states[i]) == LastSnapshotSeq(states[j]) && Backlog(states[j]) <= LIMIT
  {
    CoveringIsNext(states, steps);
    ExactAlways(states, steps);
    LaterAlways(states, steps, i, j);
    WholeIff(states[i], states[j]);
  }

  // ---------- shouldSnapshot: two reads and an unsigned subtraction ----------

  /** uint64 subtraction. */
  function Minus(a: nat, b: nat): nat { (a - b) % TWO_TO_64 }

  function ShouldSnapshot(last: nat, current: nat, threshold: nat): bool { Minus(current, last) >= threshold }

  /** The last snapshot seq is read first, so the subtraction wraps exactly when the
      document was deleted between the reads after it had a snapshot. */
  lemma {:induction false} TriggerWrapsIff(states: seq<Log>, steps: seq<Step>, i: nat, j: nat)
    requires IsRun(Next, states, steps) && states[0] == NEW && i <= j < |states|
    requires forall k :: 0 <= k < |states| ==> states[k].updateSeq < TWO_TO_64
    ensures var last, current := LastSnapshotSeq(states[i]), CurrentSeq(states[j]);
            Minus(current, last) == current - last <==> !(states[j].life.Deleted? && last > 0)
  {
    LogShapeAlways(states, steps);
    LaterAlways(states, steps, i, j);
  }

  /** Once on, the trigger stays on until a newer snapshot lands. */
  lemma {:induction false} TriggerStaysOn(states: seq<Log>, steps: seq<Step>, i: nat, j: nat, threshold: nat)
    requires IsRun(Next, states, steps) && states[0] == NEW && i <= j < |states| && states[j].life.Live?
    requires forall k :: 0 <= k < |states| ==> states[k].updateSeq < TWO_TO_64
    requires LastSnapshotSeq(states[i]) == LastSnapshotSeq(states[j])
    requires ShouldSnapshot(LastSnapshotSeq(states[i]), CurrentSeq(states[i]), threshold)
    ensures ShouldSnapshot(LastSnapshotSeq(states[j]), CurrentSeq(states[j]), threshold)
  {
    LogShapeAlways(states, steps);
    LaterAlways(states, steps, i, j);
    TriggerWrapsIff(states, steps, i, i);
    TriggerWrapsIff(states, steps, j, j);
  }

  // ---------- a bounded backlog ----------

  ghost function Backlog(s: Log): int { s.updateSeq - LastSnapshotSeq(s) }

  /** A snapshot transaction that reads its seq at `begin` or later commits before `end`. */
  ghost predicate SnapshotWithin(states: seq<Log>, steps: seq<Step>, begin: nat, end: nat)
    requires |states| == |steps| + 1 && end < |states|
  {
    exists b, c, tx ::
      && begin <= b < c < end && steps[b].BeginSnapshot? && steps[b].tx == tx && steps[c] == CommitSnapshot(tx)
      && forall k :: b < k <= c ==> tx in states[k].txs
  }

  /** An update has just brought the backlog to the threshold. */
  ghost predicate Crossing(states: seq<Log>, steps: seq<Step>, i: nat, threshold: nat)
    requires |states| == |steps| + 1 && i < |states|
  {
    i > 0 && steps[i - 1].Append? && Backlog(states[i]) == threshold
  }

  /** Each time an update brings the backlog to the threshold, a snapshot that begins from
      then on commits before more than `slack` further updates have come. */
  ghost predicate Prompt(states: seq<Log>, steps: seq<Step>, threshold: nat, slack: nat)
    requires |states| == |steps| + 1
  {
    forall i, j :: 0 <= i <= j < |states| && states[j].life.Live?
      && Crossing(states, steps, i, threshold) && states[j].updateSeq > states[i].updateSeq + slack
      ==> SnapshotWithin(states, steps, i, j)
  }

  /** Back to the last crossing: from there on the backlog has not been below the threshold. */
  lemma {:induction false} LastCrossing(states: seq<Log>, steps: seq<Step>, j: nat, threshold: nat) returns (i: nat)
    requires IsRun(Next, states, steps) && states[0] == NEW
    requires j < |states| && states[j].life.Live? && 0 < threshold <= Backlog(states[j])
    ensures i <= j && Crossing(states, steps, i, threshold)
    ensures forall k :: i <= k <= j ==> Backlog(states[k]) >= threshold
    decreases j
  {
    if Crossing(states, steps, j, threshold) {
      i := j;
    } else {
      BeforeCrossing(states, steps, j, threshold);
      i := LastCrossing(states, steps, j - 1, threshold);
    }
  }

  lemma {:induction false} BeforeCrossing(states: seq<Log>, steps: seq<Step>, i: nat, threshold: nat)
    requires IsRun(Next, states, steps) && states[0] == NEW && i < |states|
    requires states[i].life.Live? && 0 < threshold <= Backlog(states[i]) && !Crossing(states, steps, i, threshold)
    ensures i > 0 && states[i - 1].life.Live? && Backlog(states[i - 1]) >= threshold
  {
    LogShapeAlways(states, steps);
    assert LogShape(states[i - 1]) && Next(states[i - 1], steps[i - 1], states[i]);
    BacklogBefore(states[i - 1], steps[i - 1], states[i]);
  }

  /** Only an update raises the backlog, and by one. */
  lemma {:induction false} BacklogBefore(s: Log, l: Step, s': Log)
    requires LogShape(s) && Next(s, l, s') && s'.life.Live? && Backlog(s') > 0
    ensures s.life.Live? && Backlog(s') <= Backlog(s) + if l.Append? then 1 else 0
  {
    if l.CommitSnapshot? {
      CommitKeepsRowShape(s, l.tx, s');
    }
  }

  lemma {:induction false} BeforeSeq(states: seq<Log>, steps: seq<Step>, j: nat)
    requires IsRun(Next, states, steps) && states[0] == NEW
    requires j < |states| && states[j].life.Live? && 0 < states[j].updateSeq
    ensures j > 0 && states[j - 1].life.Live?
    ensures states[j].updateSeq == states[j - 1].updateSeq + if steps[j - 1].Append? then 1 else 0
  {
    LogShapeAlways(states, steps);
    assert LogShape(states[j - 1]) && Next(states[j - 1], steps[j - 1], states[j]);
  }

  /** Back to the update that took the given seq. */
  lemma {:induction false} AppendedAt(states: seq<Log>, steps: seq<Step>, j: nat, target: nat) returns (m: nat)
    requires IsRun(Next, states, steps) && states[0] == NEW
    requires j < |states| && states[j].life.Live? && 0 < target <= states[j].updateSeq
    ensures 0 < m <= j && steps[m - 1].Append? && states[m].updateSeq == target && states[m].life.Live?
    decreases j
  {
    BeforeSeq(states, steps, j);
    if steps[j - 1].Append? && states[j].updateSeq == target {
      m := j;
    } else {
      m := AppendedAt(states, steps, j - 1, target);
    }
  }

  lemma {:induction false} CommitRaisesLast(states: seq<Log>, steps: seq<Step>, begin: nat, end: nat)
    requires IsRun(Next, states, steps) && states[0] == NEW
    requires begin <= end < |states| && states[end].life.Live? && states[begin].life.Live?
    requires SnapshotWithin(states, steps, begin, end)
    ensures LastSnapshotSeq(states[end]) >= states[begin].updateSeq
  {
    var b, c, tx :|
      && begin <= b < c < end && steps[b].BeginSnapshot? && steps[b].tx == tx && steps[c] == CommitSnapshot(tx)
      && forall k :: b < k <= c ==> tx in states[k].txs;
    LaterAlways(states, steps, begin, b);
    LaterAlways(states, steps, b, end);
    CommittedAt(states, steps, b, c, tx);
    LaterAlways(states, steps, c + 1, end);
  }

  lemma {:induction false} CommittedAt(states: seq<Log>, steps: seq<Step>, b: nat, c: nat, tx: TxId)
    requires IsRun(Next, states, steps) && states[0] == NEW
    requires b < c < |steps| && steps[b].BeginSnapshot? && steps[b].tx == tx && steps[c] == CommitSnapshot(tx)
    requires forall k :: b < k <= c ==> tx in states[k].txs
    ensures LastSnapshotSeq(states[c + 1]) >= CurrentSeq(states[b])
  {
    LogShapeAlways(states, steps);
    TxKeepsItsSeq(states, steps, b, c, tx);
    assert Next(states[c], steps[c], states[c + 1]);
    CommitKeepsRowShape(states[c], tx, states[c + 1]);
  }

  /** However often the trigger fires, the backlog stays within threshold plus slack. */
  lemma {:induction false} BacklogBounded(states: seq<Log>, steps: seq<Step>, threshold: nat, slack: nat, j: nat)
    requires IsRun(Next, states, steps) && states[0] == NEW
    requires slack < threshold && Prompt(states, steps, threshold, slack)
    requires j < |states| && states[j].life.Live?
    ensures Backlog(states[j]) <= threshold + slack
  {
    if Backlog(states[j]) > threshold + slack {
      var i := LastCrossing(states, steps, j, threshold);
      LaterAlways(states, steps, i, j);
      LandedBefore(states, steps, threshold, slack, i, j);
      assert false;
    }
  }

  /** With more than `slack` updates since a crossing its snapshot has landed: right before
      the first update too many the backlog was below the threshold. */
  lemma {:induction false} LandedBefore(
      states: seq<Log>, steps: seq<Step>, threshold: nat, slack: nat, i: nat, j: nat)
    requires IsRun(Next, states, steps) && states[0] == NEW
    requires slack < threshold && Prompt(states, steps, threshold, slack)
    requires i <= j < |states| && states[j].life.Live? && Crossing(states, steps, i, threshold)
    requires states[j].updateSeq > states[i].updateSeq + slack
    ensures exists k :: i <= k <= j && Backlog(states[k]) < threshold
  {
    var m := AppendedAt(states, steps, j, states[i].updateSeq + slack + 1);
    if m <= i {
      LaterAlways(states, steps, m, i);
      assert false;
    }
    LaterAlways(states, steps, i, m);
    assert Next(states[i - 1], steps[i - 1], states[i]);
    CommitRaisesLast(states, steps, i, m);
    assert Next(states[m - 1], steps[m - 1], states[m]);
    assert Backlog(states[m - 1]) < threshold;
  }

  /** Prompt snapshots keep the row limit out of sight: an uninterrupted hydration is whole. */
  lemma {:induction false} PromptHydrationCovers(states: seq<Log>, steps: seq<Step>, threshold: nat, slack: nat, j: nat)
    requires IsRun(CoveringNext, states, steps) && states[0] == NEW
    requires slack < threshold && Prompt(states, steps, threshold, slack) && threshold + slack <= LIMIT
    requires j < |states| && states[j].life.Live?
    ensures Merge(states[j].history) <= Rebuilt(Response(states[j], states[j]))
  {
    CoveringIsNext(states, steps);
    BacklogBounded(states, steps, threshold, slack, j);
    HydrationCovers(states, steps, j, j);
  }
}
