/** One user's cached document list: pages are stored under the value of a version
    counter, writers announce a change by incrementing it, and a page read from the
    database is stored late, by a goroutine of its own. */
module ListCache {
  import opened Runs
  import opened TimedStore
  import opened Wrappers

  /** What a stored page is: the database state it was computed from, when its read
      started, and in which life of the counter (each expiry starts a new one). */
  datatype Stamp = Stamp(version: int, epoch: nat, start: nat, dbState: nat)

  datatype Phase = Got | Missed | Storing(dbState: nat)

  /** `floor` is the newest announced write when the read took the counter. */
  datatype Reader = Reader(version: int, page: int, size: int, start: nat, floor: nat, epoch: nat, phase: Phase)

  datatype Writer = Wrote(dbState: nat) | Bumped

  type Id = nat

  /** `dbState` counts the database writes. The second half is bookkeeping: the
      counter's life, when it began, when the counter last rose, the database state
      when each value was reached, and the previous life's last value. */
  datatype System = System(
    user: nat, shared: bool, delay: nat,
    store: Store<Stamp>, dbState: nat, readers: map<Id, Reader>, writers: map<Id, Writer>, announced: nat,
    epoch: nat, epochStart: nat, lastIncr: nat, reached: map<int, nat>, lastVersion: int, lastReached: nat)

  datatype Step =
    | Write(w: Id)
    | Bump(w: Id)
    | Renew(w: Id)
    | Forget(w: Id)
    | Begin(r: Id, page: int, size: int)
    | Hit(r: Id)
    | Miss(r: Id)
    | Query(r: Id)
    | Save(r: Id)
    | Quit(r: Id)
    | Elsewhere(c: Command<Stamp>)
    | Tick(time: nat)

  function VersionKey(s: System): Key { if s.shared then SharedVersion(s.user) else OwnedVersion(s.user) }

  function PageKey(s: System, version: int, page: int, size: int): Key
  {
    if s.shared then SharedPage(s.user, version, page, size) else OwnedPage(s.user, version, page, size)
  }

  predicate IsPage(s: System, k: Key)
  {
    if s.shared then k.SharedPage? && k.user == s.user else k.OwnedPage? && k.user == s.user
  }

  function Version(s: System): int { s.store.Counter(VersionKey(s)) }

  function CachedPage(s: System, r: Reader): Option<Value<Stamp>>
  {
    s.store.Lookup(PageKey(s, r.version, r.page, r.size))
  }

  /** The counter's entry is live now and gone at `time`. */
  predicate Expires(s: System, time: nat)
  {
    s.store.Live(VersionKey(s)) && !s.store.Advance(time).Live(VersionKey(s))
  }

  /** Old pages live at most the read-to-store delay plus a day past the expiry. */
  predicate Clear(s: System)
  {
    s.epoch == 0 || Version(s) != s.lastVersion || s.epochStart + s.delay + PAGE_TTL <= s.store.now
  }

  ghost predicate Next(s: System, l: Step, s': System)
  {
    match l
    case Write(w) =>
      w !in s.writers && s' == s.(dbState := s.dbState + 1, writers := s.writers[w := Wrote(s.dbState + 1)])
    case Bump(w) =>
      && w in s.writers && s.writers[w].Wrote?
      && s' == s.(store := s.store.Incr(VersionKey(s)), writers := s.writers[w := Bumped],
                  announced := if s.announced < s.writers[w].dbState then s.writers[w].dbState else s.announced,
                  lastIncr := s.store.now, reached := s.reached[Version(s) + 1 := s.dbState])
    case Renew(w) =>
      && w in s.writers && s.writers[w].Bumped?
      && s' == s.(store := s.store.Expire(VersionKey(s), VERSION_TTL), writers := s.writers - {w})
    case Forget(w) =>
      w in s.writers && s' == s.(writers := s.writers - {w})
    case Begin(r, page, size) =>
      && r !in s.readers
      && s' == s.(readers := s.readers[r := Reader(Version(s), page, size, s.store.now, s.announced, s.epoch, Got)])
    case Hit(r) =>
      && r in s.readers && s.readers[r].phase.Got?
      && CachedPage(s, s.readers[r]).Some? && CachedPage(s, s.readers[r]).value.Json?
      && s' == s.(readers := s.readers - {r})
    case Miss(r) =>
      && r in s.readers && s.readers[r].phase.Got? && CachedPage(s, s.readers[r]).None?
      && s' == s.(readers := s.readers[r := s.readers[r].(phase := Missed)])
    case Query(r) =>
      && r in s.readers && s.readers[r].phase.Missed?
      && s' == s.(readers := s.readers[r := s.readers[r].(phase := Storing(s.dbState))])
    case Save(r) =>
      && r in s.readers && s.readers[r].phase.Storing?
      && s' == s.(store := s.store.Put(SavedKey(s, r), Json(StampOf(s.readers[r])), PAGE_TTL),
                  readers := s.readers - {r})
    case Quit(r) =>
      r in s.readers && s' == s.(readers := s.readers - {r})
    case Elsewhere(c) =>
      // commands of other users, lists and features
      && !c.Advance? && c.key != VersionKey(s) && !IsPage(s, c.key)
      && TimedStore.Next(s.store, c, s'.store) && s' == s.(store := s'.store)
    case Tick(time) =>
      && s.store.now <= time
      && s' == if Expires(s, time) then
                 s.(store := s.store.Advance(time), epoch := s.epoch + 1, epochStart := time,
                    reached := map[0 := s.dbState], lastVersion := Version(s),
                    lastReached := if Version(s) in s.reached then s.reached[Version(s)] else 0)
               else s.(store := s.store.Advance(time))
  }

  function SavedKey(s: System, r: Id): Key
    requires r in s.readers
  {
    PageKey(s, s.readers[r].version, s.readers[r].page, s.readers[r].size)
  }

  function StampOf(r: Reader): Stamp
    requires r.phase.Storing?
  {
    Stamp(r.version, r.epoch, r.start, r.phase.dbState)
  }

  ghost predicate Start(s: System)
  {
    && s.readers == map[] && s.writers == map[] && !s.store.Live(VersionKey(s))
    && (forall k :: IsPage(s, k) ==> k !in s.store.entries)
    && s.announced <= s.dbState && s.epoch == 0 && s.epochStart == s.lastIncr == s.store.now
    && s.reached == map[0 := s.dbState]
  }

  /** The database state of the page that step `l` answers with. */
  function Served(s: System, l: Step): Option<nat>
  {
    match l
    case Hit(r) =>
      if r in s.readers && CachedPage(s, s.readers[r]).Some? && CachedPage(s, s.readers[r]).value.Json?
      then Some(CachedPage(s, s.readers[r]).value.data.dbState) else None
    case Query(_) => Some(s.dbState)
    case _ => None
  }

  // ---------- what holds whether or not the counter expires ----------

  ghost predicate CounterInv(s: System)
  {
    && (s.store.Live(VersionKey(s)) ==>
          s.store.entries[VersionKey(s)].value.Number? && s.store.entries[VersionKey(s)].value.n >= 1)
    && (forall v :: v in s.reached <==> 0 <= v <= Version(s))
    && (forall v, u :: v in s.reached && u in s.reached && v <= u ==> s.reached[v] <= s.reached[u])
    && s.announced <= s.reached[Version(s)] <= s.dbState
    && (forall w :: w in s.writers && s.writers[w].Wrote? ==> s.writers[w].dbState <= s.dbState)
  }

  ghost predicate ReaderInv(s: System, r: Reader)
    requires CounterInv(s)
  {
    && r.epoch <= s.epoch && r.floor <= s.dbState
    && (r.phase.Storing? ==> r.floor <= r.phase.dbState)
    && (r.epoch == s.epoch ==>
          && r.version in s.reached && r.floor <= s.reached[r.version]
          && (r.phase.Storing? ==> s.reached[r.version] <= r.phase.dbState))
    && (r.epoch < s.epoch ==> r.floor <= s.reached[0])
  }

  ghost predicate PageInv(s: System, k: Key)
    requires CounterInv(s)
  {
    IsPage(s, k) && k in s.store.entries ==>
      && s.store.entries[k].value.Json?
      && var stamp := s.store.entries[k].value.data;
         && stamp.version == k.version && stamp.epoch <= s.epoch
         && (stamp.epoch == s.epoch ==> stamp.version in s.reached && s.reached[stamp.version] <= stamp.dbState)
  }

  ghost predicate Core(s: System)
  {
    && CounterInv(s)
    && (forall r :: r in s.readers ==> ReaderInv(s, s.readers[r]))
    && (forall k :: PageInv(s, k))
  }

  /** Only an increment, its expiry command and the clock touch the counter. */
  lemma {:induction false} CounterEntry(s: System, l: Step, s': System)
    requires CounterInv(s) && Next(s, l, s')
    ensures VersionKey(s') == VersionKey(s)
    ensures l.Bump? ==> Version(s') == Version(s) + 1 && s'.store.Live(VersionKey(s'))
    ensures l.Tick? && Expires(s, l.time) ==> Version(s') == 0 && !s'.store.Live(VersionKey(s'))
    ensures l.Tick? && !Expires(s, l.time) ==> Version(s') == Version(s)
    ensures l.Tick? && !Expires(s, l.time) && s'.store.Live(VersionKey(s')) ==> s.store.Live(VersionKey(s))
    ensures l.Renew? ==> Version(s') == Version(s) && s'.store.Live(VersionKey(s)) == s.store.Live(VersionKey(s))
    ensures !l.Bump? && !l.Renew? && !l.Tick? ==>
              && Version(s') == Version(s) && s'.store.Live(VersionKey(s)) == s.store.Live(VersionKey(s))
              && s'.store.now == s.store.now
              && (s.store.Live(VersionKey(s)) ==>
                    s'.store.entries[VersionKey(s)] == s.store.entries[VersionKey(s)])
  {
  }

  lemma {:induction false} CounterStep(s: System, l: Step, s': System)
    requires CounterInv(s) && Next(s, l, s')
    ensures CounterInv(s')
  {
    CounterEntry(s, l, s');
    if l.Bump? {
      BumpCounter(s, l.w, s');
    }
  }

  lemma {:induction false} BumpCounter(s: System, w: Id, s': System)
    requires CounterInv(s) && Next(s, Bump(w), s') && Version(s') == Version(s) + 1
    ensures CounterInv(s')
  {
    var top := Version(s) + 1;
    assert s'.reached == s.reached[top := s.dbState];
    forall v, u | v in s'.reached && u in s'.reached && v <= u ensures s'.reached[v] <= s'.reached[u] {
      if u == top && v != top {
        assert v in s.reached && s.reached[v] <= s.reached[Version(s)];
      }
    }
  }

  /** Within one life of the counter the record of reached values only grows. */
  lemma {:induction false} ReachedKept(s: System, l: Step, s': System)
    requires CounterInv(s) && Next(s, l, s')
    ensures s.dbState <= s'.dbState && s.epoch <= s'.epoch
    ensures s'.epoch == s.epoch ==> forall v :: v in s.reached ==> v in s'.reached && s'.reached[v] == s.reached[v]
    ensures s'.epoch != s.epoch ==> l.Tick? && s'.reached == map[0 := s.dbState] && s'.epoch == s.epoch + 1
  {
  }

  lemma {:induction false} ReaderStep(s: System, l: Step, s': System, r: Id)
    requires Core(s) && Next(s, l, s') && CounterInv(s') && r in s'.readers
    ensures ReaderInv(s', s'.readers[r])
  {
    ReachedKept(s, l, s');
    if r in s.readers {
      assert ReaderInv(s, s.readers[r]);
    } else {
      assert l == Begin(r, s'.readers[r].page, s'.readers[r].size);
    }
  }

  lemma {:induction false} PageStep(s: System, l: Step, s': System, k: Key)
    requires Core(s) && Next(s, l, s') && CounterInv(s')
    ensures PageInv(s', k)
  {
    ReachedKept(s, l, s');
    assert PageInv(s, k);
    if l.Save? {
      assert ReaderInv(s, s.readers[l.r]);
    } else if IsPage(s, k) && k in s'.store.entries {
      PageEntryKept(s, l, s', k);
    }
  }

  lemma {:induction false} PageEntryKept(s: System, l: Step, s': System, k: Key)
    requires Next(s, l, s') && !l.Save? && IsPage(s, k) && k in s'.store.entries
    ensures k in s.store.entries && s'.store.entries[k] == s.store.entries[k]
  {
  }

  lemma {:induction false} CoreStep(s: System, l: Step, s': System)
    requires Core(s) && Next(s, l, s')
    ensures Core(s')
  {
    CounterStep(s, l, s');
    forall r | r in s'.readers ensures ReaderInv(s', s'.readers[r]) {
      ReaderStep(s, l, s', r);
    }
    forall k ensures PageInv(s', k) {
      PageStep(s, l, s', k);
    }
  }

  lemma {:induction false} CoreAtStart(s: System)
    requires Start(s)
    ensures Core(s)
  {
  }

  // ---------- freshness while the counter does not expire ----------

  ghost predicate LastingNext(s: System, l: Step, s': System)
  {
    Next(s, l, s') && (l.Tick? ==> !Expires(s, l.time))
  }

  ghost predicate Serves(l: Step, r: Id) { l == Hit(r) || l == Query(r) }

  lemma {:induction false} ServedInOneLife(s: System, l: Step, r: Id, s': System)
    requires Core(s) && s.epoch == 0 && Next(s, l, s') && Serves(l, r)
    ensures Served(s, l).Some? && s.readers[r].floor <= Served(s, l).value
  {
    assert ReaderInv(s, s.readers[r]);
    assert PageInv(s, PageKey(s, s.readers[r].version, s.readers[r].page, s.readers[r].size));
  }

  lemma {:induction false} PlainRun(states: seq<System>, steps: seq<Step>)
    requires IsRun(LastingNext, states, steps) || IsRun(TimelyNext, states, steps)
    ensures IsRun(Next, states, steps)
  {
    forall i | 0 <= i < |steps| ensures Next(states[i], steps[i], states[i + 1]) {
      assert LastingNext(states[i], steps[i], states[i + 1]) || TimelyNext(states[i], steps[i], states[i + 1]);
    }
  }

  /** Read `r` began at step `b`, after step `a` announced write number `n`, and answers at `c`. */
  ghost predicate ReadAfterBump(states: seq<System>, steps: seq<Step>, a: nat, b: nat, c: nat, w: Id, n: nat, r: Id)
    requires |states| == |steps| + 1
  {
    && a < b < c < |steps|
    && steps[a] == Bump(w) && w in states[a].writers && states[a].writers[w] == Wrote(n)
    && steps[b].Begin? && steps[b].r == r
    && (forall k :: b < k <= c ==> r in states[k].readers)
    && Serves(steps[c], r)
  }

  lemma {:induction false} AnnouncedKept(states: seq<System>, steps: seq<Step>, i: nat, j: nat)
    requires IsRun(Next, states, steps) && i <= j < |states|
    ensures states[i].announced <= states[j].announced
  {
    for k := i to j
      invariant states[i].announced <= states[k].announced
    {
      assert Next(states[k], steps[k], states[k + 1]);
    }
  }

  lemma {:induction false} ReaderKept(s: System, l: Step, s': System, r: Id)
    requires Next(s, l, s') && r in s.readers && r in s'.readers
    ensures s'.readers[r] == s.readers[r].(phase := s'.readers[r].phase)
  {
  }

  lemma {:induction false} FloorCarries(
      states: seq<System>, steps: seq<Step>, a: nat, b: nat, c: nat, w: Id, n: nat, r: Id)
    requires IsRun(Next, states, steps) && ReadAfterBump(states, steps, a, b, c, w, n, r)
    ensures n <= states[c].readers[r].floor
  {
    assert Next(states[a], steps[a], states[a + 1]);
    AnnouncedKept(states, steps, a + 1, b);
    assert Next(states[b], steps[b], states[b + 1]);
    for k := b + 1 to c
      invariant n <= states[k].readers[r].floor
    {
      assert Next(states[k], steps[k], states[k + 1]);
      ReaderKept(states[k], steps[k], states[k + 1], r);
    }
  }

  /** While the counter lasts, a read that begins after an increment returns never shows
      data from before the announced write, however late pages are stored. */
  lemma {:induction false} FreshWhileCounterLasts(
      states: seq<System>, steps: seq<Step>, a: nat, b: nat, c: nat, w: Id, n: nat, r: Id)
    requires IsRun(LastingNext, states, steps) && Start(states[0])
    requires ReadAfterBump(states, steps, a, b, c, w, n, r)
    ensures Served(states[c], steps[c]).Some? && n <= Served(states[c], steps[c]).value
  {
    PlainRun(states, steps);
    FloorCarries(states, steps, a, b, c, w, n, r);
    var inv := (s: System) => Core(s) && s.epoch == 0;
    CoreAtStart(states[0]);
    forall s, l, s' | inv(s) && LastingNext(s, l, s') ensures inv(s') {
      CoreStep(s, l, s');
    }
    InvariantHolds(LastingNext, inv, states, steps);
    assert Next(states[c], steps[c], states[c + 1]);
    ServedInOneLife(states[c], steps[c], r, states[c + 1]);
  }

  // ---------- freshness across expiries ----------

  /** No read takes longer than `delay` to store its page. */
  ghost predicate BoundedNext(s: System, l: Step, s': System)
  {
    && Next(s, l, s')
    && (l.Tick? ==> forall r :: r in s.readers ==> l.time <= s.readers[r].start + s.delay)
  }

  /** Nor does the counter expire between an increment and the expiry command that
      follows it, and no announcement stops between the two. */
  ghost predicate TimelyNext(s: System, l: Step, s': System)
  {
    && BoundedNext(s, l, s')
    && (l.Tick? && Expires(s, l.time) ==> NoneBumped(s))
    && (l.Forget? ==> s.writers[l.w].Wrote?)
  }

  ghost predicate NoneBumped(s: System) { forall w :: w in s.writers ==> s.writers[w].Wrote? }

  predicate IsLast(s: System, epoch: nat, version: int) { epoch + 1 == s.epoch && version == s.lastVersion }

  ghost predicate CounterTiming(s: System)
  {
    && s.delay < 6 * DAY
    && s.epochStart <= s.store.now
    && (s.epoch > 0 ==> s.lastReached <= s.dbState)
    && (s.store.Live(VersionKey(s)) ==>
          && s.epochStart <= s.lastIncr <= s.store.now
          && (NoneBumped(s) ==>
                && s.store.entries[VersionKey(s)].expiry.Some?
                && s.lastIncr + VERSION_TTL <= s.store.entries[VersionKey(s)].expiry.value))
  }

  ghost predicate ReaderTiming(s: System, r: Reader)
  {
    && r.start <= s.store.now <= r.start + s.delay && r.epoch <= s.epoch
    && (r.epoch == s.epoch && r.version < Version(s) ==> r.start <= s.lastIncr)
    && (r.epoch < s.epoch ==>
          && r.start <= s.epochStart && IsLast(s, r.epoch, r.version) && r.floor <= s.lastReached
          && (r.phase.Storing? ==> s.lastReached <= r.phase.dbState))
  }

  ghost predicate PageTiming(s: System, k: Key)
  {
    IsPage(s, k) && k in s.store.entries ==>
      var entry := s.store.entries[k];
      && entry.value.Json? && entry.value.data.epoch <= s.epoch && entry.value.data.version == k.version
      && entry.value.data.start <= s.store.now
      && entry.expiry.Some? && entry.expiry.value <= entry.value.data.start + s.delay + PAGE_TTL
      && (entry.value.data.epoch == s.epoch && k.version < Version(s) ==> entry.value.data.start <= s.lastIncr)
      && (entry.value.data.epoch < s.epoch ==>
            && entry.value.data.start <= s.epochStart
            && (entry.value.data.start + s.delay + PAGE_TTL <= s.store.now
                || (IsLast(s, entry.value.data.epoch, k.version) && s.lastReached <= entry.value.data.dbState)))
  }

  ghost predicate Timed(s: System)
  {
    && Core(s) && CounterTiming(s)
    && (forall r :: r in s.readers ==> ReaderTiming(s, s.readers[r]))
    && (forall k :: PageTiming(s, k))
  }

  /** When the counter expires, its last increment is at least seven days old. */
  lemma ExpiryIsLate(s: System, time: nat)
    requires Timed(s) && Expires(s, time) && NoneBumped(s)
    ensures s.epochStart <= s.lastIncr && s.lastIncr + VERSION_TTL <= time
  {
  }

  lemma {:induction false} CounterTimingStep(s: System, l: Step, s': System)
    requires Timed(s) && TimelyNext(s, l, s')
    ensures CounterTiming(s')
  {
    CounterEntry(s, l, s');
    if l.Bump? {
      assert s'.writers[l.w].Bumped?;
    } else if (l.Write? || l.Forget?) && NoneBumped(s') {
      forall w | w in s.writers ensures s.writers[w].Wrote? {
        assert w in s'.writers || (l.Forget? && w == l.w);
      }
    }
  }

  lemma {:induction false} ReaderTimingStep(s: System, l: Step, s': System, r: Id)
    requires Timed(s) && TimelyNext(s, l, s') && r in s'.readers
    ensures ReaderTiming(s', s'.readers[r])
  {
    CounterEntry(s, l, s');
    if r in s.readers {
      assert ReaderTiming(s, s.readers[r]) && ReaderInv(s, s.readers[r]);
      if l.Tick? && Expires(s, l.time) {
        ExpiryIsLate(s, l.time);
        ReaderAtExpiry(s, l.time, s', r);
      }
    }
  }

  /** A read still in flight at the expiry took the counter's last value. */
  lemma {:induction false} ReaderAtExpiry(s: System, time: nat, s': System, r: Id)
    requires Timed(s) && TimelyNext(s, Tick(time), s') && Expires(s, time) && r in s.readers
    requires ReaderTiming(s, s.readers[r]) && ReaderInv(s, s.readers[r])
    requires s.epochStart <= s.lastIncr && s.lastIncr + VERSION_TTL <= time
    ensures ReaderTiming(s', s'.readers[r])
  {
    assert time <= s.readers[r].start + s.delay;
    assert s.readers[r].epoch == s.epoch && s.readers[r].version == Version(s);
  }

  lemma {:induction false} PageTimingStep(s: System, l: Step, s': System, k: Key)
    requires Timed(s) && TimelyNext(s, l, s')
    ensures PageTiming(s', k)
  {
    assert PageTiming(s, k) && PageInv(s, k);
    if IsPage(s, k) && k in s'.store.entries {
      if l.Save? && k == SavedKey(s, l.r) {
        SavedPageTiming(s, l.r, s');
      } else if l.Tick? && Expires(s, l.time) {
        ExpiryIsLate(s, l.time);
      } else {
        CounterEntry(s, l, s');
        PageStays(s, l, s', k);
      }
    }
  }

  lemma {:induction false} SavedPageTiming(s: System, r: Id, s': System)
    requires Timed(s) && TimelyNext(s, Save(r), s')
    ensures PageTiming(s', SavedKey(s, r))
  {
    CounterEntry(s, Save(r), s');
    assert ReaderTiming(s, s.readers[r]);
  }

  lemma {:induction false} PageStays(s: System, l: Step, s': System, k: Key)
    requires CounterTiming(s) && Next(s, l, s') && PageTiming(s, k)
    requires IsPage(s, k) && k in s'.store.entries
    requires l.Save? ==> k != SavedKey(s, l.r)
    requires l.Tick? ==> !Expires(s, l.time)
    requires VersionKey(s') == VersionKey(s)
    requires if l.Bump? then Version(s') == Version(s) + 1 else Version(s') == Version(s)
    ensures PageTiming(s', k)
  {
    assert s'.store.entries[k] == s.store.entries[k];
  }

  lemma {:induction false} TimedStep(s: System, l: Step, s': System)
    requires Timed(s) && TimelyNext(s, l, s')
    ensures Timed(s')
  {
    CoreStep(s, l, s');
    CounterTimingStep(s, l, s');
    forall r | r in s'.readers ensures ReaderTiming(s', s'.readers[r]) {
      ReaderTimingStep(s, l, s', r);
    }
    forall k ensures PageTiming(s', k) {
      PageTimingStep(s, l, s', k);
    }
  }

  lemma {:induction false} TimedAlways(states: seq<System>, steps: seq<Step>)
    requires IsRun(TimelyNext, states, steps) && Start(states[0]) && states[0].delay < 6 * DAY
    ensures forall i :: 0 <= i < |states| ==> Timed(states[i])
  {
    CoreAtStart(states[0]);
    forall s, l, s' | Timed(s) && TimelyNext(s, l, s') ensures Timed(s') {
      TimedStep(s, l, s');
    }
    InvariantHolds(TimelyNext, Timed, states, steps);
  }

  /** After an expiry the only pages of an earlier life still alive are those stored under
      the last value of the life just ended. */
  lemma {:induction false} OldPagesAreLast(states: seq<System>, steps: seq<Step>, i: nat, k: Key)
    requires IsRun(TimelyNext, states, steps) && Start(states[0]) && states[0].delay < 6 * DAY
    requires i < |states| && IsPage(states[i], k) && states[i].store.Live(k)
    ensures states[i].store.entries[k].value.Json?
    ensures var stamp := states[i].store.entries[k].value.data;
            stamp.epoch < states[i].epoch ==> IsLast(states[i], stamp.epoch, stamp.version)
  {
    TimedAlways(states, steps);
    assert PageTiming(states[i], k);
  }

  // ---------- exactly when a read can show old data ----------

  /** Something that can still answer for this page with data older than `n`: a live page
      under the current version, or a read of it that has yet to store its answer. */
  ghost predicate OldSource(s: System, k: Key, version: int, page: int, size: int, n: nat)
  {
    || (s.store.Live(k) && s.store.entries[k].value.Json? && s.store.entries[k].value.data.dbState < n)
    || exists q :: q in s.readers && StoresOld(s.readers[q], version, page, size, n)
  }

  predicate StoresOld(q: Reader, version: int, page: int, size: int, n: nat)
  {
    q.version == version && q.page == page && q.size == size && q.phase.Storing? && q.phase.dbState < n
  }

  /** The read `r` that begins with the first step answers at step `c` with older data. */
  ghost predicate ServesOld(states: seq<System>, steps: seq<Step>, c: nat, r: Id, page: int, size: int, n: nat)
    requires |states| == |steps| + 1
  {
    && 0 < c < |steps| && steps[0] == Begin(r, page, size)
    && (forall k :: 0 < k <= c ==> r in states[k].readers)
    && Serves(steps[c], r) && Served(states[c], steps[c]).Some? && Served(states[c], steps[c]).value < n
  }

  ghost predicate CanServeOld(
    next: (System, Step, System) -> bool, s: System, r: Id, page: int, size: int, n: nat)
  {
    exists states: seq<System>, steps: seq<Step>, c: nat ::
      IsRun(next, states, steps) && states[0] == s && ServesOld(states, steps, c, r, page, size, n)
  }

  /** Nothing old is left for the page `k` of `version`. */
  ghost predicate NothingOld(s: System, k: Key, version: int, page: int, size: int, n: nat)
  {
    && IsPage(s, k) && k == PageKey(s, version, page, size) && n <= s.dbState
    && !OldSource(s, k, version, page, size, n)
  }

  lemma {:induction false} NothingOldStep(
      s: System, l: Step, s': System, k: Key, version: int, page: int, size: int, n: nat)
    requires NothingOld(s, k, version, page, size, n) && Next(s, l, s')
    ensures NothingOld(s', k, version, page, size, n)
  {
    forall q | q in s'.readers ensures !StoresOld(s'.readers[q], version, page, size, n) {
      assert q in s.readers ==> !StoresOld(s.readers[q], version, page, size, n);
    }
    if l.Save? {
      assert !StoresOld(s.readers[l.r], version, page, size, n);
    } else if k in s'.store.entries {
      PageEntryKept(s, l, s', k);
    }
  }

  lemma {:induction false} VersionKept(states: seq<System>, steps: seq<Step>, c: nat, r: Id, page: int, size: int)
    requires IsRun(Next, states, steps) && 0 < c <= |steps| && steps[0] == Begin(r, page, size)
    requires forall k :: 0 < k <= c ==> r in states[k].readers
    ensures states[c].readers[r].version == Version(states[0])
    ensures states[c].readers[r].page == page && states[c].readers[r].size == size
  {
    assert Next(states[0], steps[0], states[1]);
    for k := 1 to c
      invariant states[k].readers[r].version == Version(states[0])
      invariant states[k].readers[r].page == page && states[k].readers[r].size == size
    {
      assert Next(states[k], steps[k], states[k + 1]);
      ReaderKept(states[k], steps[k], states[k + 1], r);
    }
  }

  lemma {:induction false} NeverServesOld(
      states: seq<System>, steps: seq<Step>, c: nat, r: Id, page: int, size: int, n: nat)
    requires IsRun(Next, states, steps) && n <= states[0].dbState
    requires ServesOld(states, steps, c, r, page, size, n)
    ensures OldSource(states[0], PageKey(states[0], Version(states[0]), page, size), Version(states[0]), page, size, n)
  {
    var version := Version(states[0]);
    var k := PageKey(states[0], version, page, size);
    if !OldSource(states[0], k, version, page, size, n) {
      for i := 0 to c
        invariant NothingOld(states[i], k, version, page, size, n)
      {
        assert Next(states[i], steps[i], states[i + 1]);
        NothingOldStep(states[i], steps[i], states[i + 1], k, version, page, size, n);
      }
      VersionKept(states, steps, c, r, page, size);
      assert false;
    }
  }

  function Began(s: System, r: Id, page: int, size: int): System
  {
    s.(readers := s.readers[r := Reader(Version(s), page, size, s.store.now, s.announced, s.epoch, Got)])
  }

  lemma {:induction false} OldPageServes(s: System, r: Id, page: int, size: int, n: nat)
    requires r !in s.readers
    requires var k := PageKey(s, Version(s), page, size);
             s.store.Live(k) && s.store.entries[k].value.Json? && s.store.entries[k].value.data.dbState < n
    ensures CanServeOld(TimelyNext, s, r, page, size, n)
  {
    var s1 := Began(s, r, page, size);
    var states, steps := [s, s1, s], [Begin(r, page, size), Hit(r)];
    assert TimelyNext(s, steps[0], s1);
    assert s1.readers - {r} == s.readers;
    assert TimelyNext(s1, steps[1], s);
    assert IsRun(TimelyNext, states, steps) && ServesOld(states, steps, 1, r, page, size, n);
  }

  lemma {:induction false} OldReaderServes(s: System, q: Id, r: Id, page: int, size: int, n: nat)
    requires r !in s.readers && q in s.readers && StoresOld(s.readers[q], Version(s), page, size, n)
    ensures CanServeOld(TimelyNext, s, r, page, size, n)
  {
    var s1 := Began(s, r, page, size);
    var k := PageKey(s, Version(s), page, size);
    var s2 := s1.(store := s1.store.Put(k, Json(StampOf(s.readers[q])), PAGE_TTL), readers := s1.readers - {q});
    var s3 := s2.(readers := s2.readers - {r});
    var states, steps := [s, s1, s2, s3], [Begin(r, page, size), Save(q), Hit(r)];
    assert TimelyNext(s, steps[0], s1);
    assert SavedKey(s1, q) == k && TimelyNext(s1, steps[1], s2);
    assert CachedPage(s2, s2.readers[r]) == Some(Json(StampOf(s.readers[q])));
    assert TimelyNext(s2, steps[2], s3);
    assert IsRun(TimelyNext, states, steps) && ServesOld(states, steps, 2, r, page, size, n);
  }

  lemma {:induction false} TimelyIsEnough(s: System, r: Id, page: int, size: int, n: nat)
    requires CanServeOld(TimelyNext, s, r, page, size, n)
    ensures CanServeOld(Next, s, r, page, size, n)
  {
    var states: seq<System>, steps: seq<Step>, c: nat :|
      IsRun(TimelyNext, states, steps) && states[0] == s && ServesOld(states, steps, c, r, page, size, n);
    PlainRun(states, steps);
  }

  /** From any state whatever, a read that begins now can come to show data older than
      write `n` if and only if there is an old source for its page under the version it
      takes. Neither long delays nor expiries of the counter can make up for one, and
      none of them is needed. */
  lemma {:induction false} ShowsOldIff(s: System, r: Id, page: int, size: int, n: nat)
    requires r !in s.readers && n <= s.dbState
    ensures var source := OldSource(s, PageKey(s, Version(s), page, size), Version(s), page, size, n);
            && (CanServeOld(Next, s, r, page, size, n) <==> source)
            && (CanServeOld(TimelyNext, s, r, page, size, n) <==> source)
  {
    var k := PageKey(s, Version(s), page, size);
    if OldSource(s, k, Version(s), page, size, n) {
      if q :| q in s.readers && StoresOld(s.readers[q], Version(s), page, size, n) {
        OldReaderServes(s, q, r, page, size, n);
      } else {
        OldPageServes(s, r, page, size, n);
      }
      TimelyIsEnough(s, r, page, size, n);
    } else {
      if CanServeOld(TimelyNext, s, r, page, size, n) {
        TimelyIsEnough(s, r, page, size, n);
      }
      if CanServeOld(Next, s, r, page, size, n) {
        var states: seq<System>, steps: seq<Step>, c: nat :|
          IsRun(Next, states, steps) && states[0] == s && ServesOld(states, steps, c, r, page, size, n);
        NeverServesOld(states, steps, c, r, page, size, n);
        assert false;
      }
    }
  }

  // ---------- where there is no old source ----------

  /** What was announced is in every page and every pending answer under the current
      version, unless they stem from the previous life's last value. */
  lemma {:induction false} ClearHasNoOldSource(s: System, page: int, size: int)
    requires Timed(s) && Clear(s)
    ensures !OldSource(s, PageKey(s, Version(s), page, size), Version(s), page, size, s.announced)
  {
    var k := PageKey(s, Version(s), page, size);
    assert PageInv(s, k) && PageTiming(s, k);
    forall q | q in s.readers ensures !StoresOld(s.readers[q], Version(s), page, size, s.announced) {
      assert ReaderInv(s, s.readers[q]) && ReaderTiming(s, s.readers[q]);
    }
  }

  lemma {:induction false} RunFrom(states: seq<System>, steps: seq<Step>, b: nat)
    requires IsRun(Next, states, steps) && b <= |steps|
    ensures IsRun(Next, states[b..], steps[b..])
  {
    forall i | 0 <= i < |steps[b..]| ensures Next(states[b..][i], steps[b..][i], states[b..][i + 1]) {
      assert Next(states[b + i], steps[b + i], states[b + i + 1]);
    }
  }

  lemma AnnouncedByBump(s: System, w: Id, s': System)
    requires Next(s, Bump(w), s') && s.writers[w].Wrote?
    ensures s.writers[w].dbState <= s'.announced
  {
  }

  lemma {:induction false} AlwaysServes(states: seq<System>, steps: seq<Step>, i: nat, r: Id)
    requires IsRun(Next, states, steps) && i < |steps| && Serves(steps[i], r)
    ensures Served(states[i], steps[i]).Some?
  {
    assert Next(states[i], steps[i], states[i + 1]);
  }

  /** The same freshness in runs where the counter expires and restarts from 0, for every
      read that does not take the previous life's last value while its pages may live. */
  lemma {:induction false} FreshAcrossExpiry(
      states: seq<System>, steps: seq<Step>, a: nat, b: nat, c: nat, w: Id, n: nat, r: Id)
    requires IsRun(TimelyNext, states, steps) && Start(states[0]) && states[0].delay < 6 * DAY
    requires ReadAfterBump(states, steps, a, b, c, w, n, r) && Clear(states[b])
    ensures Served(states[c], steps[c]).Some? && n <= Served(states[c], steps[c]).value
  {
    PlainRun(states, steps);
    TimedAlways(states, steps);
    AlwaysServes(states, steps, c, r);
    assert Next(states[a], steps[a], states[a + 1]);
    AnnouncedByBump(states[a], w, states[a + 1]);
    AnnouncedKept(states, steps, a + 1, b);
    var s, page, size := states[b], steps[b].page, steps[b].size;
    ClearHasNoOldSource(s, page, size);
    if Served(states[c], steps[c]).value < n {
      RunFrom(states, steps, b);
      forall k | 0 < k <= c - b ensures r in states[b..][k].readers {
        assert r in states[b + k].readers;
      }
      assert ServesOld(states[b..], steps[b..], c - b, r, page, size, s.announced);
      NeverServesOld(states[b..], steps[b..], c - b, r, page, size, s.announced);
      assert false;
    }
  }

  // ---------- bounded age ----------

  ghost predicate AgeInv(s: System)
  {
    && (forall r :: r in s.readers ==> s.readers[r].start <= s.store.now <= s.readers[r].start + s.delay)
    && (forall k :: PageAge(s, k))
  }

  ghost predicate PageAge(s: System, k: Key)
  {
    IsPage(s, k) && k in s.store.entries ==>
      && s.store.entries[k].value.Json? && s.store.entries[k].expiry.Some?
      && s.store.entries[k].expiry.value <= s.store.entries[k].value.data.start + s.delay + PAGE_TTL
  }

  lemma {:induction false} AgeStep(s: System, l: Step, s': System)
    requires AgeInv(s) && BoundedNext(s, l, s')
    ensures AgeInv(s')
  {
    forall k ensures PageAge(s', k) {
      assert PageAge(s, k);
      if IsPage(s, k) && k in s'.store.entries && !l.Save? {
        PageEntryKept(s, l, s', k);
      }
    }
  }

  /** No page is ever served whose read began more than the delay plus 24 hours ago. */
  lemma {:induction false} ServedIsRecent(states: seq<System>, steps: seq<Step>, i: nat, r: Id)
    requires IsRun(BoundedNext, states, steps) && Start(states[0])
    requires i < |steps| && steps[i] == Hit(r)
    ensures r in states[i].readers && Served(states[i], steps[i]).Some?
    ensures states[i].store.now <
              CachedPage(states[i], states[i].readers[r]).value.data.start + states[i].delay + 24 * HOUR
  {
    forall s, l, s' | AgeInv(s) && BoundedNext(s, l, s') ensures AgeInv(s') {
      AgeStep(s, l, s');
    }
    InvariantHolds(BoundedNext, AgeInv, states, steps);
    assert BoundedNext(states[i], steps[i], states[i + 1]);
    var reader := states[i].readers[r];
    assert PageAge(states[i], PageKey(states[i], reader.version, reader.page, reader.size));
  }

  // ---------- a read that is not clear ----------

  const COUNTER: Key := OwnedVersion(0)
  const PAGE: Key := OwnedPage(0, 1, 1, 10)
  const OLD_PAGE: Entry<Stamp> := Entry(Json(Stamp(1, 0, VERSION_TTL - 1, 1)), Some(VERSION_TTL - 1 + PAGE_TTL))
  const READER: Reader := Reader(1, 1, 10, VERSION_TTL - 1, 1, 0, Got)

  const R0: System :=
    System(0, false, 0, Store(0, map[]), 0, map[], map[], 0, 0, 0, 0, map[0 := 0], 0, 0)
  const R1: System := R0.(dbState := 1, writers := map[0 := Wrote(1)])
  const R2: System := R1.(store := Store(0, map[COUNTER := Entry(Number(1), None)]), writers := map[0 := Bumped],
                          announced := 1, reached := map[0 := 0, 1 := 1])
  const R3: System := R2.(store := Store(0, map[COUNTER := Entry(Number(1), Some(VERSION_TTL))]), writers := map[])
  const R4: System := R3.(store := R3.store.Advance(VERSION_TTL - 1))
  const R5: System := R4.(readers := map[0 := READER])
  const R6: System := R4.(readers := map[0 := READER.(phase := Missed)])
  const R7: System := R4.(readers := map[0 := READER.(phase := Storing(1))])
  const R8: System := R4.(store := R4.store.Put(PAGE, OLD_PAGE.value, PAGE_TTL))
  const R9: System := R8.(store := R8.store.Advance(VERSION_TTL), epoch := 1, epochStart := VERSION_TTL,
                          reached := map[0 := 1], lastVersion := 1, lastReached := 1)
  const R10: System := R9.(dbState := 2, writers := map[1 := Wrote(2)])
  const R11: System := R10.(store := R9.store.Incr(COUNTER), writers := map[1 := Bumped],
                            announced := 2, lastIncr := VERSION_TTL, reached := map[0 := 1, 1 := 2])
  const R12: System := R11.(readers := map[1 := Reader(1, 1, 10, VERSION_TTL, 2, 1, Got)])

  lemma {:induction false} CounterStarted()
    ensures TimelyNext(R0, Write(0), R1) && TimelyNext(R1, Bump(0), R2) && TimelyNext(R2, Renew(0), R3)
    ensures TimelyNext(R3, Tick(VERSION_TTL - 1), R4)
  {
  }

  lemma {:induction false} PageStoredBeforeExpiry()
    ensures TimelyNext(R4, Begin(0, 1, 10), R5) && TimelyNext(R5, Miss(0), R6)
    ensures TimelyNext(R6, Query(0), R7) && TimelyNext(R7, Save(0), R8)
  {
    assert R8.store.entries[PAGE] == OLD_PAGE;
  }

  lemma {:induction false} CounterRestarted()
    ensures TimelyNext(R8, Tick(VERSION_TTL), R9) && TimelyNext(R9, Write(1), R10) && TimelyNext(R10, Bump(1), R11)
  {
    assert R8.store.entries[COUNTER].expiry == Some(VERSION_TTL);
    assert Expires(R8, VERSION_TTL);
  }

  lemma {:induction false} PageServedAfterExpiry()
    ensures TimelyNext(R11, Begin(1, 1, 10), R12) && TimelyNext(R12, Hit(1), R11)
    ensures Served(R12, Hit(1)) == Some(1)
  {
    assert R12.store.entries[PAGE] == OLD_PAGE;
  }

  /** The counter expires, restarts and is back at its last value while a page of that value
      lives: a read that begins after the second write was announced shows the first. */
  lemma {:induction false} StaleAfterClimbBack()
    ensures var states := [R0, R1, R2, R3, R4, R5, R6, R7, R8, R9, R10, R11, R12, R11];
            var steps := [Write(0), Bump(0), Renew(0), Tick(VERSION_TTL - 1), Begin(0, 1, 10), Miss(0), Query(0),
                          Save(0), Tick(VERSION_TTL), Write(1), Bump(1), Begin(1, 1, 10), Hit(1)];
            && IsRun(TimelyNext, states, steps) && Start(R0)
            && ReadAfterBump(states, steps, 10, 11, 12, 1, 2, 1)
            && !Clear(states[11]) && Served(states[12], steps[12]) == Some(1)
  {
    CounterStarted();
    PageStoredBeforeExpiry();
    CounterRestarted();
    PageServedAfterExpiry();
  }
}
